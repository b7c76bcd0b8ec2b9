/** The periodic work items, with periodic sampling enabled: environment and air-quality sampling
    in the manager and the battery poll, against connects and disconnects. A handler may be
    overtaken while it samples; its final test and reschedule happen together, because the work
    queue and the Bluetooth host are cooperative threads. */
module PeriodicWork {

  datatype Item = Item(pending: bool, running: bool)

  const QUIET := Item(false, false)

  /** Which service a connect callback is inside of. */
  datatype Callback = Outside | InManager | InBas

  /** `staleFirings` counts battery polls that fired since the last client left. */
  datatype Work = Work(
    armed: bool,
    count: nat,
    env: Item,
    aq: Item,
    basReady: bool,
    basCount: nat,
    poll: Item,
    callback: Callback,
    hardwareReads: nat,
    staleFirings: nat)

  const POWER_ON := Work(false, 0, QUIET, QUIET, false, 0, QUIET, Outside, 0, 0)

  datatype Event =
    | Arm | BasInit
    | ManagerConnect | ManagerScheduled | BasConnect | BasScheduled
    | ManagerDisconnect | BasDisconnect
    | EnvFires | EnvDone | AqFires | AqDone
    | PollFires | PollDone

  function Schedule(i: Item): Item { i.(pending := true) }
  function Cancel(i: Item): Item { i.(pending := false) }
  function Fire(i: Item): Item { Item(false, true) }

  predicate Running(w: Work) { w.env.running || w.aq.running || w.poll.running }

  ghost predicate Enabled(w: Work, e: Event) {
    match e
    case ManagerConnect => w.callback == Outside
    case ManagerScheduled => w.callback == InManager
    case BasConnect => w.callback == Outside
    case BasScheduled => w.callback == InBas
    case ManagerDisconnect => w.callback == Outside
    case BasDisconnect => w.callback == Outside
    case EnvFires => w.env.pending && !Running(w)
    case EnvDone => w.env.running
    case AqFires => w.aq.pending && !Running(w)
    case AqDone => w.aq.running
    case PollFires => w.poll.pending && !Running(w)
    case PollDone => w.poll.running
    case _ => true
  }

  function Step(w: Work, e: Event): Work {
    match e
    case Arm => w.(armed := true)
    case BasInit => w.(basReady := true)
    case ManagerConnect => if w.armed then w.(count := w.count + 1, callback := InManager) else w
    case ManagerScheduled => w.(env := Schedule(w.env), aq := Schedule(w.aq), callback := Outside)
    case BasConnect =>
      if w.basReady then w.(basCount := w.basCount + 1, callback := InBas, staleFirings := 0) else w
    case BasScheduled => w.(poll := Schedule(w.poll), callback := Outside)
    case ManagerDisconnect =>
      if w.count == 0 then w
      else if w.count == 1 then w.(count := 0, env := Cancel(w.env), aq := Cancel(w.aq))
      else w.(count := w.count - 1)
    case BasDisconnect =>
      if w.basCount == 0 then w
      else if w.basCount == 1 then w.(basCount := 0, poll := Cancel(w.poll))
      else w.(basCount := w.basCount - 1)
    case EnvFires => w.(env := Fire(w.env))
    case EnvDone => w.(env := Item(w.env.pending || (w.armed && w.count > 0), false))
    case AqFires => w.(aq := Fire(w.aq))
    case AqDone => w.(aq := Item(w.aq.pending || (w.armed && w.count > 0), false))
    case PollFires =>
      if !w.basReady || w.basCount == 0
      then w.(poll := Cancel(w.poll), staleFirings := w.staleFirings + 1)
      else w.(poll := Fire(w.poll), hardwareReads := w.hardwareReads + 1)
    case PollDone => w.(poll := Item(true, false))
  }

  ghost predicate Run(w: Work, es: seq<Event>)
    decreases |es|
  {
    es == [] || (Enabled(w, es[0]) && Run(Step(w, es[0]), es[1..]))
  }

  function After(w: Work, es: seq<Event>): Work
    decreases |es|
  {
    if es == [] then w else After(Step(w, es[0]), es[1..])
  }

  function One(b: bool): nat { if b then 1 else 0 }

  ghost predicate Inv(w: Work) {
    && (w.count > 0 ==> w.armed)
    && (w.callback == InManager ==> w.count > 0)
    && (w.callback == InBas ==> w.basCount > 0)
    && (w.count > 0 && w.callback != InManager ==> (w.env.pending || w.env.running) && (w.aq.pending || w.aq.running))
    && (w.env.pending || w.aq.pending ==> w.count > 0)
    && (w.basCount > 0 ==> w.basReady)
    && (w.basCount > 0 && w.callback != InBas ==> w.poll.pending || w.poll.running)
    && (w.basCount == 0 ==> w.staleFirings + One(w.poll.pending) + One(w.poll.running) <= 1)
    && (w.basCount > 0 ==> w.staleFirings == 0)
  }

  lemma StartKeepsInv(w: Work, e: Event)
    requires Inv(w) && Enabled(w, e) && (e.Arm? || e.BasInit?)
    ensures Inv(Step(w, e))
  {
  }

  lemma ConnectKeepsInv(w: Work, e: Event)
    requires Inv(w) && Enabled(w, e)
    requires e.ManagerConnect? || e.ManagerScheduled? || e.BasConnect? || e.BasScheduled?
    ensures Inv(Step(w, e))
  {
  }

  lemma DisconnectKeepsInv(w: Work, e: Event)
    requires Inv(w) && Enabled(w, e) && (e.ManagerDisconnect? || e.BasDisconnect?)
    ensures Inv(Step(w, e))
  {
  }

  lemma SamplingKeepsInv(w: Work, e: Event)
    requires Inv(w) && Enabled(w, e) && (e.EnvFires? || e.EnvDone? || e.AqFires? || e.AqDone?)
    ensures Inv(Step(w, e))
  {
  }

  lemma PollKeepsInv(w: Work, e: Event)
    requires Inv(w) && Enabled(w, e) && (e.PollFires? || e.PollDone?)
    ensures Inv(Step(w, e))
  {
  }

  lemma StepKeepsInv(w: Work, e: Event)
    requires Inv(w) && Enabled(w, e)
    ensures Inv(Step(w, e))
  {
    match e
    case Arm | BasInit => StartKeepsInv(w, e);
    case ManagerConnect | ManagerScheduled | BasConnect | BasScheduled => ConnectKeepsInv(w, e);
    case ManagerDisconnect | BasDisconnect => DisconnectKeepsInv(w, e);
    case EnvFires | EnvDone | AqFires | AqDone => SamplingKeepsInv(w, e);
    case PollFires | PollDone => PollKeepsInv(w, e);
  }

  lemma {:induction false} RunKeepsInv(w: Work, es: seq<Event>)
    requires Inv(w) && Run(w, es)
    ensures Inv(After(w, es))
    decreases |es|
  {
    if es != [] {
      StepKeepsInv(w, es[0]);
      RunKeepsInv(Step(w, es[0]), es[1..]);
    }
  }

  /** Outside the connect callback a client means both sampling items are pending or running, and a
      pending one means there is a client. */
  lemma SamplingFollowsClients(es: seq<Event>)
    requires Run(POWER_ON, es)
    ensures
      var w := After(POWER_ON, es);
      && (w.callback == Outside && w.count > 0 ==> (w.env.pending || w.env.running) && (w.aq.pending || w.aq.running))
      && (w.env.pending || w.aq.pending ==> w.count > 0)
  {
    RunKeepsInv(POWER_ON, es);
  }

  /** The battery poll starts a hardware read only for a client, and after the last client leaves it
      fires at most once more, doing nothing. */
  lemma PollStopsWithClients(es: seq<Event>, e: Event)
    requires Run(POWER_ON, es) && Enabled(After(POWER_ON, es), e)
    ensures
      var w := After(POWER_ON, es);
      && (Step(w, e).hardwareReads > w.hardwareReads ==> w.basCount > 0)
      && w.staleFirings <= 1
      && (w.basCount == 0 && w.staleFirings == 1 ==> !w.poll.pending && !w.poll.running)
  {
    RunKeepsInv(POWER_ON, es);
  }

  /** The stale firing does happen: a client that leaves while the poll is reading the battery leaves
      it rescheduled, unlike the sampling items, whose handlers look at the counter last. */
  lemma LeavingDuringPollLeavesItPending() returns (es: seq<Event>)
    ensures Run(POWER_ON, es)
    ensures
      var w := After(POWER_ON, es);
      w.count == 0 && w.basCount == 0 && w.poll.pending && !w.env.pending && !w.aq.pending
  {
    es := [];
    es := Extend(es, Arm);
    es := Extend(es, BasInit);
    es := Extend(es, ManagerConnect);
    es := Extend(es, ManagerScheduled);
    es := Extend(es, BasConnect);
    es := Extend(es, BasScheduled);
    es := Extend(es, PollFires);
    es := Extend(es, ManagerDisconnect);
    es := Extend(es, BasDisconnect);
    es := Extend(es, PollDone);
  }

  /** A sampling handler that is overtaken by the last disconnect does not come back; one that is not,
      does. */
  lemma SamplingHandlerLooksLast() returns (es: seq<Event>)
    ensures Run(POWER_ON, es)
    ensures
      var w := After(POWER_ON, es);
      && w.count == 1 && w.env == Item(true, false) && w.aq == Item(false, true)
      && Enabled(w, ManagerDisconnect) && Enabled(Step(w, ManagerDisconnect), AqDone)
      && Step(w, AqDone).aq == Item(true, false)
      && Step(Step(w, ManagerDisconnect), AqDone).aq == QUIET
      && Step(Step(w, ManagerDisconnect), AqDone).env == QUIET
  {
    es := [];
    es := Extend(es, Arm);
    es := Extend(es, ManagerConnect);
    es := Extend(es, ManagerScheduled);
    es := Extend(es, EnvFires);
    es := Extend(es, EnvDone);
    es := Extend(es, AqFires);
  }

  /** A poll that fires for a client reads the hardware and comes back, whatever happens meanwhile. */
  lemma PollReadsForClient(w: Work)
    requires Inv(w) && Enabled(w, PollFires) && w.basCount > 0
    ensures
      var v := Step(w, PollFires);
      v.hardwareReads == w.hardwareReads + 1 && v.poll == Item(false, true) && Step(v, PollDone).poll == Item(true, false)
  {
  }

  lemma Extend(es: seq<Event>, e: Event) returns (longer: seq<Event>)
    requires Run(POWER_ON, es) && Enabled(After(POWER_ON, es), e)
    ensures Run(POWER_ON, longer) && After(POWER_ON, longer) == Step(After(POWER_ON, es), e)
  {
    RunAppend(POWER_ON, es, e);
    longer := es + [e];
  }

  lemma {:induction false} RunAppend(w: Work, es: seq<Event>, e: Event)
    requires Run(w, es) && Enabled(After(w, es), e)
    ensures Run(w, es + [e]) && After(w, es + [e]) == Step(After(w, es), e)
    decreases |es|
  {
    if es == [] {
      assert Run(Step(w, e), []);
    } else {
      RunAppend(Step(w, es[0]), es[1..], e);
      assert (es + [e])[1..] == es[1..] + [e];
    }
  }
}
