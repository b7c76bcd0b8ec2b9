/** The CCS811 driver and the manager's connection bookkeeping as one interleaved machine. Every
    critical section is a step, every foreign result is a parameter of its step, the unlocked
    readiness check is a step of its own, and a read may sleep between two steps while anything
    else runs. */
module Sampling {
  import opened Common
  import opened Ccs811
  import opened Sensors

  /** The connect/disconnect callback in progress; the Bluetooth host runs one at a time. */
  datatype Callback = NoCallback | Connecting | Disconnecting

  datatype Boot = Cold | Resetting | Booted

  /** Who reads: a manager update (one at a time, under the manager's mutex) or a GATT read. */
  datatype Path = Update | Gatt

  /** A read asleep until `wakeAt`, with the number of 1 s mode entries it had seen. */
  datatype Reader = Reader(path: Path, wakeAt: int, entry: nat)

  /** Bookkeeping the firmware does not keep: the number and instant of 1 s mode entries, whether
      the wait after the last entry was cut short, whether completion was recorded by a readiness
      check and no mode change was accepted since, and when the cached values were stored. */
  datatype History = History(entries: nat, enteredAt: int, cutShort: bool, lazily: bool, co2At: int, tvocAt: int)

  datatype Sys = Sys(
    d: Driver,
    clock: int,
    boot: Boot,
    armed: bool,
    count: nat,
    callback: Callback,
    sleepers: seq<Reader>,
    fallbacks: nat,
    snap: Snapshot,
    h: History)

  const START := Sys(UNBOUND, 0, Cold, false, 0, NoCallback, [], 0, ZEROED, History(0, 0, false, false, 0, 0))

  datatype Event =
    | Tick(ms: nat)
    | InitReset(lock: int)
    | InitBoot(lock: int, mode: int)
    | Arm
    | CountUp
    | TellConnected(lock: int, mode: int)
    | CountDown
    | TellDisconnected(lock: int, mode: int)
    | Work(lock: int, mode: int)
    | CheckReady
    | Begin(path: Path, lock: int, deviceReady: bool, io: SampleIo)
    | Resume(i: nat, lock: int, io: SampleIo)
    | Fallback(localCo2: nat, localTvoc: nat)

  ghost predicate Enabled(s: Sys, e: Event) {
    match e
    case Tick(_) => true
    case InitReset(_) => s.boot == Cold && !s.armed
    case InitBoot(_, _) => s.boot == Resetting
    case Arm => s.boot != Resetting
    case CountUp => s.armed && s.callback == NoCallback
    case TellConnected(_, _) => s.callback == Connecting
    case CountDown => s.count > 0 && s.callback == NoCallback
    case TellDisconnected(_, _) => s.callback == Disconnecting
    case Work(_, _) => s.d.workDue.Some? && s.clock >= s.d.workDue.value
    case CheckReady => true
    case Begin(path, _, _, _) => path == Update ==> forall r :: r in s.sleepers ==> r.path == Gatt
    case Resume(i, _, _) => i < |s.sleepers| && s.clock >= s.sleepers[i].wakeAt
    case Fallback(_, _) => s.fallbacks > 0
  }

  // ---------------------------------------------------------------- steps

  function Entered(s: Sys, d: Driver): Sys {
    s.(d := d, h := s.h.(entries := s.h.entries + 1, enteredAt := s.clock, cutShort := false, lazily := false))
  }

  /** The readiness check: a completion it is the first to record is a lazy one. */
  function Check(s: Sys): Sys {
    var d := NoteReady(s.d, s.clock);
    s.(d := d, h := s.h.(lazily := s.h.lazily || (d.complete && !s.d.complete)))
  }

  /** What the caller of a finished read does with its result. */
  function Deliver(s: Sys, path: Path, r: ReadResult): Sys {
    match path
    case Update => s.(snap := StoreAir(s.snap, r))
    case Gatt =>
      if r.ret == 0 then s.(snap := StoreBleAir(s.snap, r, 0, 0))
      else if r.ret == EAGAIN || r.ret == ETIME then s.(fallbacks := s.fallbacks + 1)
      else s
  }

  /** The sensor is asked for a sample. */
  function Sampled(s: Sys, io: SampleIo): Sys {
    var (d, r) := Sample(s.d, BOTH, io, s.clock);
    s.(d := d,
       h := s.h.(co2At := if r.co2.Some? then s.clock else s.h.co2At,
                 tvocAt := if r.tvoc.Some? then s.clock else s.h.tvocAt))
  }

  function Fetch(s: Sys, path: Path, io: SampleIo): Sys {
    Deliver(Sampled(s, io), path, Sample(s.d, BOTH, io, s.clock).1)
  }

  /** Reader `i` wakes and clears the wait flag; that cuts the wait short when the flag belongs to
      a later 1 s mode entry than the one the reader waited for. */
  function Woken(s: Sys, i: nat): Sys
    requires i < |s.sleepers|
  {
    s.(d := s.d.(awaiting := false),
       h := s.h.(cutShort := s.h.cutShort || (s.d.awaiting && s.sleepers[i].entry < s.h.entries)),
       sleepers := s.sleepers[..i] + s.sleepers[i + 1..])
  }

  /** A read that has asked for readiness. */
  function AskedStep(s: Sys, path: Path, io: SampleIo): Sys {
    if !s.d.complete || (s.d.idle && !s.d.ble) then Deliver(s, path, Fail(EAGAIN))
    else if s.d.awaiting then s.(sleepers := s.sleepers + [Reader(path, s.clock + IDLE_WAKE_MS, s.h.entries)])
    else Fetch(s, path, io)
  }

  /** Why a read ends before it asks. */
  function Refusal(d: Driver, lock: int): ReadResult {
    if !d.present then Fail(ENODEV) else if lock != 0 then Fail(lock) else Fail(ENODEV)
  }

  function BeginStep(s: Sys, path: Path, lock: int, deviceReady: bool, io: SampleIo): Sys {
    if !s.d.present || lock != 0 || !deviceReady then Deliver(s, path, Refusal(s.d, lock))
    else AskedStep(Check(s), path, io)
  }

  function Step(s: Sys, e: Event): Sys
    requires Enabled(s, e)
  {
    match e
    case Tick(ms) => s.(clock := s.clock + ms)
    case InitReset(lock) =>
      s.(d := Reset(s.d, lock), boot := if lock == 0 then Resetting else Cold)
    case InitBoot(lock, mode) =>
      s.(d := StartBoot(s.d, lock, mode, s.clock), boot := Booted)
    case Arm => s.(armed := true)
    case CountUp => s.(count := s.count + 1, callback := Connecting)
    case TellConnected(lock, mode) =>
      var d := Connected(s.d, lock, mode);
      var s1 := s.(callback := NoCallback);
      if s.d.present && lock == 0 && s.d.complete && mode == 0 then Entered(s1, d) else s1.(d := d)
    case CountDown =>
      s.(count := s.count - 1, callback := if s.count == 1 then Disconnecting else NoCallback)
    case TellDisconnected(lock, mode) =>
      var d := Disconnected(s.d, lock, mode);
      var told := s.d.present && lock == 0;
      s.(d := d, callback := NoCallback,
         h := s.h.(cutShort := s.h.cutShort || (told && s.d.awaiting),
                   lazily := s.h.lazily && !(told && s.d.complete && mode == 0)))
    case Work(lock, mode) =>
      var d := FinishConditioning(s.d, lock, mode);
      if lock == 0 && !s.d.complete && s.d.ble && mode == 0 then Entered(s, d) else s.(d := d)
    case CheckReady => Check(s)
    case Begin(path, lock, deviceReady, io) => BeginStep(s, path, lock, deviceReady, io)
    case Resume(i, lock, io) =>
      var path := s.sleepers[i].path;
      if lock != 0 then Deliver(Woken(s, i), path, Fail(lock)) else Fetch(Woken(s, i), path, io)
    case Fallback(localCo2, localTvoc) =>
      s.(fallbacks := s.fallbacks - 1,
         snap := StoreBleAir(s.snap, ServeBle(s.d, BOTH, Fail(EAGAIN), s.clock), localCo2, localTvoc))
  }

  /** A step leaves the snapshot, and the reads still to fall back, as `Deliver` does with result `r`. */
  predicate Delivered(s: Sys, after: Sys, path: Path, r: ReadResult) {
    after.snap == Deliver(s, path, r).snap && after.fallbacks == Deliver(s, path, r).fallbacks
  }

  /** The machine's reads are the driver's: same driver state, asleep when the driver's read is, and
      the same result delivered. */
  lemma BeginIsTheDrivers(s: Sys, e: Event)
    requires Enabled(s, e) && e.Begin?
    ensures
      var (d, read) := BeginRead(s.d, BOTH, e.lock, e.deviceReady, e.io, s.clock);
      var after := Step(s, e);
      && after.d == d
      && (read.Sleeping? ==>
            after.snap == s.snap && after.fallbacks == s.fallbacks &&
            after.sleepers == s.sleepers + [Reader(e.path, s.clock + IDLE_WAKE_MS, s.h.entries)])
      && (read.Done? ==> after.sleepers == s.sleepers && Delivered(s, after, e.path, read.result))
  {
    if s.d.present && e.lock == 0 && e.deviceReady {
      AskedIsTheDrivers(Check(s), e.path, e.io);
    }
  }

  lemma AskedIsTheDrivers(s: Sys, path: Path, io: SampleIo)
    ensures
      var (d, read) := ReadOnceAsked(s.d, BOTH, io, s.clock);
      var after := AskedStep(s, path, io);
      && after.d == d
      && (read.Sleeping? ==> after == s.(sleepers := s.sleepers + [Reader(path, s.clock + IDLE_WAKE_MS, s.h.entries)]))
      && (read.Done? ==> after.sleepers == s.sleepers && Delivered(s, after, path, read.result))
  {
    FetchIsSample(s, path, io);
  }

  lemma FetchIsSample(s: Sys, path: Path, io: SampleIo)
    ensures
      var (d, r) := Sample(s.d, BOTH, io, s.clock);
      var t := Fetch(s, path, io);
      t.d == d && t.sleepers == s.sleepers && Delivered(s, t, path, r)
  {
  }

  lemma ResumeIsTheDrivers(s: Sys, e: Event)
    requires Enabled(s, e) && e.Resume?
    ensures
      var (d, result) := ResumeRead(s.d, BOTH, e.lock, e.io, s.clock);
      var after := Step(s, e);
      && after.d == d && Delivered(s, after, s.sleepers[e.i].path, result)
      && after.sleepers == s.sleepers[..e.i] + s.sleepers[e.i + 1..]
  {
    if e.lock == 0 {
      FetchIsSample(Woken(s, e.i), s.sleepers[e.i].path, e.io);
    }
  }

  // ---------------------------------------------------------------- runs

  ghost predicate Run(s: Sys, es: seq<Event>)
    decreases |es|
  {
    es == [] || (Enabled(s, es[0]) && Run(Step(s, es[0]), es[1..]))
  }

  ghost function After(s: Sys, es: seq<Event>): Sys
    requires Run(s, es)
    decreases |es|
  {
    if es == [] then s else After(Step(s, es[0]), es[1..])
  }

  // ---------------------------------------------------------------- what every run keeps

  /** The flags say what the sensor was told. */
  ghost predicate ModeInv(d: Driver) {
    && (d.idle <==> d.hwMode == Some(Idle))
    && (d.awaiting ==> d.ble && d.complete && d.hwMode == Some(OneSec))
  }

  ghost predicate BootInv(s: Sys) {
    && (s.boot == Cold ==> s.d == UNBOUND)
    && (s.boot == Resetting ==> s.d.present && !s.armed && !s.d.complete && s.d.initTime == 0 && s.d.workDue.None? && s.d.hwMode.None?)
    && (s.boot == Booted ==> s.d.present)
    && (!s.armed ==> s.count == 0 && s.callback == NoCallback && !s.d.ble)
    && (s.callback == Connecting ==> s.count > 0)
    && (s.callback == Disconnecting ==> s.count == 0)
  }

  ghost predicate ClockInv(s: Sys) {
    && 0 <= s.d.initTime <= s.clock
    && (s.d.complete ==> s.clock - s.d.initTime >= CONDITIONING_MS)
    && s.d.lastSample <= s.clock
    && (s.d.workDue.Some? ==> s.d.workDue.value >= s.d.initTime + CONDITIONING_MS)
  }

  ghost predicate CacheInv(s: Sys) {
    && (s.d.cachedCo2 == 0 || Eco2Ok(s.d.cachedCo2))
    && TvocOk(s.d.cachedTvoc)
    && (s.d.firstSample ==> s.d.complete && s.d.cachedCo2 > 0)
    && (s.d.firstSample ==> s.d.lastSample <= s.h.co2At && s.d.lastSample <= s.h.tvocAt)
    && AirOk(s.snap)
    && (AirQuality in s.snap.valid ==> s.d.complete)
    && (s.sleepers != [] ==> s.d.complete)
  }

  /** In 1 s mode with the wait flag down, the full wait has passed since the mode was entered,
      unless the wait was cut short; and then the flag is down. */
  ghost predicate WakeInv(s: Sys) {
    && s.h.enteredAt <= s.clock
    && (s.d.hwMode == Some(OneSec) ==> s.h.entries > 0 && s.d.complete)
    && (s.h.cutShort ==> !s.d.awaiting)
    && (forall r :: r in s.sleepers ==> r.entry <= s.h.entries)
    && (forall r :: r in s.sleepers && r.entry == s.h.entries ==> r.wakeAt >= s.h.enteredAt + IDLE_WAKE_MS)
    && (s.d.hwMode == Some(OneSec) && !s.d.awaiting && !s.h.cutShort ==> s.clock >= s.h.enteredAt + IDLE_WAKE_MS)
  }

  ghost predicate Inv(s: Sys) {
    ModeInv(s.d) && BootInv(s) && ClockInv(s) && CacheInv(s) && WakeInv(s)
  }

  lemma CheckKeepsInv(s: Sys)
    requires Inv(s)
    ensures Inv(Check(s)) && (s.d.complete ==> Check(s).d.complete)
  {
  }

  lemma DeliverKeepsInv(s: Sys, path: Path, r: ReadResult)
    requires Inv(s) && (r.ret == 0 ==> s.d.complete)
    ensures Inv(Deliver(s, path, r))
  {
  }

  lemma SampledKeepsInv(s: Sys, io: SampleIo)
    requires Inv(s) && s.d.complete
    ensures Inv(Sampled(s, io)) && Sampled(s, io).d.complete
  {
    SampleCachesWhatItWrites(s.d, BOTH, io, s.clock);
  }

  lemma FetchKeepsInv(s: Sys, path: Path, io: SampleIo)
    requires Inv(s) && s.d.complete
    ensures Inv(Fetch(s, path, io)) && Fetch(s, path, io).d.complete
  {
    SampledKeepsInv(s, io);
    DeliverKeepsInv(Sampled(s, io), path, Sample(s.d, BOTH, io, s.clock).1);
  }

  lemma WakeKeepsInv(s: Sys, i: nat)
    requires Inv(s) && i < |s.sleepers| && s.clock >= s.sleepers[i].wakeAt
    ensures Inv(Woken(s, i))
  {
    assert s.sleepers[i] in s.sleepers;
    assert forall r :: r in Woken(s, i).sleepers ==> r in s.sleepers;
  }

  lemma AskedKeepsInv(s: Sys, path: Path, io: SampleIo)
    requires Inv(s)
    ensures Inv(AskedStep(s, path, io)) && (s.d.complete ==> AskedStep(s, path, io).d.complete)
  {
    if !s.d.complete || (s.d.idle && !s.d.ble) {
      DeliverKeepsInv(s, path, Fail(EAGAIN));
    } else if !s.d.awaiting {
      FetchKeepsInv(s, path, io);
    }
  }

  lemma BeginKeepsInv(s: Sys, e: Event)
    requires Inv(s) && Enabled(s, e) && e.Begin?
    ensures Inv(Step(s, e)) && (s.d.complete ==> Step(s, e).d.complete)
  {
    if !s.d.present || e.lock != 0 || !e.deviceReady {
      DeliverKeepsInv(s, e.path, Refusal(s.d, e.lock));
    } else {
      CheckKeepsInv(s);
      AskedKeepsInv(Check(s), e.path, e.io);
    }
  }

  lemma ResumeKeepsInv(s: Sys, e: Event)
    requires Inv(s) && Enabled(s, e) && e.Resume?
    ensures Inv(Step(s, e)) && (s.d.complete ==> Step(s, e).d.complete)
  {
    var path := s.sleepers[e.i].path;
    WakeKeepsInv(s, e.i);
    assert s.sleepers != [];
    if e.lock != 0 {
      DeliverKeepsInv(Woken(s, e.i), path, Fail(e.lock));
    } else {
      FetchKeepsInv(Woken(s, e.i), path, e.io);
    }
  }

  lemma InitKeepsInv(s: Sys, e: Event)
    requires Inv(s) && Enabled(s, e) && (e.InitReset? || e.InitBoot? || e.Arm? || e.Tick?)
    ensures Inv(Step(s, e)) && (s.d.complete ==> Step(s, e).d.complete)
  {
  }

  lemma ConnectKeepsInv(s: Sys, e: Event)
    requires Inv(s) && Enabled(s, e) && (e.CountUp? || e.TellConnected?)
    ensures Inv(Step(s, e)) && (s.d.complete ==> Step(s, e).d.complete)
  {
  }

  lemma DisconnectKeepsInv(s: Sys, e: Event)
    requires Inv(s) && Enabled(s, e) && (e.CountDown? || e.TellDisconnected?)
    ensures Inv(Step(s, e)) && (s.d.complete ==> Step(s, e).d.complete)
  {
  }

  lemma WorkKeepsInv(s: Sys, e: Event)
    requires Inv(s) && Enabled(s, e) && e.Work?
    ensures Inv(Step(s, e)) && (s.d.complete ==> Step(s, e).d.complete)
  {
  }

  lemma FallbackKeepsInv(s: Sys, e: Event)
    requires Inv(s) && Enabled(s, e) && e.Fallback?
    ensures Inv(Step(s, e)) && (s.d.complete ==> Step(s, e).d.complete)
  {
  }

  lemma StepKeepsInv(s: Sys, e: Event)
    requires Inv(s) && Enabled(s, e)
    ensures Inv(Step(s, e))
    ensures s.d.complete ==> Step(s, e).d.complete
  {
    match e
    case InitReset(_) | InitBoot(_, _) | Arm | Tick(_) => InitKeepsInv(s, e);
    case CountUp | TellConnected(_, _) => ConnectKeepsInv(s, e);
    case CountDown | TellDisconnected(_, _) => DisconnectKeepsInv(s, e);
    case Work(_, _) => WorkKeepsInv(s, e);
    case CheckReady => CheckKeepsInv(s);
    case Begin(_, _, _, _) => BeginKeepsInv(s, e);
    case Resume(_, _, _) => ResumeKeepsInv(s, e);
    case Fallback(_, _) => FallbackKeepsInv(s, e);
  }

  /** Over every run from power-on, whatever fails and however the steps interleave. */
  lemma {:induction false} RunKeepsInv(s: Sys, es: seq<Event>)
    requires Inv(s) && Run(s, es)
    ensures Inv(After(s, es))
    ensures s.d.complete ==> After(s, es).d.complete
    decreases |es|
  {
    if es != [] {
      StepKeepsInv(s, es[0]);
      RunKeepsInv(Step(s, es[0]), es[1..]);
    }
  }

  lemma {:induction false} RunAppend(s: Sys, es: seq<Event>, e: Event)
    requires Run(s, es) && Enabled(After(s, es), e)
    ensures Run(s, es + [e]) && After(s, es + [e]) == Step(After(s, es), e)
    decreases |es|
  {
    if es == [] {
      assert Run(Step(s, e), []);
    } else {
      RunAppend(Step(s, es[0]), es[1..], e);
      assert (es + [e])[1..] == es[1..] + [e];
    }
  }

  // ---------------------------------------------------------------- theorems about every run

  /** The idle flag is up exactly when the last accepted mode change was to IDLE, and the wait
      flag is only ever up for a connected client of a conditioned sensor in 1 s mode. */
  lemma FlagsMatchSensor(es: seq<Event>)
    requires Run(START, es)
    ensures
      var d := After(START, es).d;
      && (d.idle <==> d.hwMode == Some(Idle))
      && (d.awaiting ==> d.ble && d.complete && d.hwMode == Some(OneSec))
  {
    RunKeepsInv(START, es);
  }

  lemma CompletionIsFinal(es: seq<Event>, more: seq<Event>)
    requires Run(START, es) && Run(After(START, es), more)
    requires After(START, es).d.complete
    ensures After(After(START, es), more).d.complete
  {
    RunKeepsInv(START, es);
    RunKeepsInv(After(START, es), more);
  }

  /** After initialization, whichever path recorded the completion, readiness is the statement that 20
      minutes have passed since the recorded start, exactly unless no start is recorded, nor the
      completion, and the 20 minutes are over; and no time remains exactly when ready, unless neither
      a start nor the completion is recorded. */
  lemma ReadinessIsTheClock(es: seq<Event>)
    requires Run(START, es) && After(START, es).boot == Booted
    ensures
      var s := After(START, es);
      && ((Ready(s.d, s.clock) <==> s.clock - s.d.initTime >= 1_200_000)
          <==> s.d.initTime != 0 || s.d.complete || s.clock < 1_200_000)
      && ((Remaining(s.d, s.clock) == 0 <==> Ready(s.d, s.clock)) <==> s.d.initTime != 0 || s.d.complete)
  {
    RunKeepsInv(START, es);
    RemainingZeroIffReady(After(START, es).d, After(START, es).clock);
  }

  /** A valid air-quality reading means the sensor is conditioned and both values are in range. */
  lemma ValidAirMeansConditioned(es: seq<Event>)
    requires Run(START, es)
    ensures
      var s := After(START, es);
      AirQuality in s.snap.valid ==> s.d.complete && 400 <= s.snap.eco2 <= 8192 && s.snap.tvoc <= 1187
  {
    RunKeepsInv(START, es);
  }

  /** Once there is a first sample, whatever the fallback hands out is in the sensor's range and
      was measured in the last five minutes. */
  lemma FallbackIsRecent(es: seq<Event>, ret: int)
    requires Run(START, es) && ret != 0
    ensures
      var s := After(START, es);
      var r := ServeBle(s.d, BOTH, Fail(ret), s.clock);
      && (s.d.firstSample ==> Eco2Ok(s.d.cachedCo2) && TvocOk(s.d.cachedTvoc))
      && (r.co2.Some? ==> r.co2 == Some(s.d.cachedCo2) && Eco2Ok(r.co2.value) && s.clock - s.h.co2At <= 300_000)
      && (r.tvoc.Some? ==> r.tvoc == Some(s.d.cachedTvoc) && TvocOk(r.tvoc.value) && s.clock - s.h.tvocAt <= 300_000)
  {
    RunKeepsInv(START, es);
  }

  // ---------------------------------------------------------------- the wake-up wait

  /** The state in which event `e` asks the sensor for a sample, if it does. */
  function AtFetch(s: Sys, e: Event): Option<Sys>
    requires Enabled(s, e)
  {
    match e
    case Begin(_, lock, deviceReady, _) =>
      var s1 := Check(s);
      if s.d.present && lock == 0 && deviceReady && s1.d.complete && !(s1.d.idle && !s1.d.ble) && !s1.d.awaiting
      then Some(s1) else None
    case Resume(i, lock, _) => if lock == 0 then Some(Woken(s, i)) else None
    case _ => None
  }

  /** The same event with another answer of the sensor. */
  function With(e: Event, io: SampleIo): Event {
    match e
    case Begin(path, lock, deviceReady, _) => Begin(path, lock, deviceReady, io)
    case Resume(i, lock, _) => Resume(i, lock, io)
    case _ => e
  }

  /** The event asks the sensor: what it does depends on the sensor's answer. */
  ghost predicate AsksSensor(s: Sys, e: Event) {
    exists a, b :: Enabled(s, With(e, a)) && Enabled(s, With(e, b)) && Step(s, With(e, a)) != Step(s, With(e, b))
  }

  const GOOD_SAMPLE := SampleIo(0, Some(Status(true, false)), Channel(0, 600), Channel(0, 42))
  const OTHER_SAMPLE := SampleIo(0, Some(Status(true, false)), Channel(0, 601), Channel(0, 42))

  lemma FetchDepends(s: Sys, path: Path)
    ensures Fetch(s, path, GOOD_SAMPLE) != Fetch(s, path, OTHER_SAMPLE)
  {
    assert Fetch(s, path, GOOD_SAMPLE).d.cachedCo2 == 600 && Fetch(s, path, OTHER_SAMPLE).d.cachedCo2 == 601;
  }

  /** `AtFetch` says when and where a step asks the sensor: without it the answer plays no role, with
      it the step is the fetch made there. */
  lemma AsksSensorIff(s: Sys, e: Event)
    requires Enabled(s, e)
    ensures AsksSensor(s, e) <==> AtFetch(s, e).Some?
    ensures AtFetch(s, e).Some? ==> Step(s, e) == Fetch(AtFetch(s, e).value, PathOf(s, e), e.io)
  {
    if AtFetch(s, e).Some? {
      FetchDepends(AtFetch(s, e).value, PathOf(s, e));
      var a, b := With(e, GOOD_SAMPLE), With(e, OTHER_SAMPLE);
      assert Step(s, a) == Fetch(AtFetch(s, e).value, PathOf(s, e), GOOD_SAMPLE);
      assert Step(s, b) == Fetch(AtFetch(s, e).value, PathOf(s, e), OTHER_SAMPLE);
      assert Enabled(s, a) && Enabled(s, b);
    } else {
      forall io | Enabled(s, With(e, io)) ensures Step(s, With(e, io)) == Step(s, e) {
      }
    }
  }

  /** Who the read of the event is for. */
  function PathOf(s: Sys, e: Event): Path
    requires Enabled(s, e)
  {
    match e
    case Begin(path, _, _, _) => path
    case Resume(i, _, _) => s.sleepers[i].path
    case _ => Gatt
  }

  /** A read that meets the wait flag sleeps 1500 ms, whatever the sensor would have answered. */
  lemma WaitingReadSleeps(s: Sys, path: Path, io: SampleIo)
    requires Inv(s) && s.d.awaiting && Enabled(s, Begin(path, 0, true, io))
    ensures Step(s, Begin(path, 0, true, io)) == s.(sleepers := s.sleepers + [Reader(path, s.clock + 1500, s.h.entries)])
    ensures !AsksSensor(s, Begin(path, 0, true, io))
  {
    AsksSensorIff(s, Begin(path, 0, true, io));
  }

  /** A good answer in range is stored, cached and timestamped at once, whoever asked. */
  lemma GoodAnswerIsStored(s: Sys, e: Event)
    requires Enabled(s, e) && AsksSensor(s, e) && (e.Begin? || e.Resume?)
    requires e.io.fetch == 0 && e.io.status == Some(Status(true, false)) && e.io.co2.ret == 0 && e.io.tvoc.ret == 0
    requires 400 <= e.io.co2.val <= 8192 && 0 <= e.io.tvoc.val <= 1187
    ensures
      var t := Step(s, e);
      && t.snap.eco2 == e.io.co2.val && t.snap.tvoc == e.io.tvoc.val && AirQuality in t.snap.valid
      && t.d.cachedCo2 == e.io.co2.val && t.d.cachedTvoc == e.io.tvoc.val
      && t.d.firstSample && t.d.lastSample == s.clock
  {
    AsksSensorIff(s, e);
  }

  /** A failed update clears the air-quality flag and keeps the values; a failed GATT read keeps all of
      the snapshot, and goes on to the fallback exactly for EAGAIN and ETIME. */
  lemma FailureIsDelivered(s: Sys, path: Path, r: ReadResult)
    requires r.ret != 0
    ensures path == Update ==> Deliver(s, path, r) == s.(snap := s.snap.(valid := s.snap.valid - {AirQuality}))
    ensures path == Gatt && (r.ret == -11 || r.ret == -62) ==> Deliver(s, path, r) == s.(fallbacks := s.fallbacks + 1)
    ensures path == Gatt && r.ret != -11 && r.ret != -62 ==> Deliver(s, path, r) == s
  {
  }

  /** The first 1500 ms after entering 1 s mode. */
  ghost predicate InWindow(s: Sys) {
    s.d.hwMode == Some(OneSec) && s.clock < s.h.enteredAt + 1500
  }

  ghost predicate CanSample(s: Sys) {
    exists e :: Enabled(s, e) && AsksSensor(s, e)
  }

  /** A reader of an earlier 1 s mode entry has slept long enough. */
  ghost predicate EarlierReaderDue(s: Sys) {
    exists r :: r in s.sleepers && r.entry < s.h.entries && s.clock >= r.wakeAt
  }

  /** In the first 1500 ms of 1 s mode a sample can be asked for exactly when the wait flag is down
      or a reader that waits for an earlier entry is due. The flag is down exactly when a disconnect
      or such a reader took it down since the entry. */
  lemma FirstSampleWaits(es: seq<Event>)
    requires Run(START, es) && InWindow(After(START, es))
    ensures
      var s := After(START, es);
      && (CanSample(s) <==> !s.d.awaiting || EarlierReaderDue(s))
      && (!s.d.awaiting <==> s.h.cutShort)
  {
    RunKeepsInv(START, es);
    var s := After(START, es);
    if !s.d.awaiting {
      var e := Begin(Gatt, 0, true, GOOD_SAMPLE);
      AsksSensorIff(s, e);
    } else if EarlierReaderDue(s) {
      var r :| r in s.sleepers && r.entry < s.h.entries && s.clock >= r.wakeAt;
      var i :| 0 <= i < |s.sleepers| && s.sleepers[i] == r;
      var e := Resume(i, 0, GOOD_SAMPLE);
      AsksSensorIff(s, e);
    }
    if CanSample(s) {
      var e :| Enabled(s, e) && AsksSensor(s, e);
      AsksSensorIff(s, e);
      EarlyFetchNeedsFlagDownOrReader(s, e);
    }
  }

  lemma EarlyFetchNeedsFlagDownOrReader(s: Sys, e: Event)
    requires Inv(s) && InWindow(s) && Enabled(s, e) && AtFetch(s, e).Some?
    ensures !s.d.awaiting || EarlierReaderDue(s)
  {
    if e.Resume? {
      assert s.sleepers[e.i] in s.sleepers;
    }
  }

  /** So a sample asked for inside the window always finds the wait cut short. */
  lemma EarlySampleWasCutShort(es: seq<Event>, e: Event)
    requires Run(START, es) && Enabled(After(START, es), e)
    requires AsksSensor(After(START, es), e) && InWindow(After(START, es))
    ensures Step(After(START, es), e).h.cutShort
  {
    RunKeepsInv(START, es);
    var s := After(START, es);
    AsksSensorIff(s, e);
    EarlyFetchWasCutShort(s, e);
    FetchKeepsHistory(AtFetch(s, e).value, PathOf(s, e), e.io);
  }

  lemma EarlyFetchWasCutShort(s: Sys, e: Event)
    requires Inv(s) && InWindow(s) && Enabled(s, e) && AtFetch(s, e).Some?
    ensures AtFetch(s, e).value.h.cutShort
  {
    if e.Begin? {
      CheckKeepsInv(s);
    } else if e.Resume? {
      WakeKeepsInv(s, e.i);
    }
  }

  lemma FetchKeepsHistory(s: Sys, path: Path, io: SampleIo)
    ensures Fetch(s, path, io).h.cutShort == s.h.cutShort
  {
  }

  /** A client has just connected to a conditioned sensor, and an update sleeps. */
  lemma ReaderAsleep() returns (es: seq<Event>)
    ensures Run(START, es)
    ensures
      var s := After(START, es);
      && s.d == UNBOUND.(present := true, complete := true, ble := true, awaiting := true, hwMode := Some(OneSec))
      && s.callback == NoCallback && s.count == 1 && s.armed
      && s.sleepers == [Reader(Update, s.clock + IDLE_WAKE_MS, s.h.entries)]
  {
    es := ConditionedAndArmed();
    es := Extend(es, CountUp);
    es := Extend(es, TellConnected(0, 0));
    es := Extend(es, Begin(Update, 0, true, GOOD_SAMPLE));
  }

  /** A disconnect and reconnect during the sleep of a read does shorten the wait: the sample is
      asked for 100 ms after the sensor entered 1 s mode. */
  lemma ReconnectShortensWait() returns (es: seq<Event>, e: Event)
    ensures Run(START, es) && Enabled(After(START, es), e)
    ensures
      var at := AtFetch(After(START, es), e);
      at.Some? && AsksSensor(After(START, es), e)
      && at.value.d.hwMode == Some(OneSec) && at.value.clock == at.value.h.enteredAt + 100
  {
    es := ReaderAsleep();
    es := Extend(es, Tick(1400));
    es := Extend(es, CountDown);
    es := Extend(es, TellDisconnected(0, 0));
    es := Extend(es, CountUp);
    es := Extend(es, TellConnected(0, 0));
    es := Extend(es, Tick(100));
    e := Resume(0, 0, GOOD_SAMPLE);
    AsksSensorIff(After(START, es), e);
  }

  lemma Extend(es: seq<Event>, e: Event) returns (longer: seq<Event>)
    requires Run(START, es) && Enabled(After(START, es), e)
    ensures longer == es + [e]
    ensures Run(START, longer) && After(START, longer) == Step(After(START, es), e)
  {
    RunAppend(START, es, e);
    longer := es + [e];
  }

  /** A run in which everything succeeds up to the end of conditioning. */
  lemma ConditionedAndArmed() returns (es: seq<Event>)
    ensures Run(START, es)
    ensures After(START, es) ==
      START.(d := UNBOUND.(present := true, complete := true, idle := true, hwMode := Some(Idle)),
             clock := CONDITIONING_MS, boot := Booted, armed := true)
  {
    es := [];
    es := Extend(es, InitReset(0));
    es := Extend(es, InitBoot(0, 0));
    es := Extend(es, Arm);
    es := Extend(es, Tick(CONDITIONING_MS));
    es := Extend(es, Work(0, 0));
  }

  /** Initialization went through without its second lock: nothing is scheduled and no start time is
      recorded. */
  ghost predicate Unstarted(s: Sys) {
    s.boot == Booted && !s.d.complete && s.d.initTime == 0 && s.d.workDue.None? && s.sleepers == []
  }

  lemma StepStaysUnstarted(s: Sys, e: Event)
    requires Unstarted(s) && Enabled(s, e)
    ensures Unstarted(Step(s, e))
  {
  }

  /** From there no run is ever ready, and the remaining time shows 0 all along. */
  lemma {:induction false} UnstartedIsNeverReady(s: Sys, es: seq<Event>)
    requires Unstarted(s) && Run(s, es)
    ensures
      var t := After(s, es);
      Unstarted(t) && !Ready(t.d, t.clock) && Remaining(t.d, t.clock) == 0
    decreases |es|
  {
    if es != [] {
      StepStaysUnstarted(s, es[0]);
      UnstartedIsNeverReady(Step(s, es[0]), es[1..]);
    }
  }

  /** The firmware gets there: 500 ms after power-on the second lock of initialization is refused,
      which initialization only logs. However long it then runs, the sensor is never ready. */
  lemma RefusedBootIsNeverReady(more: seq<Event>) returns (es: seq<Event>)
    ensures Run(START, es) && es == [Tick(500), InitReset(0), InitBoot(EAGAIN, 0)]
    ensures
      var s := After(START, es);
      Run(s, more) ==>
        var t := After(s, more);
        !Ready(t.d, t.clock) && Remaining(t.d, t.clock) == 0
  {
    es := [];
    es := Extend(es, Tick(500));
    es := Extend(es, InitReset(0));
    es := Extend(es, InitBoot(EAGAIN, 0));
    var s := After(START, es);
    if Run(s, more) {
      UnstartedIsNeverReady(s, more);
    }
  }

  // ---------------------------------------------------------------- mode follows clients

  /** Locks taken for mode changes are had, and the sensor accepts the changes. */
  predicate Succeeds(e: Event) {
    match e
    case InitReset(lock) => lock == 0
    case InitBoot(lock, mode) => lock == 0 && mode == 0
    case TellConnected(lock, mode) => lock == 0 && mode == 0
    case TellDisconnected(lock, mode) => lock == 0 && mode == 0
    case Work(lock, mode) => lock == 0 && mode == 0
    case _ => true
  }

  function Expected(s: Sys): Option<Mode> { Some(if s.count > 0 then OneSec else Idle) }

  ghost predicate FollowInv(s: Sys) {
    && (s.h.lazily ==> s.d.complete)
    && (s.boot == Booted ==>
          && (s.callback == NoCallback ==> (s.d.ble <==> s.count > 0))
          && (s.callback == Connecting ==> (s.d.ble <==> s.count > 1))
          && (s.callback == Disconnecting ==> s.d.ble)
          && s.d.hwMode == Some(if !s.d.complete || s.h.lazily then TenSec else if s.d.ble then OneSec else Idle))
  }

  /** A fetch changes nothing the mode depends on. */
  lemma FetchFrame(s: Sys, path: Path, io: SampleIo)
    ensures
      var t := Fetch(s, path, io);
      && t.d.ble == s.d.ble && t.d.complete == s.d.complete && t.d.hwMode == s.d.hwMode
      && t.boot == s.boot && t.count == s.count && t.callback == s.callback && t.h.lazily == s.h.lazily
  {
  }

  lemma AskedKeepsFollow(s: Sys, path: Path, io: SampleIo)
    requires FollowInv(s)
    ensures FollowInv(AskedStep(s, path, io))
  {
    FetchFrame(s, path, io);
  }

  lemma BeginKeepsFollow(s: Sys, path: Path, lock: int, deviceReady: bool, io: SampleIo)
    requires FollowInv(s)
    ensures FollowInv(BeginStep(s, path, lock, deviceReady, io))
  {
    CheckKeepsFollow(s);
    AskedKeepsFollow(Check(s), path, io);
  }

  lemma CheckKeepsFollow(s: Sys)
    requires FollowInv(s)
    ensures FollowInv(Check(s))
  {
  }

  lemma ResumeKeepsFollow(s: Sys, e: Event)
    requires FollowInv(s) && Enabled(s, e) && e.Resume?
    ensures FollowInv(Step(s, e))
  {
    FetchFrame(Woken(s, e.i), s.sleepers[e.i].path, e.io);
  }

  lemma BootKeepsFollow(s: Sys, e: Event)
    requires Inv(s) && FollowInv(s) && Enabled(s, e) && Succeeds(e) && (e.InitReset? || e.InitBoot? || e.Arm? || e.Work?)
    ensures FollowInv(Step(s, e))
  {
  }

  lemma ClientsKeepFollow(s: Sys, e: Event)
    requires Inv(s) && FollowInv(s) && Enabled(s, e) && Succeeds(e)
    requires e.CountUp? || e.TellConnected? || e.CountDown? || e.TellDisconnected?
    ensures FollowInv(Step(s, e))
  {
  }

  lemma StepKeepsFollow(s: Sys, e: Event)
    requires Inv(s) && FollowInv(s) && Enabled(s, e) && Succeeds(e)
    ensures FollowInv(Step(s, e))
  {
    match e
    case InitReset(_) | InitBoot(_, _) | Arm | Work(_, _) => BootKeepsFollow(s, e);
    case CountUp | TellConnected(_, _) | CountDown | TellDisconnected(_, _) => ClientsKeepFollow(s, e);
    case Begin(path, lock, deviceReady, io) => BeginKeepsFollow(s, path, lock, deviceReady, io);
    case Resume(_, _, _) => ResumeKeepsFollow(s, e);
    case Tick(_) | CheckReady | Fallback(_, _) =>
  }

  lemma {:induction false} RunKeepsFollow(s: Sys, es: seq<Event>)
    requires Inv(s) && FollowInv(s) && Run(s, es) && forall e :: e in es ==> Succeeds(e)
    ensures FollowInv(After(s, es))
    decreases |es|
  {
    if es != [] {
      StepKeepsInv(s, es[0]);
      StepKeepsFollow(s, es[0]);
      RunKeepsFollow(Step(s, es[0]), es[1..]);
    }
  }

  /** Between callbacks of a conditioned sensor, when locks and mode changes succeed: 1 s mode means
      there is a client, IDLE means there is none, and the mode is the one the clients call for
      unless a readiness check recorded the completion and no mode change has followed. */
  lemma ModeFollowsClients(es: seq<Event>)
    requires Run(START, es) && forall e :: e in es ==> Succeeds(e)
    ensures
      var s := After(START, es);
      s.callback == NoCallback && s.d.complete ==>
        && (s.d.hwMode == Some(OneSec) ==> s.count > 0)
        && (s.d.hwMode == Some(Idle) ==> s.count == 0)
        && (s.d.hwMode == Expected(s) <==> !s.h.lazily)
  {
    RunKeepsInv(START, es);
    RunKeepsFollow(START, es);
  }

  /** The events that ask for readiness: the check itself, and a read that gets as far as asking. */
  predicate AsksReadiness(s: Sys, e: Event) {
    e.CheckReady? || (e.Begin? && s.d.present && e.lock == 0 && e.deviceReady)
  }

  /** No readiness check is the first to see the end of conditioning. */
  ghost predicate HandlerFirst(s: Sys, es: seq<Event>)
    requires Run(s, es)
    decreases |es|
  {
    es == [] ||
    ((AsksReadiness(s, es[0]) && Ready(s.d, s.clock) ==> s.d.complete) && HandlerFirst(Step(s, es[0]), es[1..]))
  }

  lemma {:induction false} HandlerFirstIsNotLazy(s: Sys, es: seq<Event>)
    requires Run(s, es) && HandlerFirst(s, es) && !s.h.lazily
    ensures !After(s, es).h.lazily
    decreases |es|
  {
    if es != [] {
      HandlerFirstIsNotLazy(Step(s, es[0]), es[1..]);
    }
  }

  /** If moreover the work handler is always first, the mode is 1 s exactly while there is a client
      and IDLE exactly while there is none. */
  lemma HandlerFirstModeFollowsClients(es: seq<Event>)
    requires Run(START, es) && HandlerFirst(START, es) && forall e :: e in es ==> Succeeds(e)
    ensures
      var s := After(START, es);
      s.callback == NoCallback && s.d.complete ==>
        (s.d.hwMode == Some(OneSec) <==> s.count > 0) && (s.d.hwMode == Some(Idle) <==> s.count == 0)
  {
    ModeFollowsClients(es);
    HandlerFirstIsNotLazy(START, es);
  }

  /** The condition is needed: a readiness check just before the handler leaves an unconnected,
      conditioned sensor in 10 s mode, although nothing failed. */
  lemma EarlyCheckLeavesTenSecondMode() returns (es: seq<Event>)
    ensures Run(START, es) && forall e :: e in es ==> Succeeds(e)
    ensures
      var s := After(START, es);
      s.callback == NoCallback && s.d.complete && s.count == 0 && s.d.hwMode == Some(TenSec) && s.d.workDue.None?
  {
    es := [];
    es := Extend(es, InitReset(0));
    es := Extend(es, Tick(1));
    es := Extend(es, InitBoot(0, 0));
    es := Extend(es, Tick(CONDITIONING_MS));
    es := Extend(es, CheckReady);
    es := Extend(es, Work(0, 0));
  }

  /** Success is needed too: a refused IDLE change leaves 1 s mode on with no client. */
  lemma RefusedIdleKeepsOneSecondMode() returns (es: seq<Event>)
    ensures Run(START, es)
    ensures
      var s := After(START, es);
      s.callback == NoCallback && s.count == 0 && s.d.hwMode == Some(OneSec)
  {
    es := ConditionedAndArmed();
    es := Extend(es, CountUp);
    es := Extend(es, TellConnected(0, 0));
    es := Extend(es, CountDown);
    es := Extend(es, TellDisconnected(0, EIO));
  }
}
