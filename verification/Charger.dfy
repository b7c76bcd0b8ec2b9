/** The charging path over time: debounce, polling, connections and updates as one machine, and the
    imperative path with its mutually recursive methods. */
module Charger {
  import opened Common
  import opened Battery

  /** `connected` says the edge interrupt is on, `due` is the instant the debounce work may run,
      `lastEdge` is the last edge interrupt. */
  datatype Charger = Charger(path: Path, clock: int, connected: bool, due: Option<int>, lastEdge: int)

  /** Each event brings the foreign results it meets. */
  datatype Event =
    | Tick(ms: nat)
    | AddInterrupt
    | HwInit(w: World)
    | BasInit
    | Edge
    | Debounce(w: World)
    | Query(w: World)
    | Connect(w: World)
    | Disconnect
    | Poll(w: World)
    | Manual(level: nat, charging: bool, w: World)

  function StartHardware(p: Path): Path {
    var (w, now) := NextPin(p.world);
    GetLevel(Path(p.hw.(ready := true, lastCharging := now), p.bas, w)).0
  }

  /** The debounce work: `IsCharging` without its guard and its answer. */
  function DebounceWork(p: Path): Path {
    var (w, now) := NextPin(p.world);
    if now == p.hw.lastCharging then p.(world := w)
    else if p.hw.registered then ChargingChanged(Called(p), now)
    else Path(p.hw.(lastCharging := now), p.bas, w)
  }

  function ClientConnected(p: Path): Path {
    if !p.bas.initialized then p else BasUpdate(p.(bas := p.bas.(count := p.bas.count + 1))).0
  }

  function ClientDisconnected(p: Path): Path {
    if p.bas.count == 0 then p else p.(bas := p.bas.(count := p.bas.count - 1))
  }

  function PollWork(p: Path): Path {
    if !p.bas.initialized || p.bas.count == 0 then p else BasUpdate(p).0
  }

  ghost predicate Enabled(s: Charger, e: Event) {
    match e
    case AddInterrupt => !s.connected
    case HwInit(w) => s.connected && !s.path.hw.ready && WorldOk(w)
    case Edge => s.connected
    case Debounce(w) => s.path.hw.ready && s.due.Some? && s.clock >= s.due.value && WorldOk(w)
    case Query(w) => WorldOk(w)
    case Connect(w) => WorldOk(w)
    case Poll(w) => WorldOk(w)
    case Manual(_, _, w) => WorldOk(w)
    case _ => true
  }

  function Step(s: Charger, e: Event): Charger {
    match e
    case Tick(ms) => s.(clock := s.clock + ms)
    case AddInterrupt => s.(connected := true)
    case HwInit(w) => s.(path := StartHardware(s.path.(world := w)), due := None)
    case BasInit => s.(path := s.path.(hw := s.path.hw.(registered := true), bas := s.path.bas.(initialized := true)))
    case Edge => s.(due := Some(s.clock + DEBOUNCE_MS), lastEdge := s.clock)
    case Debounce(w) => s.(due := None, path := DebounceWork(s.path.(world := w)))
    case Query(w) => s.(path := IsCharging(s.path.(world := w)).0)
    case Connect(w) => s.(path := ClientConnected(s.path.(world := w)))
    case Disconnect => s.(path := ClientDisconnected(s.path))
    case Poll(w) => s.(path := PollWork(s.path.(world := w)))
    case Manual(level, charging, w) => s.(path := UpdateManual(s.path.(world := w), level, charging).0)
  }

  ghost predicate Run(s: Charger, es: seq<Event>)
    decreases |es|
  {
    es == [] || (Enabled(s, es[0]) && Run(Step(s, es[0]), es[1..]))
  }

  function After(s: Charger, es: seq<Event>): Charger
    decreases |es|
  {
    if es == [] then s else After(Step(s, es[0]), es[1..])
  }

  function Start(w: World): Charger { Charger(PowerOn(w), 0, false, None, 0) }

  ghost predicate Inv(s: Charger) {
    && PathOk(s.path)
    && (!s.path.hw.ready ==> s.path.hw.calls == [])
    && (s.due.Some? ==> s.due.value >= s.lastEdge + DEBOUNCE_MS)
  }

  /** For initialized hardware the debounce work does what a poll does. */
  lemma DebounceIsQuery(p: Path)
    requires p.hw.ready
    ensures DebounceWork(p) == IsCharging(p).0
  {
  }

  /** Initialization takes the pin's state as it is, without telling anyone, and a first reading. */
  lemma StartHardwareMeans(p: Path)
    ensures
      var q := StartHardware(p);
      && q.hw.ready && q.hw.lastCharging == NextPin(p.world).1 && q.hw.calls == p.hw.calls && q.bas == p.bas
      && (q.hw.hasReading <==> p.hw.hasReading || NextAdc(p.world).1.Millivolts?)
  {
  }

  /** With a client and hardware that answers, a poll leaves the measured level and the pin's state, whether
      or not it can be written. */
  lemma PollMeasures(p: Path, mv: nat)
    requires PathOk(p) && Settled(p) && p.bas.initialized && p.bas.count > 0 && NextAdc(p.world).1 == Millivolts(mv)
    ensures PollWork(p).bas.level == VoltageToPercentage(mv) && PollWork(p).bas.charging == p.world.pin
  {
    SettledUpdate(p);
    GetLevelOk(p);
    GetLevelMeans(p);
    UpdateManualMeans(GetLevel(p).0, VoltageToPercentage(mv), p.world.pin);
  }

  /** Without a client, or before initialization, a poll does nothing. */
  lemma PollWithoutClient(p: Path)
    requires !p.bas.initialized || p.bas.count == 0
    ensures PollWork(p) == p && forall now :: ChargingChanged(p, now) == p
  {
  }

  /** A connect counts and reads the battery. */
  lemma ConnectMeasures(p: Path, mv: nat)
    requires PathOk(p) && Settled(p) && p.bas.initialized && NextAdc(p.world).1 == Millivolts(mv)
    ensures ClientConnected(p).bas.count == p.bas.count + 1
    ensures ClientConnected(p).bas.level == VoltageToPercentage(mv) && ClientConnected(p).bas.charging == p.world.pin
  {
    PollMeasures(p.(bas := p.bas.(count := p.bas.count + 1)), mv);
    BasUpdateKeeps(p.(bas := p.bas.(count := p.bas.count + 1)));
  }

  /** Edges push the debounce work out to 300 ms after the last of them. */
  lemma EdgePostpones(s: Charger)
    ensures Step(s, Edge).due == Some(s.clock + 300) && Step(s, Edge).path == s.path
  {
  }

  lemma StartHardwareOk(p: Path)
    requires PathOk(p) && p.hw.calls == []
    ensures PathOk(StartHardware(p)) && StartHardware(p).hw.ready
  {
    var (w, now) := NextPin(p.world);
    GetLevelOk(Path(p.hw.(ready := true, lastCharging := now), p.bas, w));
  }

  lemma StepKeepsInv(s: Charger, e: Event)
    requires Inv(s) && Enabled(s, e)
    ensures Inv(Step(s, e))
  {
    match e
    case HwInit(w) => StartHardwareOk(s.path.(world := w));
    case Debounce(w) =>
      var p := s.path.(world := w);
      DebounceIsQuery(p);
      IsChargingOk(p);
      IsChargingKeeps(p);
    case Query(w) =>
      IsChargingOk(s.path.(world := w));
      IsChargingKeeps(s.path.(world := w));
    case Connect(w) =>
      var p := s.path.(world := w, bas := s.path.bas.(count := s.path.bas.count + 1));
      BasUpdateOk(p);
      BasUpdateKeeps(p);
    case Poll(w) =>
      BasUpdateOk(s.path.(world := w));
      BasUpdateKeeps(s.path.(world := w));
    case Manual(level, charging, w) => UpdateManualOk(s.path.(world := w), level, charging);
    case _ =>
  }

  lemma {:induction false} RunKeepsInv(s: Charger, es: seq<Event>)
    requires Inv(s) && Run(s, es)
    ensures Inv(After(s, es))
    decreases |es|
  {
    if es != [] {
      StepKeepsInv(s, es[0]);
      RunKeepsInv(Step(s, es[0]), es[1..]);
    }
  }

  /** In every reachable state the charge state is CHARGING, and wired power connected, exactly while
      the charging flag is up, and the level is a percentage. */
  lemma ChargeFlagsAgree(w: World, es: seq<Event>)
    requires WorldOk(w) && Run(Start(w), es)
    ensures
      var b := After(Start(w), es).path.bas;
      (b.state == Charging <==> b.charging) && (b.wired <==> b.charging) && b.level <= 100
  {
    RunKeepsInv(Start(w), es);
  }

  /** However debounce work and polls interleave, the registered callback is called with strictly
      alternating values, the last of which is the last state recorded. */
  lemma CallbackAlternates(w: World, es: seq<Event>)
    requires WorldOk(w) && Run(Start(w), es)
    ensures
      var h := After(Start(w), es).path.hw;
      && (forall i :: 0 < i < |h.calls| ==> h.calls[i] == !h.calls[i - 1])
      && (h.calls != [] ==> h.calls[|h.calls| - 1] == h.lastCharging)
  {
    RunKeepsInv(Start(w), es);
    var h := After(Start(w), es).path.hw;
    forall i | 0 < i < |h.calls| ensures h.calls[i] == !h.calls[i - 1] {
      assert h.calls[i] != h.calls[i - 1];
    }
  }

  /** The debounce work runs only after 300 ms without an edge, edges during initialization included. */
  lemma DebounceWaits(w: World, es: seq<Event>, next: World)
    requires WorldOk(w) && Run(Start(w), es) && Enabled(After(Start(w), es), Debounce(next))
    ensures
      var s := After(Start(w), es);
      s.clock - s.lastEdge >= 300
  {
    RunKeepsInv(Start(w), es);
  }

  // ---------------------------------------------------------------- a lost charge state

  /** A battery at 3600 mV, and everything foreign works. */
  function Steady(plugged: bool): World { World([], plugged, [], Millivolts(3600), [], 0) }

  /** The internal state says charging, the BAS says the wire is not connected. */
  ghost predicate Lost(p: Path) {
    && PathOk(p) && p.hw.ready && p.hw.lastCharging && p.bas.initialized
    && p.bas.charging && p.bas.wired && p.bas.level == VoltageToPercentage(3600)
    && !p.bas.published.wired
  }

  /** A client is connected to the unplugged device, and the BAS says what the internal state says. */
  ghost predicate Agreed(p: Path) {
    && PathOk(p) && p.hw.ready && p.hw.registered && !p.hw.lastCharging && p.bas.initialized && p.bas.count > 0
    && !p.bas.charging && p.bas.level == VoltageToPercentage(3600) && p.bas.published == Derived(p.bas)
  }

  lemma ConnectAgrees(p: Path)
    requires PathOk(p) && p.hw.ready && p.hw.registered && !p.hw.lastCharging && p.world == Steady(false)
    requires p.bas.initialized && p.bas.level == 0 && !p.bas.charging
    ensures Agreed(ClientConnected(p))
  {
    var counted := p.(bas := p.bas.(count := p.bas.count + 1));
    assert PathOk(counted) && Settled(counted);
    BasUpdateOk(counted);
    SettledUpdate(counted);
  }

  lemma QueryLoses(p: Path)
    requires Agreed(p) && p.world == Steady(true)
    ensures Lost(IsCharging(p).0)
  {
    var called := Called(p);
    CalledOk(p);
    IsChargingOk(p);
    NoteChargingOk(called);
    var noted := called.(bas := NoteCharging(called.bas, true));
    SettledUpdateOutcome(noted);
    SettledUpdateStays(noted);
  }

  /** The client connects to an unplugged device, then the charger is plugged in. */
  lemma PluggingInIsLost() returns (es: seq<Event>)
    ensures es == [AddInterrupt, HwInit(Steady(false)), BasInit, Connect(Steady(false)), Query(Steady(true))]
    ensures Run(Start(Steady(false)), es) && Lost(After(Start(Steady(false)), es).path)
  {
    var w, w2 := Steady(false), Steady(true);
    var s1 := Step(Start(w), AddInterrupt);
    var s2 := Step(s1, HwInit(w));
    var s3 := Step(s2, BasInit);
    var s4 := Step(s3, Connect(w));
    ConnectAgrees(s3.path);
    QueryLoses(s4.path.(world := w2));
    es := Prepend(s4, Query(w2), []);
    es := Prepend(s3, Connect(w), es);
    es := Prepend(s2, BasInit, es);
    es := Prepend(s1, HwInit(w), es);
    es := Prepend(Start(w), AddInterrupt, es);
  }

  lemma Prepend(s: Charger, e: Event, es: seq<Event>) returns (longer: seq<Event>)
    requires Enabled(s, e) && Run(Step(s, e), es)
    ensures longer == [e] + es && Run(s, longer) && After(s, longer) == After(Step(s, e), es)
  {
    longer := [e] + es;
    assert longer[1..] == es;
  }

  /** An edge, and 300 ms without another: the debounce work finds the charger plugged in and says so. */
  lemma EdgeIsTold() returns (es: seq<Event>)
    ensures es == [AddInterrupt, HwInit(Steady(false)), BasInit, Edge, Tick(300), Debounce(Steady(true))]
    ensures Run(Start(Steady(false)), es)
    ensures After(Start(Steady(false)), es).path.hw.calls == [true]
  {
    var w, w2 := Steady(false), Steady(true);
    var s1 := Step(Start(w), AddInterrupt);
    var s2 := Step(s1, HwInit(w));
    var s3 := Step(s2, BasInit);
    var s4 := Step(s3, Edge);
    var s5 := Step(s4, Tick(300));
    es := Prepend(s5, Debounce(w2), []);
    es := Prepend(s4, Tick(300), es);
    es := Prepend(s3, Edge, es);
    es := Prepend(s2, BasInit, es);
    es := Prepend(s1, HwInit(w), es);
    es := Prepend(Start(w), AddInterrupt, es);
    assert ChargingChanged(Called(s5.path.(world := w2)), true) == Called(s5.path.(world := w2));
  }

  predicate StaysPlugged(e: Event) {
    match e
    case Debounce(w) => w == Steady(true)
    case Query(w) => w == Steady(true)
    case Connect(w) => w == Steady(true)
    case Poll(w) => w == Steady(true)
    case Manual(_, _, _) => false
    case _ => true
  }

  lemma UpdateStaysLost(p: Path)
    requires Lost(p) && p.world == Steady(true)
    ensures Lost(BasUpdate(p).0)
  {
    BasUpdateOk(p);
    StaysUnpublished(p);
    SettledUpdateStays(p);
  }

  lemma StepStaysLost(s: Charger, e: Event)
    requires Lost(s.path) && Enabled(s, e) && StaysPlugged(e)
    ensures Lost(Step(s, e).path)
  {
    var p := s.path.(world := Steady(true));
    match e
    case Debounce(_) =>
      DebounceIsQuery(p);
      SettledIsCharging(p);
    case Query(_) => SettledIsCharging(p);
    case Connect(_) => UpdateStaysLost(p.(bas := p.bas.(count := p.bas.count + 1)));
    case Poll(_) => UpdateStaysLost(p);
    case _ =>
  }

  /** And it stays lost: however long the device is polled, asked and reconnected to at that level. */
  lemma {:induction false} LostForGood(s: Charger, es: seq<Event>)
    requires Lost(s.path) && Run(s, es) && forall e :: e in es ==> StaysPlugged(e)
    ensures Lost(After(s, es).path)
    decreases |es|
  {
    if es != [] {
      StepStaysLost(s, es[0]);
      LostForGood(Step(s, es[0]), es[1..]);
    }
  }

  // ---------------------------------------------------------------- the imperative path

  /** The static state of `battery_service` and `ble_battery_service`, which call each other. */
  class ChargingPath {
    var ready: bool
    var hasReading: bool
    var lastLevel: nat
    var lastCharging: bool
    var registered: bool
    ghost var calls: seq<bool>
    var initialized: bool
    var count: nat
    var level: nat
    var charging: bool
    var state: ChargeState
    var grade: ChargeLevel
    var wired: bool
    var published: Published
    var world: World

    ghost function State(): Path
      reads this
    {
      Path(Hardware(ready, hasReading, lastCharging, registered, calls),
           Bas(initialized, count, level, charging, state, grade, wired, published),
           world)
    }

    constructor (w: World)
      ensures State() == PowerOn(w)
    {
      ready, hasReading, lastLevel, lastCharging, registered, calls := false, false, 0, false, false, [];
      initialized, count, level, charging := false, 0, 0, false;
      state, grade, wired := UnknownState, UnknownLevel, false;
      published := Published(0, UnknownState, UnknownLevel, false);
      world := w;
    }

    method ReadChargePin() returns (low: bool)
      modifies `world
      ensures (world, low) == NextPin(old(world))
    {
      if world.pins == [] {
        return world.pin;
      }
      low := world.pins[0];
      world := world.(pins := world.pins[1..]);
    }

    method UpdateChargeLevel()
      modifies `grade
      ensures grade == GradeOf(level)
    {
      if level > 75 {
        grade := Good;
      } else if level > 25 {
        grade := Low;
      } else {
        grade := Critical;
      }
    }

    method UpdateChargeState(now: bool)
      modifies `state, `wired
      ensures state == StateOf(level, now) && wired == now
    {
      if now {
        state, wired := Charging, true;
      } else {
        if level > 10 {
          state := Active;
        } else {
          state := Inactive;
        }
        wired := false;
      }
    }

    method BatteryGetLevel() returns (r: int)
      requires WorldOk(world)
      modifies `world, `hasReading, `lastLevel
      ensures (State(), r) == GetLevel(old(State()))
    {
      var err := EINVAL;
      if ready {
        var a := world.adc;
        if world.adcs != [] {
          a := world.adcs[0];
          assert a in world.adcs;
          world := world.(adcs := world.adcs[1..]);
        }
        match a {
          case Millivolts(mv) =>
            lastLevel := VoltageToPercentage(mv);
            hasReading := true;
            return lastLevel;
          case AdcError(errno) => err := errno;
        }
      }
      if !hasReading {
        return ENODATA;
      }
      return err;
    }

    method BatteryIsCharging() returns (now: bool)
      requires WorldOk(world)
      modifies this
      ensures (State(), now) == IsCharging(old(State()))
      decreases |world.pins|, world.pin != lastCharging, 0
    {
      if !ready {
        return false;
      }
      now := ReadChargePin();
      if now != lastCharging {
        lastCharging := now;
        if registered {
          calls := calls + [now];
          ChargingStatusChanged(now);
        }
      }
    }

    method ChargingStatusChanged(now: bool)
      requires WorldOk(world)
      modifies this
      ensures State() == ChargingChanged(old(State()), now)
      decreases |world.pins|, world.pin != lastCharging, 2
    {
      if !initialized || count == 0 {
        return;
      }
      charging := now;
      UpdateChargeState(now);
      var _ := Update();
    }

    method Update() returns (ret: int)
      requires WorldOk(world)
      modifies this
      ensures (State(), ret) == BasUpdate(old(State()))
      decreases |world.pins|, world.pin != lastCharging, 1
    {
      if !initialized {
        return ENODEV;
      }
      var measured := BatteryGetLevel();
      if measured < 0 {
        return measured;
      }
      var now := BatteryIsCharging();
      ret := UpdateManually(measured, now);
    }

    method UpdateManually(newLevel: nat, now: bool) returns (ret: int)
      modifies `level, `charging, `state, `grade, `wired, `published, `world
      ensures (State(), ret) == UpdateManual(old(State()), newLevel, now)
    {
      if !initialized {
        return ENODEV;
      }
      var clamped := if newLevel > 100 then 100 else newLevel;
      if level == clamped && charging == now {
        return 0;
      }
      level := clamped;
      charging := now;
      UpdateChargeLevel();
      UpdateChargeState(now);
      ret := world.write;
      if world.writes != [] {
        ret := world.writes[0];
        world := world.(writes := world.writes[1..]);
      }
      if ret != 0 {
        return;
      }
      published := Published(level, state, grade, wired);
    }

    method ChargeStatusDebounceWork()
      requires WorldOk(world)
      modifies this
      ensures State() == DebounceWork(old(State()))
    {
      var now := ReadChargePin();
      if now != lastCharging {
        lastCharging := now;
        if registered {
          calls := calls + [now];
          ChargingStatusChanged(now);
        }
      }
    }

    method OnConnected() returns (ret: int)
      requires WorldOk(world)
      modifies this
      ensures State() == ClientConnected(old(State())) && ret == if old(initialized) then 0 else ENODEV
    {
      if !initialized {
        return ENODEV;
      }
      count := count + 1;
      var _ := Update();
      ret := 0;
    }

    method OnDisconnected()
      modifies `count
      ensures State() == ClientDisconnected(old(State()))
    {
      if count == 0 {
        return;
      }
      count := count - 1;
    }

    method BatteryPollWork()
      requires WorldOk(world)
      modifies this
      ensures State() == PollWork(old(State()))
    {
      if !initialized || count == 0 {
        return;
      }
      var _ := Update();
    }
  }
}
