/** The charging path: the hardware battery service and the BLE Battery Service call each other
    through the charging callback. Pin, ADC and BAS results are streams the path consumes. */
module Battery {
  import opened Common

  const FULL_MV := 4200
  const EMPTY_MV := 3000
  const DEBOUNCE_MS := 300

  function VoltageToPercentage(mv: nat): (p: nat)
    ensures p <= 100
    ensures 3000 < mv < 4200 ==> 12 * p <= mv - 3000 < 12 * (p + 1)
    ensures (p == 100 <==> mv >= 4200) && (mv <= 3000 ==> p == 0)
  {
    if mv >= FULL_MV then 100
    else if mv <= EMPTY_MV then 0
    else (mv - EMPTY_MV) * 100 / (FULL_MV - EMPTY_MV)
  }

  /** A battery that reads higher never shows a lower level. */
  lemma PercentageMonotone(a: nat, b: nat)
    requires a <= b
    ensures VoltageToPercentage(a) <= VoltageToPercentage(b)
  {
  }

  datatype Adc = Millivolts(mv: nat) | AdcError(errno: int)

  predicate AdcOk(a: Adc) { a.AdcError? ==> a.errno < 0 }

  datatype ChargeState = UnknownState | Charging | Active | Inactive
  datatype ChargeLevel = UnknownLevel | Good | Low | Critical

  /** What the BAS characteristics say: level, charge state, charge level, wired power. */
  datatype Published = Published(level: nat, state: ChargeState, grade: ChargeLevel, wired: bool)

  /** The foreign results still to come: charging pin reads (stable at `pin` once `pins` runs out),
      ADC reads and BAS writes (likewise). */
  datatype World = World(pins: seq<bool>, pin: bool, adcs: seq<Adc>, adc: Adc, writes: seq<int>, write: int)

  predicate WorldOk(w: World) {
    AdcOk(w.adc) && forall a :: a in w.adcs ==> AdcOk(a)
  }

  /** `battery_service`: its data, and the values its callback was called with. */
  datatype Hardware = Hardware(ready: bool, hasReading: bool, lastCharging: bool, registered: bool, calls: seq<bool>)

  /** `ble_battery_service`: its state, its connection counter, and what the BAS was last told. */
  datatype Bas = Bas(
    initialized: bool,
    count: nat,
    level: nat,
    charging: bool,
    state: ChargeState,
    grade: ChargeLevel,
    wired: bool,
    published: Published)

  datatype Path = Path(hw: Hardware, bas: Bas, world: World)

  function PowerOn(w: World): Path {
    Path(Hardware(false, false, false, false, []),
         Bas(false, 0, 0, false, UnknownState, UnknownLevel, false, Published(0, UnknownState, UnknownLevel, false)),
         w)
  }

  function NextPin(w: World): (World, bool) {
    if w.pins == [] then (w, w.pin) else (w.(pins := w.pins[1..]), w.pins[0])
  }

  function NextAdc(w: World): (World, Adc) {
    if w.adcs == [] then (w, w.adc) else (w.(adcs := w.adcs[1..]), w.adcs[0])
  }

  function NextWrite(w: World): (World, int) {
    if w.writes == [] then (w, w.write) else (w.(writes := w.writes[1..]), w.writes[0])
  }

  function GradeOf(level: nat): ChargeLevel {
    if level > 75 then Good else if level > 25 then Low else Critical
  }

  function StateOf(level: nat, charging: bool): ChargeState {
    if charging then Charging else if level > 10 then Active else Inactive
  }

  /** `battery_service_get_level`: the percentage, or a negative errno. */
  function GetLevel(p: Path): (Path, int) {
    if !p.hw.ready then (p, if p.hw.hasReading then EINVAL else ENODATA)
    else
      var (w, a) := NextAdc(p.world);
      match a
      case Millivolts(mv) => (Path(p.hw.(hasReading := true), p.bas, w), VoltageToPercentage(mv))
      case AdcError(errno) => (p.(world := w), if p.hw.hasReading then errno else ENODATA)
  }

  function Derived(b: Bas): Published { Published(b.level, b.state, b.grade, b.wired) }

  predicate Unchanged(b: Bas, level: nat, charging: bool) {
    b.level == (if level > 100 then 100 else level) && b.charging == charging
  }

  /** The internal state after `update_manual` finds a change. */
  function Changed(b: Bas, level: nat, charging: bool): Bas {
    var clamped := if level > 100 then 100 else level;
    b.(level := clamped, charging := charging, grade := GradeOf(clamped), state := StateOf(clamped, charging), wired := charging)
  }

  function UpdateManual(p: Path, level: nat, charging: bool): (Path, int) {
    if !p.bas.initialized then (p, ENODEV)
    else if Unchanged(p.bas, level, charging) then (p, 0)
    else
      var b := Changed(p.bas, level, charging);
      var (w, ret) := NextWrite(p.world);
      (Path(p.hw, if ret == 0 then b.(published := Derived(b)) else b, w), ret)
  }

  /** What the callback does to the BLE state before it starts an update. */
  function NoteCharging(b: Bas, charging: bool): Bas {
    b.(charging := charging, state := StateOf(b.level, charging), wired := charging)
  }

  /** A pin read that finds a change, with a callback to run. */
  predicate MustCall(p: Path) {
    p.hw.ready && NextPin(p.world).1 != p.hw.lastCharging && p.hw.registered
  }

  /** The state in which the callback is run. */
  function Called(p: Path): Path {
    var (w, now) := NextPin(p.world);
    Path(p.hw.(lastCharging := now, calls := p.hw.calls + [now]), p.bas, w)
  }

  /** The recursion ends: every round consumes a pin read, and once the pin is stable at most one
      more round finds it different from the last state. */
  function IsCharging(p: Path): (r: (Path, bool))
    ensures |r.0.world.pins| <= |p.world.pins|
    decreases |p.world.pins|, p.world.pin != p.hw.lastCharging, 0
  {
    if !p.hw.ready then (p, false)
    else
      var (w, now) := NextPin(p.world);
      if MustCall(p) then (ChargingChanged(Called(p), now), now)
      else (Path(p.hw.(lastCharging := now), p.bas, w), now)
  }

  function ChargingChanged(p: Path, charging: bool): (r: Path)
    ensures |r.world.pins| <= |p.world.pins|
    decreases |p.world.pins|, p.world.pin != p.hw.lastCharging, 2
  {
    if !p.bas.initialized || p.bas.count == 0 then p
    else BasUpdate(p.(bas := NoteCharging(p.bas, charging))).0
  }

  /** `ble_battery_service_update`. */
  function BasUpdate(p: Path): (r: (Path, int))
    ensures |r.0.world.pins| <= |p.world.pins|
    decreases |p.world.pins|, p.world.pin != p.hw.lastCharging, 1
  {
    if !p.bas.initialized then (p, ENODEV)
    else
      var (p1, level) := GetLevel(p);
      if level < 0 then (p1, level)
      else
        var (p2, charging) := IsCharging(p1);
        UpdateManual(p2, level, charging)
  }

  // ---------------------------------------------------------------- what is stored and published

  /** `b` shows `level` and `charging`, with the thresholds of the derived states. */
  predicate Shows(b: Bas, level: nat, charging: bool) {
    && b.level == level && b.charging == charging && b.wired == charging
    && (b.state == Charging <==> charging)
    && (b.state == Active <==> !charging && level > 10)
    && (b.state == Inactive <==> !charging && level <= 10)
    && (b.grade == Good <==> level > 75)
    && (b.grade == Low <==> 25 < level <= 75)
    && (b.grade == Critical <==> level <= 25)
  }

  function Capped(level: nat): nat { if level > 100 then 100 else level }

  /** A manual update on an initialized service stores the level, at most 100, and the charging flag. If
      either was new it derives everything from them and writes; the BAS gets all four values when the
      write returns 0 and none otherwise. If neither was new nothing happens. */
  lemma UpdateManualMeans(p: Path, level: nat, charging: bool)
    requires p.bas.initialized
    ensures
      var (q, ret) := UpdateManual(p, level, charging);
      var changes := p.bas.level != Capped(level) || p.bas.charging != charging;
      && q.bas.level == Capped(level) && q.bas.charging == charging && q.bas.count == p.bas.count && q.bas.initialized && q.hw == p.hw
      && (!changes ==> ret == 0 && q == p)
      && (changes ==> ret == NextWrite(p.world).1 && Shows(q.bas, Capped(level), charging))
      && (changes && ret == 0 ==> q.bas.published == Published(q.bas.level, q.bas.state, q.bas.grade, q.bas.wired))
      && (changes && ret != 0 ==> q.bas.published == p.bas.published)
  {
  }

  /** Before initialization an update is refused and changes nothing. */
  lemma UpdateRefused(p: Path, level: nat, charging: bool)
    requires !p.bas.initialized
    ensures UpdateManual(p, level, charging) == (p, ENODEV) && BasUpdate(p) == (p, ENODEV)
  {
  }

  /** What a reading answers: the percentage of the voltage it takes, or an error that is -ENODATA until
      a first reading went well. Only initialized hardware is read. */
  lemma GetLevelMeans(p: Path)
    ensures
      var (q, level) := GetLevel(p);
      var a := NextAdc(p.world).1;
      && (!p.hw.ready ==> q == p && level == if p.hw.hasReading then EINVAL else ENODATA)
      && (p.hw.ready && a.Millivolts? ==> level == VoltageToPercentage(a.mv) && q.hw == p.hw.(hasReading := true))
      && (p.hw.ready && a.AdcError? ==> level == (if p.hw.hasReading then a.errno else ENODATA) && q.hw == p.hw)
      && q.bas == p.bas
  {
  }

  /** Polling answers the pin as it reads it then, whatever the recursion it starts does. */
  lemma IsChargingAnswersPin(p: Path)
    ensures IsCharging(p).1 <==> p.hw.ready && (if p.world.pins == [] then p.world.pin else p.world.pins[0])
  {
  }

  /** An update that returns 0 leaves the percentage of the voltage it read, and the charging flag its
      poll answered. */
  lemma BasUpdateStoresMeasured(p: Path)
    requires PathOk(p) && BasUpdate(p).1 == 0
    ensures
      var q, a := BasUpdate(p).0, NextAdc(p.world).1;
      && p.bas.initialized && p.hw.ready && a.Millivolts?
      && q.bas.level == VoltageToPercentage(a.mv)
      && q.bas.charging == IsCharging(GetLevel(p).0).1
  {
    GetLevelOk(p);
    GetLevelMeans(p);
    if p.bas.initialized {
      if p.world.adcs != [] {
        assert p.world.adcs[0] in p.world.adcs;
      }
      var (p1, level) := GetLevel(p);
      if level >= 0 {
        IsChargingKeeps(p1);
        UpdateManualMeans(IsCharging(p1).0, level, IsCharging(p1).1);
      }
    }
  }

  /** However deep the recursion, it leaves both services' start-up flags and the connection counter
      alone. */
  lemma {:induction false} IsChargingKeeps(p: Path)
    ensures IsCharging(p).0.hw.ready == p.hw.ready
    ensures IsCharging(p).0.bas.count == p.bas.count && IsCharging(p).0.bas.initialized == p.bas.initialized
    ensures !p.hw.ready ==> IsCharging(p).0 == p
    ensures p.hw.calls <= IsCharging(p).0.hw.calls
    decreases |p.world.pins|, p.world.pin != p.hw.lastCharging, 0
  {
    if MustCall(p) {
      assert p.hw.calls <= Called(p).hw.calls;
      ChargingChangedKeeps(Called(p), NextPin(p.world).1);
    }
  }

  lemma {:induction false} ChargingChangedKeeps(p: Path, charging: bool)
    ensures ChargingChanged(p, charging).hw.ready == p.hw.ready
    ensures ChargingChanged(p, charging).bas.count == p.bas.count && ChargingChanged(p, charging).bas.initialized == p.bas.initialized
    ensures !p.hw.ready ==> ChargingChanged(p, charging).hw == p.hw
    ensures p.hw.calls <= ChargingChanged(p, charging).hw.calls
    decreases |p.world.pins|, p.world.pin != p.hw.lastCharging, 2
  {
    if p.bas.initialized && p.bas.count != 0 {
      BasUpdateKeeps(p.(bas := NoteCharging(p.bas, charging)));
    }
  }

  lemma GetLevelKeeps(p: Path)
    ensures
      var q := GetLevel(p).0;
      && q.bas == p.bas && q.hw == p.hw.(hasReading := q.hw.hasReading)
      && q.world == p.world.(adcs := q.world.adcs)
      && (!p.hw.ready ==> q.hw == p.hw)
  {
  }

  lemma UpdateManualKeeps(p: Path, level: nat, charging: bool)
    ensures
      var q := UpdateManual(p, level, charging).0;
      q.hw == p.hw && q.bas.count == p.bas.count && q.bas.initialized == p.bas.initialized
  {
  }

  lemma {:induction false} BasUpdateKeeps(p: Path)
    ensures BasUpdate(p).0.hw.ready == p.hw.ready
    ensures BasUpdate(p).0.bas.count == p.bas.count && BasUpdate(p).0.bas.initialized == p.bas.initialized
    ensures !p.hw.ready ==> BasUpdate(p).0.hw == p.hw
    ensures p.hw.calls <= BasUpdate(p).0.hw.calls
    decreases |p.world.pins|, p.world.pin != p.hw.lastCharging, 1
  {
    if p.bas.initialized {
      GetLevelKeeps(p);
      var (p1, level) := GetLevel(p);
      if level >= 0 {
        IsChargingKeeps(p1);
        UpdateManualKeeps(IsCharging(p1).0, level, IsCharging(p1).1);
      }
    }
  }

  /** A pin that reads other than the last state is told to the registered callback, first of all that
      the poll then starts. */
  lemma ChangeIsTold(p: Path)
    ensures
      var pin := if p.world.pins == [] then p.world.pin else p.world.pins[0];
      p.hw.ready && p.hw.registered && pin != p.hw.lastCharging ==> p.hw.calls + [pin] <= IsCharging(p).0.hw.calls
  {
    if MustCall(p) {
      ChargingChangedKeeps(Called(p), NextPin(p.world).1);
    }
  }

  /** The callback makes the internal state show the new charging flag at the old level, published or
      not. */
  lemma NoteChargingMeans(b: Bas, charging: bool)
    ensures
      var n := NoteCharging(b, charging);
      && n.charging == n.wired == charging && n.level == b.level
      && (n.state == Charging <==> charging)
      && (n.state == Active <==> !charging && b.level > 10)
      && (n.state == Inactive <==> !charging && b.level <= 10)
      && n == b.(charging := n.charging, wired := n.wired, state := n.state)
  {
  }

  /** An update whose reading fails returns the error and changes neither state nor BAS. */
  lemma FailedReadingChangesNothing(p: Path)
    requires p.bas.initialized && GetLevel(p).1 < 0
    ensures BasUpdate(p).1 == GetLevel(p).1 && BasUpdate(p).0.bas == p.bas
  {
  }

  // ---------------------------------------------------------------- invariants

  ghost predicate Alternates(calls: seq<bool>) {
    forall i :: 0 < i < |calls| ==> calls[i] != calls[i - 1]
  }

  /** Charging, charge state and wired power tell one story, and the level is a percentage. */
  ghost predicate BasOk(b: Bas) {
    && b.level <= 100
    && (b.state == UnknownState ==> !b.charging && !b.wired)
    && (b.state != UnknownState ==> b.state == StateOf(b.level, b.charging) && b.wired == b.charging)
    && (b.grade == UnknownLevel || b.grade == GradeOf(b.level))
  }

  /** The callback has been called with alternating values, the last of them the last state. */
  ghost predicate CallsOk(h: Hardware) {
    && Alternates(h.calls)
    && (h.calls != [] ==> h.registered && h.calls[|h.calls| - 1] == h.lastCharging)
  }

  ghost predicate PathOk(p: Path) {
    WorldOk(p.world) && BasOk(p.bas) && CallsOk(p.hw)
  }

  lemma CalledOk(p: Path)
    requires PathOk(p) && MustCall(p)
    ensures PathOk(Called(p))
  {
  }

  lemma GetLevelOk(p: Path)
    requires PathOk(p)
    ensures
      var (q, level) := GetLevel(p);
      && PathOk(q) && level <= 100 && q.bas == p.bas
      && q.hw == p.hw.(hasReading := q.hw.hasReading)
      && q.world == p.world.(adcs := q.world.adcs)
  {
    if p.hw.ready && p.world.adcs != [] {
      assert p.world.adcs[0] in p.world.adcs;
    }
  }

  lemma UpdateManualOk(p: Path, level: nat, charging: bool)
    requires PathOk(p)
    ensures PathOk(UpdateManual(p, level, charging).0)
  {
  }

  lemma {:induction false} IsChargingOk(p: Path)
    requires PathOk(p)
    ensures PathOk(IsCharging(p).0)
    decreases |p.world.pins|, p.world.pin != p.hw.lastCharging, 0
  {
    if MustCall(p) {
      CalledOk(p);
      ChargingChangedOk(Called(p), NextPin(p.world).1);
    }
  }

  lemma {:induction false} ChargingChangedOk(p: Path, charging: bool)
    requires PathOk(p)
    ensures PathOk(ChargingChanged(p, charging))
    decreases |p.world.pins|, p.world.pin != p.hw.lastCharging, 2
  {
    if p.bas.initialized && p.bas.count != 0 {
      assert BasOk(NoteCharging(p.bas, charging));
      BasUpdateOk(p.(bas := NoteCharging(p.bas, charging)));
    }
  }

  lemma {:induction false} BasUpdateOk(p: Path)
    requires PathOk(p)
    ensures PathOk(BasUpdate(p).0)
    decreases |p.world.pins|, p.world.pin != p.hw.lastCharging, 1
  {
    if p.bas.initialized {
      GetLevelOk(p);
      var (p1, level) := GetLevel(p);
      if level >= 0 {
        IsChargingOk(p1);
        UpdateManualOk(IsCharging(p1).0, level, IsCharging(p1).1);
      }
    }
  }

  // ---------------------------------------------------------------- the recursion is bounded

  /** How often the pin will be seen to change, starting from `last`. */
  function Flips(last: bool, pins: seq<bool>, pin: bool): nat
    decreases |pins|
  {
    if pins == [] then (if pin != last then 1 else 0)
    else (if pins[0] != last then 1 else 0) + Flips(pins[0], pins[1..], pin)
  }

  function Pending(p: Path): nat { Flips(p.hw.lastCharging, p.world.pins, p.world.pin) }

  /** Calls made so far plus pin changes to come. */
  function Budget(p: Path): nat { |p.hw.calls| + Pending(p) }

  lemma CalledKeepsBudget(p: Path)
    requires MustCall(p)
    ensures Budget(Called(p)) == Budget(p)
  {
  }

  lemma GetLevelKeepsBudget(p: Path)
    ensures Budget(GetLevel(p).0) == Budget(p)
  {
  }

  lemma UpdateManualKeepsBudget(p: Path, level: nat, charging: bool)
    ensures Budget(UpdateManual(p, level, charging).0) == Budget(p)
  {
  }

  /** Callbacks are paid for by pin changes: however deep it recurses, a call runs the callback at
      most as often as the pin is still to change. */
  lemma {:induction false} IsChargingWithinBudget(p: Path)
    ensures Budget(IsCharging(p).0) <= Budget(p)
    decreases |p.world.pins|, p.world.pin != p.hw.lastCharging, 0
  {
    if MustCall(p) {
      CalledKeepsBudget(p);
      ChargingChangedWithinBudget(Called(p), NextPin(p.world).1);
    }
  }

  lemma {:induction false} ChargingChangedWithinBudget(p: Path, charging: bool)
    ensures Budget(ChargingChanged(p, charging)) <= Budget(p)
    decreases |p.world.pins|, p.world.pin != p.hw.lastCharging, 2
  {
    if p.bas.initialized && p.bas.count != 0 {
      var q := p.(bas := NoteCharging(p.bas, charging));
      assert Budget(q) == Budget(p);
      BasUpdateWithinBudget(q);
    }
  }

  lemma {:induction false} BasUpdateWithinBudget(p: Path)
    ensures Budget(BasUpdate(p).0) <= Budget(p)
    decreases |p.world.pins|, p.world.pin != p.hw.lastCharging, 1
  {
    if p.bas.initialized {
      GetLevelKeepsBudget(p);
      var (p1, level) := GetLevel(p);
      if level >= 0 {
        IsChargingWithinBudget(p1);
        UpdateManualKeepsBudget(IsCharging(p1).0, level, IsCharging(p1).1);
      }
    }
  }

  // ---------------------------------------------------------------- updates under a stable pin

  predicate StablePin(p: Path) { p.world.pins == [] }

  predicate Settled(p: Path) {
    StablePin(p) && p.hw.ready && p.hw.lastCharging == p.world.pin
  }

  /** Once the last state matches a stable pin, reading it changes nothing. */
  lemma SettledIsCharging(p: Path)
    requires Settled(p)
    ensures IsCharging(p) == (p, p.world.pin)
  {
  }

  lemma SettledUpdate(p: Path)
    requires Settled(p) && p.bas.initialized
    ensures
      var (p1, level) := GetLevel(p);
      BasUpdate(p) == if level < 0 then (p1, level) else UpdateManual(p1, level, p.world.pin)
  {
    SettledIsCharging(GetLevel(p).0);
  }

  lemma GetLevelKeepsSettled(p: Path)
    requires Settled(p)
    ensures Settled(GetLevel(p).0) && GetLevel(p).0.world.pin == p.world.pin
  {
  }

  lemma SettledUpdateStays(p: Path)
    requires Settled(p)
    ensures Settled(BasUpdate(p).0) && BasUpdate(p).0.world.pin == p.world.pin
    ensures BasUpdate(p).0.bas.initialized == p.bas.initialized
  {
    if p.bas.initialized {
      SettledUpdate(p);
      GetLevelKeepsSettled(p);
    }
  }

  /** Polling a stable pin settles the path on it, callback and all. */
  lemma StableIsCharging(p: Path)
    requires StablePin(p) && p.hw.ready
    ensures
      var (q, charging) := IsCharging(p);
      && charging == p.world.pin == q.world.pin && Settled(q)
      && q.bas.initialized == p.bas.initialized
  {
    if MustCall(p) && p.bas.initialized && p.bas.count != 0 {
      var q := Called(p);
      SettledUpdateStays(q.(bas := NoteCharging(q.bas, p.world.pin)));
    }
  }

  /** A BAS update that returns 0 under a stable pin leaves the charging flag equal to the pin. */
  lemma UpdateFollowsPin(p: Path)
    requires PathOk(p) && StablePin(p)
    ensures
      var (q, ret) := BasUpdate(p);
      ret == 0 ==> q.bas.charging == p.world.pin && q.bas.level <= 100
  {
    BasUpdateOk(p);
    if p.bas.initialized {
      var (p1, level) := GetLevel(p);
      if level >= 0 {
        assert p1.hw.ready;
        StableIsCharging(p1);
      }
    }
  }

  // ---------------------------------------------------------------- what is published

  /** The update a charge change starts measures a level other than the stored one. */
  predicate LevelMoves(p: Path) {
    var a := NextAdc(p.world).1;
    a.Millivolts? && VoltageToPercentage(a.mv) != p.bas.level
  }

  /** What the internal state becomes by that update when the level moves. */
  function Moved(p: Path): Bas
    requires NextAdc(p.world).1.Millivolts?
  {
    Changed(p.bas, VoltageToPercentage(NextAdc(p.world).1.mv), p.world.pin)
  }

  /** An update on a settled pin whose charging flag already says what the pin says. */
  lemma SettledUpdateOutcome(p: Path)
    requires PathOk(p) && Settled(p) && p.bas.initialized && p.bas.charging == p.world.pin
    ensures
      var q := BasUpdate(p).0.bas;
      if !LevelMoves(p) then q == p.bas
      else q == if NextWrite(p.world).1 == 0 then Moved(p).(published := Derived(Moved(p))) else Moved(p)
  {
    SettledUpdate(p);
    GetLevelOk(p);
    if p.world.adcs != [] {
      assert p.world.adcs[0] in p.world.adcs;
    }
  }

  lemma NoteChargingOk(p: Path)
    requires PathOk(p)
    ensures PathOk(p.(bas := NoteCharging(p.bas, p.world.pin)))
  {
  }

  /** The callback changes the internal charge state before the update compares it, so the update
      sees a change only in the level. The new state is published exactly when the measured level
      differs from the stored one and is written, or the BAS happened to say it already; a level that
      cannot be measured does not differ. */
  lemma ChargeChangePublishedIffLevelMoved(p: Path)
    requires PathOk(p) && Settled(p) && p.bas.initialized && p.bas.count > 0
    ensures
      var q := ChargingChanged(p, p.world.pin).bas;
      && q.charging == p.world.pin && q.wired == p.world.pin
      && (q.published == Derived(q) <==>
            if LevelMoves(p)
            then NextWrite(p.world).1 == 0 || p.bas.published == Derived(Moved(p))
            else p.bas.published == Derived(NoteCharging(p.bas, p.world.pin)))
  {
    NoteChargingOk(p);
    SettledUpdateOutcome(p.(bas := NoteCharging(p.bas, p.world.pin)));
  }

  /** So plugging the charger in is never published while the level stays or cannot be measured: from
      a BAS that agreed with the internal state it goes on saying the wire is not connected, ... */
  lemma PluggingInGoesUnpublished(p: Path)
    requires PathOk(p) && Settled(p) && p.bas.initialized && p.bas.count > 0
    requires p.world.pin && !p.bas.charging && p.bas.published == Derived(p.bas) && !LevelMoves(p)
    ensures
      var q := ChargingChanged(p, true).bas;
      q.wired && !q.published.wired
  {
    NoteChargingOk(p);
    SettledUpdateOutcome(p.(bas := NoteCharging(p.bas, true)));
  }

  /** ... and every later update that does not see the level move leaves it so. */
  lemma StaysUnpublished(p: Path)
    requires PathOk(p) && Settled(p) && p.bas.initialized && p.bas.charging == p.world.pin && !LevelMoves(p)
    ensures BasUpdate(p).0.bas == p.bas
  {
    SettledUpdateOutcome(p);
  }
}
