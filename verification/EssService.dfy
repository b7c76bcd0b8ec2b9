/** The Environmental Sensing Service cache: what a snapshot does to it, what a GATT read returns
    from it, and what subscribers are told. */
module EssService {
  import opened Common
  import opened Floats
  import opened EssEncode
  import opened Sensors
  import C = Ccs811

  datatype Char = TempChar | HumChar | PressChar | Co2Char | TvocChar

  datatype Sensor = Sensor(value: int, known: bool, notify: bool)

  datatype Cache = Cache(temp: Sensor, hum: Sensor, press: Sensor, co2: Sensor, tvoc: Sensor)

  const INITIAL := Cache(
    Sensor(UNKNOWN_S16, false, false), Sensor(UNKNOWN_U16, false, false), Sensor(0, false, false),
    Sensor(UNKNOWN_U16, false, false), Sensor(UNKNOWN_U16, false, false))

  datatype Note = Note(ch: Char, bytes: seq<byte>)

  /** The answers to the readiness checks of one update, in the order it makes them. */
  datatype Readiness = Readiness(co2First: bool, co2Again: bool, tvocFirst: bool, tvocAgain: bool)

  /** Readiness did not flip during the update. */
  predicate Steady(ready: Readiness) {
    ready.co2First == ready.co2Again == ready.tvocFirst == ready.tvocAgain
  }

  /** A TVOC value that will be stored has been through the range check of the CO2 block. */
  predicate Checked(data: Snapshot, ready: Readiness) {
    AirQuality in data.valid && ready.tvocFirst ==> ready.co2First
  }

  datatype Outcome = Outcome(cache: Cache, notes: seq<Note>, ret: int)

  function At(c: Cache, ch: Char): Sensor {
    match ch
    case TempChar => c.temp
    case HumChar => c.hum
    case PressChar => c.press
    case Co2Char => c.co2
    case TvocChar => c.tvoc
  }

  function Put(c: Cache, ch: Char, s: Sensor): Cache {
    match ch
    case TempChar => c.(temp := s)
    case HumChar => c.(hum := s)
    case PressChar => c.(press := s)
    case Co2Char => c.(co2 := s)
    case TvocChar => c.(tvoc := s)
  }

  function Invalidate(c: Cache, ch: Char): Cache {
    Put(c, ch, At(c, ch).(known := false))
  }

  function Known(c: Cache, ch: Char, v: int): Cache {
    Put(c, ch, At(c, ch).(value := v, known := true))
  }

  /** The bytes of a characteristic value: masked to its width, little-endian. */
  function Wire(ch: Char, value: int): seq<byte> {
    if ch.PressChar? then ToLe(value % 0x1_0000_0000, 4) else ToLe(value % 0x1_0000, 2)
  }

  /** The value the trigger compares: 16-bit characteristics are cast to `int16_t`. */
  function Compared(ch: Char, value: int): int {
    if ch.PressChar? then value else Int16(value)
  }

  // ---------------------------------------------------------------- updates

  function Push(o: Outcome, ch: Char, v: int): Outcome {
    var s := At(o.cache, ch);
    var notify := ShouldNotify(ValueChanged, Compared(ch, s.value), Compared(ch, v), 0);
    Outcome(Known(o.cache, ch, v), if notify && s.notify then o.notes + [Note(ch, Wire(ch, v))] else o.notes, o.ret)
  }

  function Drop(o: Outcome, ch: Char): Outcome {
    o.(cache := Invalidate(o.cache, ch))
  }

  predicate Valid(data: Snapshot, ch: Char) {
    match ch
    case TempChar => Temperature in data.valid
    case HumChar => Humidity in data.valid
    case PressChar => Pressure in data.valid
    case _ => AirQuality in data.valid
  }

  predicate InRange(r: Rounding, data: Snapshot, ch: Char) {
    match ch
    case TempChar => TemperatureInRange(r, data.temperature)
    case HumChar => HumidityInRange(data.humidity)
    case PressChar => PressureInRange(data.pressure)
    case Co2Char => Co2InRange(data.eco2)
    case TvocChar => TvocInRange(data.tvoc)
  }

  function Encoded(r: Rounding, data: Snapshot, ch: Char): int {
    match ch
    case TempChar => EncodeTemperature(r, data.temperature)
    case HumChar => EncodeHumidity(r, data.humidity)
    case PressChar => EncodePressure(r, data.pressure)
    case Co2Char => data.eco2
    case TvocChar => data.tvoc
  }

  /** A valid reading outside its range: the update stops here. */
  predicate Bad(r: Rounding, data: Snapshot, ch: Char) {
    Valid(data, ch) && !InRange(r, data, ch)
  }

  function UpdateOne(r: Rounding, o: Outcome, data: Snapshot, ch: Char): Outcome {
    if o.ret != 0 then o
    else if !Valid(data, ch) then Drop(o, ch)
    else if !InRange(r, data, ch) then Drop(o, ch).(ret := ERANGE)
    else Push(o, ch, Encoded(r, data, ch))
  }

  function UpdateCo2(r: Rounding, o: Outcome, data: Snapshot, ready: Readiness): Outcome {
    if o.ret != 0 then o
    else if Valid(data, Co2Char) && ready.co2First then
      if !InRange(r, data, Co2Char) || !InRange(r, data, TvocChar)
      then Drop(Drop(o, Co2Char), TvocChar).(ret := ERANGE)
      else Push(o, Co2Char, data.eco2)
    else if !ready.co2Again then Push(o, Co2Char, UNKNOWN_U16)
    else Drop(o, Co2Char)
  }

  function UpdateTvoc(o: Outcome, data: Snapshot, ready: Readiness): Outcome {
    if o.ret != 0 then o
    else if Valid(data, TvocChar) && ready.tvocFirst then Push(o, TvocChar, data.tvoc)
    else if !ready.tvocAgain then Push(o, TvocChar, UNKNOWN_U16)
    else Drop(o, TvocChar)
  }

  function UpdateClimate(r: Rounding, c: Cache, data: Snapshot): Outcome {
    UpdateOne(r, UpdateOne(r, UpdateOne(r, Outcome(c, [], 0), data, TempChar), data, HumChar), data, PressChar)
  }

  /** `ess_service_update` on an initialized service. */
  function Update(r: Rounding, c: Cache, data: Snapshot, ready: Readiness): Outcome {
    UpdateTvoc(UpdateCo2(r, UpdateClimate(r, c, data), data, ready), data, ready)
  }

  // ---------------------------------------------------------------- GATT reads

  const ATT_OUT_OF_RANGE := -0xFF
  const ATT_NOT_ALLOWED := -0x13

  function AttError(errno: int): int {
    if errno == ERANGE then ATT_OUT_OF_RANGE else ATT_NOT_ALLOWED
  }

  /** What one read learns from the manager: the return codes of its two calls, the snapshot the
      second one copied, whether the first one ran the callback (with which readiness answers),
      and the readiness answer of a gas read. */
  datatype Fetch = Fetch(updateRet: int, getRet: int, data: Snapshot, pushed: Option<Readiness>, gasReady: bool)

  /** `ret` is the byte count or a negative ATT error. */
  datatype Served = Served(cache: Cache, notes: seq<Note>, ret: int, bytes: seq<byte>)

  function Refuse(o: Outcome, errno: int): Served { Served(o.cache, o.notes, AttError(errno), []) }

  function Serve(o: Outcome, ch: Char): Served {
    var bytes := Wire(ch, At(o.cache, ch).value);
    Served(o.cache, o.notes, |bytes|, bytes)
  }

  /** The direct store of one reading from a fetched snapshot, without notification. */
  function Store(r: Rounding, c: Cache, data: Snapshot, ch: Char): Cache {
    if Valid(data, ch) && InRange(r, data, ch) then Known(c, ch, Encoded(r, data, ch)) else Invalidate(c, ch)
  }

  function StoreErrno(r: Rounding, data: Snapshot, ch: Char): int {
    if !Valid(data, ch) then ENODATA else if !InRange(r, data, ch) then ERANGE else 0
  }

  /** What a read of `ch` stores once it has its snapshot: a temperature or humidity read stores
      both readings, but a failing temperature read stops after the first. */
  function DirectStore(r: Rounding, c: Cache, data: Snapshot, ch: Char): Cache {
    match ch
    case TempChar =>
      var c1 := Store(r, c, data, TempChar);
      if StoreErrno(r, data, TempChar) != 0 then c1 else Store(r, c1, data, HumChar)
    case HumChar => Store(r, Store(r, c, data, TempChar), data, HumChar)
    case PressChar => Store(r, c, data, PressChar)
    case _ => c
  }

  /** The callback the manager runs during a climate or pressure read. */
  function Pushed(r: Rounding, c: Cache, f: Fetch): Outcome {
    if f.pushed.Some? then Update(r, c, f.data, f.pushed.value) else Outcome(c, [], 0)
  }

  function ReadClimate(r: Rounding, c: Cache, ch: Char, f: Fetch): Served {
    var o := Pushed(r, c, f);
    if f.updateRet != 0 then Refuse(Drop(o, ch), f.updateRet)
    else if f.getRet != 0 then Refuse(Drop(o, ch), f.getRet)
    else
      var o1 := o.(cache := DirectStore(r, o.cache, f.data, ch));
      var errno := StoreErrno(r, f.data, ch);
      if errno != 0 then Refuse(o1, errno) else Serve(o1, ch)
  }

  /** A climate or pressure read is its callback followed by the read without one. */
  lemma ReadAfterPush(r: Rounding, c: Cache, ch: Char, f: Fetch)
    requires f.updateRet == 0
    ensures
      var o, s := Pushed(r, c, f), ReadClimate(r, c, ch, f);
      var rest := ReadClimate(r, o.cache, ch, Fetch(0, f.getRet, f.data, None, f.gasReady));
      s.cache == rest.cache && s.notes == o.notes && s.ret == rest.ret && s.bytes == rest.bytes
  {
  }

  function ReadGas(r: Rounding, c: Cache, ch: Char, f: Fetch): Served {
    var o := Outcome(c, [], 0);
    if !f.gasReady then Serve(o.(cache := Known(c, ch, UNKNOWN_U16)), ch)
    else if f.getRet != 0 then Refuse(Drop(o, ch), f.getRet)
    else if !Valid(f.data, ch) then Refuse(Drop(o, ch), ENODATA)
    else if !InRange(r, f.data, ch) then Refuse(Drop(o, ch), ERANGE)
    else Serve(o.(cache := Known(c, ch, Encoded(r, f.data, ch))), ch)
  }

  function Read(r: Rounding, c: Cache, ch: Char, f: Fetch): Served {
    if ch.Co2Char? || ch.TvocChar? then ReadGas(r, c, ch, f) else ReadClimate(r, c, ch, f)
  }

  // ---------------------------------------------------------------- the cache invariant

  ghost predicate KnownOk(ch: Char, v: int) {
    match ch
    case TempChar => TEMP_MIN <= v <= TEMP_MAX
    case HumChar => 0 <= v <= HUM_MAX
    case PressChar => PRESS_MIN <= v <= PRESS_MAX
    case Co2Char => (v >= 0 && Co2InRange(v)) || v == UNKNOWN_U16
    case TvocChar => (v >= 0 && TvocInRange(v)) || v == UNKNOWN_U16
  }

  /** Every value, known or not, fits the integer type its casts assume. */
  ghost predicate Fits(ch: Char, v: int) {
    match ch
    case TempChar => -0x8000 <= v < 0x8000
    case PressChar => 0 <= v < 0x1_0000_0000
    case _ => 0 <= v < 0x1_0000
  }

  ghost predicate CacheOk(c: Cache) {
    forall ch :: Fits(ch, At(c, ch).value) && (At(c, ch).known ==> KnownOk(ch, At(c, ch).value))
  }

  lemma KnownFits(ch: Char, v: int)
    requires KnownOk(ch, v)
    ensures Fits(ch, v)
  {
  }

  lemma PutGet(c: Cache, ch: Char, other: Char, s: Sensor)
    ensures At(Put(c, ch, s), other) == if other == ch then s else At(c, other)
  {
  }

  lemma KnownKeepsOk(c: Cache, ch: Char, v: int)
    requires CacheOk(c) && KnownOk(ch, v)
    ensures CacheOk(Known(c, ch, v))
  {
    KnownFits(ch, v);
    forall other {
      PutGet(c, ch, other, At(c, ch).(value := v, known := true));
    }
  }

  lemma InvalidateKeepsOk(c: Cache, ch: Char)
    requires CacheOk(c)
    ensures CacheOk(Invalidate(c, ch))
  {
    forall other {
      PutGet(c, ch, other, At(c, ch).(known := false));
    }
  }

  lemma EncodedOk(r: Rounding, data: Snapshot, ch: Char)
    requires InRange(r, data, ch)
    ensures KnownOk(ch, Encoded(r, data, ch))
  {
  }

  lemma UpdateOneKeepsOk(r: Rounding, o: Outcome, data: Snapshot, ch: Char)
    requires CacheOk(o.cache)
    ensures CacheOk(UpdateOne(r, o, data, ch).cache)
  {
    InvalidateKeepsOk(o.cache, ch);
    if InRange(r, data, ch) {
      EncodedOk(r, data, ch);
      KnownKeepsOk(o.cache, ch, Encoded(r, data, ch));
    }
  }

  lemma ClimateKeepsOk(r: Rounding, c: Cache, data: Snapshot)
    requires CacheOk(c)
    ensures CacheOk(UpdateClimate(r, c, data).cache)
  {
    var o0 := Outcome(c, [], 0);
    UpdateOneKeepsOk(r, o0, data, TempChar);
    UpdateOneKeepsOk(r, UpdateOne(r, o0, data, TempChar), data, HumChar);
    var o2 := UpdateOne(r, UpdateOne(r, o0, data, TempChar), data, HumChar);
    UpdateOneKeepsOk(r, o2, data, PressChar);
  }

  lemma Co2KeepsOk(r: Rounding, c: Cache, data: Snapshot, ready: Readiness)
    requires CacheOk(c)
    ensures CacheOk(UpdateCo2(r, UpdateClimate(r, c, data), data, ready).cache)
  {
    var o := UpdateClimate(r, c, data);
    ClimateKeepsOk(r, c, data);
    InvalidateKeepsOk(o.cache, Co2Char);
    InvalidateKeepsOk(Invalidate(o.cache, Co2Char), TvocChar);
    KnownKeepsOk(o.cache, Co2Char, UNKNOWN_U16);
    if Co2InRange(data.eco2) {
      KnownKeepsOk(o.cache, Co2Char, data.eco2);
    }
  }

  /** An update that checks what it stores keeps the cache in range. */
  lemma UpdateKeepsOk(r: Rounding, c: Cache, data: Snapshot, ready: Readiness)
    requires CacheOk(c) && Checked(data, ready)
    ensures CacheOk(Update(r, c, data, ready).cache)
  {
    Co2KeepsOk(r, c, data, ready);
    var o1 := UpdateCo2(r, UpdateClimate(r, c, data), data, ready);
    InvalidateKeepsOk(o1.cache, TvocChar);
    KnownKeepsOk(o1.cache, TvocChar, UNKNOWN_U16);
    if TvocInRange(data.tvoc) {
      KnownKeepsOk(o1.cache, TvocChar, data.tvoc);
    }
  }

  /** Readiness flipping between the two gas blocks lets an unchecked TVOC through: the first answer
      skips the range check and the third stores the value anyway. */
  lemma FlipStoresUncheckedTvoc(r: Rounding)
    ensures
      var data := ZEROED.(eco2 := 600, tvoc := 40000, valid := {AirQuality});
      var o := Update(r, INITIAL, data, Readiness(false, false, true, true));
      CacheOk(INITIAL) && o.ret == 0 && !CacheOk(o.cache)
  {
    var data := ZEROED.(eco2 := 600, tvoc := 40000, valid := {AirQuality});
    UncheckedStores(r, data, Readiness(false, false, true, true));
  }

  predicate BadClimate(r: Rounding, data: Snapshot) {
    Bad(r, data, TempChar) || Bad(r, data, HumChar) || Bad(r, data, PressChar)
  }

  lemma UncheckedStores(r: Rounding, data: Snapshot, ready: Readiness)
    requires !Checked(data, ready) && !BadClimate(r, data)
    ensures Update(r, INITIAL, data, ready).ret == 0
    ensures At(Update(r, INITIAL, data, ready).cache, TvocChar) == Sensor(data.tvoc, true, false)
  {
    ClimateFailure(r, INITIAL, data);
    StoreElsewhere(r, INITIAL, data);
  }

  /** Exactly when an update keeps every good cache in range: its TVOC is checked, or needs no check,
      or is not reached because a climate reading is out of range. */
  lemma UpdateKeepsOkIff(r: Rounding, data: Snapshot, ready: Readiness)
    ensures
      (forall c :: CacheOk(c) ==> CacheOk(Update(r, c, data, ready).cache))
      <==> Checked(data, ready) || BadClimate(r, data) || KnownOk(TvocChar, data.tvoc)
  {
    if Checked(data, ready) {
      forall c | CacheOk(c) ensures CacheOk(Update(r, c, data, ready).cache) {
        UpdateKeepsOk(r, c, data, ready);
      }
    } else if BadClimate(r, data) {
      forall c | CacheOk(c) ensures CacheOk(Update(r, c, data, ready).cache) {
        ClimateFailure(r, c, data);
        var unready := Readiness(false, false, false, false);
        UpdateKeepsOk(r, c, data, unready);
        assert Update(r, c, data, ready) == UpdateClimate(r, c, data) == Update(r, c, data, unready);
      }
    } else if KnownOk(TvocChar, data.tvoc) {
      forall c | CacheOk(c) ensures CacheOk(Update(r, c, data, ready).cache) {
        UncheckedGood(r, c, data, ready);
      }
    } else {
      UncheckedStores(r, data, ready);
      assert CacheOk(INITIAL);
    }
  }

  lemma UncheckedGood(r: Rounding, c: Cache, data: Snapshot, ready: Readiness)
    requires CacheOk(c) && !Checked(data, ready) && KnownOk(TvocChar, data.tvoc)
    ensures CacheOk(Update(r, c, data, ready).cache)
  {
    var unready := Readiness(false, ready.co2Again, false, true);
    UpdateKeepsOk(r, c, data, unready);
    var o1 := UpdateCo2(r, UpdateClimate(r, c, data), data, ready);
    assert o1 == UpdateCo2(r, UpdateClimate(r, c, data), data, unready);
    Co2KeepsOk(r, c, data, unready);
    KnownKeepsOk(o1.cache, TvocChar, data.tvoc);
  }

  lemma StoreKeepsOk(r: Rounding, c: Cache, data: Snapshot, ch: Char)
    requires CacheOk(c)
    ensures CacheOk(Store(r, c, data, ch))
  {
    InvalidateKeepsOk(c, ch);
    if InRange(r, data, ch) {
      EncodedOk(r, data, ch);
      KnownKeepsOk(c, ch, Encoded(r, data, ch));
    }
  }

  lemma DirectStoreKeepsOk(r: Rounding, c: Cache, data: Snapshot, ch: Char)
    requires CacheOk(c)
    ensures CacheOk(DirectStore(r, c, data, ch))
  {
    StoreKeepsOk(r, c, data, TempChar);
    StoreKeepsOk(r, c, data, PressChar);
    StoreKeepsOk(r, Store(r, c, data, TempChar), data, HumChar);
  }

  lemma ReadKeepsOk(r: Rounding, c: Cache, ch: Char, f: Fetch)
    requires CacheOk(c) && (f.pushed.Some? ==> Checked(f.data, f.pushed.value))
    ensures CacheOk(Read(r, c, ch, f).cache)
  {
    if ch.Co2Char? || ch.TvocChar? {
      InvalidateKeepsOk(c, ch);
      KnownKeepsOk(c, ch, UNKNOWN_U16);
      StoreKeepsOk(r, c, f.data, ch);
    } else {
      ReadClimateKeepsOk(r, c, ch, f);
    }
  }

  lemma PushedKeepsOk(r: Rounding, c: Cache, f: Fetch)
    requires CacheOk(c) && (f.pushed.Some? ==> Checked(f.data, f.pushed.value))
    ensures CacheOk(Pushed(r, c, f).cache)
  {
    if f.pushed.Some? {
      UpdateKeepsOk(r, c, f.data, f.pushed.value);
    }
  }

  lemma ReadClimateStores(r: Rounding, c: Cache, ch: Char, f: Fetch)
    ensures
      var o := Pushed(r, c, f);
      var s := ReadClimate(r, c, ch, f);
      && s.notes == o.notes
      && s.cache == if f.updateRet == 0 && f.getRet == 0 then DirectStore(r, o.cache, f.data, ch) else Invalidate(o.cache, ch)
  {
  }

  lemma ReadClimateKeepsOk(r: Rounding, c: Cache, ch: Char, f: Fetch)
    requires CacheOk(c) && (f.pushed.Some? ==> Checked(f.data, f.pushed.value))
    ensures CacheOk(ReadClimate(r, c, ch, f).cache)
  {
    PushedKeepsOk(r, c, f);
    var o := Pushed(r, c, f);
    InvalidateKeepsOk(o.cache, ch);
    DirectStoreKeepsOk(r, o.cache, f.data, ch);
    ReadClimateStores(r, c, ch, f);
  }

  /** The local getters: the cached value, or `-ENODATA`. */
  function Getter(s: Sensor): int { if s.known then s.value else ENODATA }

  /** Any other answer than `-ENODATA` is a known value in its characteristic's range; and `-ENODATA`
      means the value is not known, exactly unless it is a known temperature of -0.61 degrees. */
  lemma GetterTellsKnown(c: Cache, ch: Char)
    requires CacheOk(c)
    ensures
      var s := At(c, ch);
      && (Getter(s) != ENODATA ==> s.known && Getter(s) == s.value && KnownOk(ch, Getter(s)))
      && ((Getter(s) == ENODATA <==> !s.known) <==> !(ch.TempChar? && s.known && s.value == -61))
  {
  }

  /** It happens: a good reading of -0.615 degrees is answered like a missing one. */
  lemma ColdReadingLooksMissing(r: Rounding, ready: Readiness)
    ensures
      var o := Update(r, INITIAL, ZEROED.(temperature := Fin(-0.615), valid := {Temperature}), ready);
      o.ret == 0 && o.cache.temp.known && Getter(o.cache.temp) == ENODATA
  {
    var data := ZEROED.(temperature := Fin(-0.615), valid := {Temperature});
    RoundingAt(r, -0.615 * TEMP_SCALE);
    assert EncodeTemperature(r, data.temperature) == -61;
    RoundingAt(r, TEMP_MIN as real / 100.0);
    RoundingAt(r, TEMP_MAX as real / 100.0);
    assert InRange(r, data, TempChar);
    UpdateFailure(r, INITIAL, data, ready);
  }

  datatype Event =
    | Callback(data: Snapshot, ready: Readiness)
    | Gatt(ch: Char, f: Fetch)
    | Ccc(ch: Char, on: bool)

  predicate CheckedEvent(e: Event) {
    match e
    case Callback(data, ready) => Checked(data, ready)
    case Gatt(_, f) => f.pushed.Some? ==> Checked(f.data, f.pushed.value)
    case Ccc(_, _) => true
  }

  function SetNotify(c: Cache, ch: Char, on: bool): Cache { Put(c, ch, At(c, ch).(notify := on)) }

  /** One event: the new cache and the notifications sent. */
  function Handle(r: Rounding, c: Cache, e: Event): (Cache, seq<Note>) {
    match e
    case Callback(data, ready) => var o := Update(r, c, data, ready); (o.cache, o.notes)
    case Gatt(ch, f) => var s := Read(r, c, ch, f); (s.cache, s.notes)
    case Ccc(ch, on) => (SetNotify(c, ch, on), [])
  }

  function HandleAll(r: Rounding, c: Cache, es: seq<Event>): (Cache, seq<Note>)
    decreases |es|
  {
    if es == [] then (c, [])
    else
      var (c1, n1) := Handle(r, c, es[0]);
      var (c2, n2) := HandleAll(r, c1, es[1..]);
      (c2, n1 + n2)
  }

  lemma EventKeepsOk(r: Rounding, c: Cache, e: Event)
    requires CacheOk(c) && CheckedEvent(e)
    ensures CacheOk(Handle(r, c, e).0)
  {
    match e
    case Callback(data, ready) => UpdateKeepsOk(r, c, data, ready);
    case Gatt(ch, f) => ReadKeepsOk(r, c, ch, f);
    case Ccc(ch, on) =>
      forall other {
        PutGet(c, ch, other, At(c, ch).(notify := on));
      }
  }

  /** Over every mix of callbacks, reads and subscriptions, a known value is in its characteristic's
      range (or 0xFFFF for a gas), whatever snapshots the manager hands out. */
  lemma {:induction false} CacheStaysOk(r: Rounding, c: Cache, es: seq<Event>)
    requires CacheOk(c) && forall e :: e in es ==> CheckedEvent(e)
    ensures CacheOk(HandleAll(r, c, es).0)
    decreases |es|
  {
    if es != [] {
      EventKeepsOk(r, c, es[0]);
      CacheStaysOk(r, Handle(r, c, es[0]).0, es[1..]);
    }
  }

  // ---------------------------------------------------------------- what an update means

  /** An update fails exactly when some valid reading is out of range where the update gets to it;
      then the readings before the first bad one are new, it is unknown, and those after it are
      untouched. Out-of-range air quality makes both gases unknown. */
  lemma UpdateFailure(r: Rounding, c: Cache, data: Snapshot, ready: Readiness)
    ensures
      var o := Update(r, c, data, ready);
      var badAir := ready.co2First && (Bad(r, data, Co2Char) || Bad(r, data, TvocChar));
      && (o.ret == ERANGE <==> Bad(r, data, TempChar) || Bad(r, data, HumChar) || Bad(r, data, PressChar) || badAir)
      && (o.ret == 0 || o.ret == ERANGE)
      && (Bad(r, data, TempChar) ==> o.cache == Invalidate(c, TempChar))
      && (!Bad(r, data, TempChar) && Bad(r, data, HumChar) ==>
            o.cache == Invalidate(Store(r, c, data, TempChar), HumChar))
      && (!Bad(r, data, TempChar) && !Bad(r, data, HumChar) && Bad(r, data, PressChar) ==>
            o.cache == Invalidate(Store(r, Store(r, c, data, TempChar), data, HumChar), PressChar))
      && (!Bad(r, data, TempChar) && !Bad(r, data, HumChar) && !Bad(r, data, PressChar) ==>
            && o.cache.temp == Store(r, c, data, TempChar).temp
            && o.cache.hum == Store(r, c, data, HumChar).hum
            && o.cache.press == Store(r, c, data, PressChar).press
            && (badAir ==> o.cache.co2 == Invalidate(c, Co2Char).co2 && o.cache.tvoc == Invalidate(c, TvocChar).tvoc))
  {
    var o := UpdateClimate(r, c, data);
    ClimateFailure(r, c, data);
    GasFailure(r, o, data, ready);
    if o.ret == 0 {
      StoreElsewhere(r, c, data);
    }
  }

  lemma UpdateOneStores(r: Rounding, o: Outcome, data: Snapshot, ch: Char)
    requires o.ret == 0
    ensures UpdateOne(r, o, data, ch).cache == Store(r, o.cache, data, ch)
    ensures UpdateOne(r, o, data, ch).ret == if Bad(r, data, ch) then ERANGE else 0
    ensures Bad(r, data, ch) ==> Store(r, o.cache, data, ch) == Invalidate(o.cache, ch)
  {
  }

  lemma ClimateFailure(r: Rounding, c: Cache, data: Snapshot)
    ensures
      var o := UpdateClimate(r, c, data);
      var c1 := Store(r, c, data, TempChar);
      var c2 := Store(r, c1, data, HumChar);
      && o.ret == (if Bad(r, data, TempChar) || Bad(r, data, HumChar) || Bad(r, data, PressChar) then ERANGE else 0)
      && o.cache == (if Bad(r, data, TempChar) then c1 else if Bad(r, data, HumChar) then c2 else Store(r, c2, data, PressChar))
      && (Bad(r, data, TempChar) ==> c1 == Invalidate(c, TempChar))
      && (Bad(r, data, HumChar) ==> c2 == Invalidate(c1, HumChar))
      && (Bad(r, data, PressChar) ==> Store(r, c2, data, PressChar) == Invalidate(c2, PressChar))
  {
    var o0 := Outcome(c, [], 0);
    UpdateOneStores(r, o0, data, TempChar);
    var o1 := UpdateOne(r, o0, data, TempChar);
    if o1.ret == 0 {
      UpdateOneStores(r, o1, data, HumChar);
      var o2 := UpdateOne(r, o1, data, HumChar);
      if o2.ret == 0 {
        UpdateOneStores(r, o2, data, PressChar);
      }
    }
  }

  /** The three climate stores touch one characteristic each. */
  lemma StoreElsewhere(r: Rounding, c: Cache, data: Snapshot)
    ensures
      var u := Store(r, Store(r, Store(r, c, data, TempChar), data, HumChar), data, PressChar);
      && u.temp == Store(r, c, data, TempChar).temp
      && u.hum == Store(r, c, data, HumChar).hum
      && u.press == Store(r, c, data, PressChar).press
      && u.co2 == c.co2 && u.tvoc == c.tvoc
  {
  }

  lemma GasFailure(r: Rounding, o: Outcome, data: Snapshot, ready: Readiness)
    ensures
      var g := UpdateTvoc(UpdateCo2(r, o, data, ready), data, ready);
      var badAir := ready.co2First && (Bad(r, data, Co2Char) || Bad(r, data, TvocChar));
      && (o.ret != 0 ==> g == o)
      && (o.ret == 0 ==>
            && g.ret == (if badAir then ERANGE else 0)
            && g.cache.temp == o.cache.temp && g.cache.hum == o.cache.hum && g.cache.press == o.cache.press
            && (badAir ==> g.cache == Invalidate(Invalidate(o.cache, Co2Char), TvocChar)))
  {
  }

  datatype GasPair = Real | Unknown16 | Missing

  function GasState(s: Sensor): GasPair {
    if !s.known then Missing else if s.value == UNKNOWN_U16 then Unknown16 else Real
  }

  /** After a successful update with steady readiness the two gases are both real, both "value not
      known", or both missing, and which it is says whether the sensor is ready and its data valid. */
  lemma GasesAgree(r: Rounding, c: Cache, data: Snapshot, ready: Readiness)
    requires Steady(ready) && Update(r, c, data, ready).ret == 0
    ensures
      var u := Update(r, c, data, ready).cache;
      && GasState(u.co2) == GasState(u.tvoc)
      && GasState(u.co2) == if !ready.co2First then Unknown16 else if AirQuality in data.valid then Real else Missing
  {
  }

  lemma WireIsNotEmpty(ch: Char, v: int)
    ensures |Wire(ch, v)| > 0
  {
  }

  lemma UnknownWire(ch: Char)
    requires !ch.PressChar?
    ensures Wire(ch, UNKNOWN_U16) == [0xFF, 0xFF]
  {
    assert ToLe(0xFFFF, 2) == [0xFF] + ToLe(0xFF, 1);
    assert ToLe(0xFF, 1) == [0xFF] + ToLe(0, 0);
  }

  lemma GasReadReturnsFetched(r: Rounding, c: Cache, ch: Char, f: Fetch)
    requires ch.Co2Char? || ch.TvocChar?
    ensures ReadFaithful(r, c, ch, f)
  {
    UnknownWire(ch);
    WireIsNotEmpty(ch, UNKNOWN_U16);
    WireIsNotEmpty(ch, Encoded(r, f.data, ch));
  }

  lemma ClimateReadReturnsFetched(r: Rounding, c: Cache, ch: Char, f: Fetch)
    requires ch.TempChar? || ch.HumChar? || ch.PressChar?
    ensures ReadFaithful(r, c, ch, f)
  {
    ReadClimateStores(r, c, ch, f);
    WireIsNotEmpty(ch, Encoded(r, f.data, ch));
    DirectStoreOwn(r, Pushed(r, c, f).cache, f.data, ch);
  }

  lemma DirectStoreOwn(r: Rounding, c: Cache, data: Snapshot, ch: Char)
    requires ch.TempChar? || ch.HumChar? || ch.PressChar?
    ensures
      var s := At(DirectStore(r, c, data, ch), ch);
      if StoreErrno(r, data, ch) == 0 then s.known && s.value == Encoded(r, data, ch) else !s.known
  {
  }

  ghost predicate ReadFaithful(r: Rounding, c: Cache, ch: Char, f: Fetch) {
    var s := Read(r, c, ch, f);
    && (s.ret >= 0 ==> s.ret == |s.bytes| && s.bytes == Wire(ch, At(s.cache, ch).value) && At(s.cache, ch).known)
    && (s.ret >= 0 ==>
          if (ch.Co2Char? || ch.TvocChar?) && !f.gasReady
          then s.bytes == [0xFF, 0xFF]
          else f.getRet == 0 && Valid(f.data, ch) && InRange(r, f.data, ch) && s.bytes == Wire(ch, Encoded(r, f.data, ch)))
    && (s.ret < 0 ==> !At(s.cache, ch).known && s.bytes == [])
  }

  /** A read that succeeds returns the encoding of the snapshot it fetched, or 0xFFFF for a gas
      while the sensor conditions; a read that fails leaves its characteristic unknown. */
  lemma ReadReturnsFetched(r: Rounding, c: Cache, ch: Char, f: Fetch)
    ensures ReadFaithful(r, c, ch, f)
  {
    if ch.Co2Char? || ch.TvocChar? {
      GasReadReturnsFetched(r, c, ch, f);
    } else {
      ClimateReadReturnsFetched(r, c, ch, f);
    }
  }

  // ---------------------------------------------------------------- from measurement to cache and wire

  /** `v` is `exact` rounded toward zero, up to the rounding of its computation. */
  ghost predicate Near(v: int, exact: real, rounding: real) {
    Abs(v as real - exact) < 1.0 + rounding
  }

  /** The cached temperature is the measured one in 0.01 degrees. */
  ghost predicate HoldsTemperature(s: Sensor, celsius: Float) {
    celsius.Fin? && s.known && Near(s.value, 100.0 * celsius.v, Slack(100.0 * celsius.v) + 100.0 * Slack(328.0))
  }

  /** The cached humidity is the measured one in 0.01 %. */
  ghost predicate HoldsHumidity(s: Sensor, percent: Float) {
    percent.Fin? && s.known && Near(s.value, 100.0 * percent.v, Slack(100.0 * percent.v))
  }

  /** The cached pressure is the measured one in 0.1 Pa. */
  ghost predicate HoldsPressure(s: Sensor, kpa: Float) {
    kpa.Fin? && s.known && Near(s.value, 10000.0 * kpa.v, Slack(10000.0 * kpa.v))
  }

  lemma EncodedTemperatureHolds(r: Rounding, data: Snapshot, s: Sensor)
    requires InRange(r, data, TempChar) && s.known && s.value == Encoded(r, data, TempChar)
    ensures HoldsTemperature(s, data.temperature)
  {
    TemperatureAccurate(r, data.temperature.v);
  }

  lemma EncodedHumidityHolds(r: Rounding, data: Snapshot, s: Sensor)
    requires InRange(r, data, HumChar) && s.known && s.value == Encoded(r, data, HumChar)
    ensures HoldsHumidity(s, data.humidity)
  {
    HumidityAccurate(r, data.humidity.v);
  }

  lemma EncodedPressureHolds(r: Rounding, data: Snapshot, s: Sensor)
    requires InRange(r, data, PressChar) && s.known && s.value == Encoded(r, data, PressChar)
    ensures HoldsPressure(s, data.pressure)
  {
    PressureAccurate(r, data.pressure.v);
  }

  lemma StoredClimate(r: Rounding, c: Cache, data: Snapshot)
    requires !BadClimate(r, data)
    ensures
      var u := UpdateClimate(r, c, data).cache;
      && (Temperature in data.valid ==> HoldsTemperature(u.temp, data.temperature))
      && (Humidity in data.valid ==> HoldsHumidity(u.hum, data.humidity))
      && (Pressure in data.valid ==> HoldsPressure(u.press, data.pressure))
      && (Temperature !in data.valid ==> u.temp == c.temp.(known := false))
      && (Humidity !in data.valid ==> u.hum == c.hum.(known := false))
      && (Pressure !in data.valid ==> u.press == c.press.(known := false))
  {
    var u := UpdateClimate(r, c, data).cache;
    ClimateFailure(r, c, data);
    StoreElsewhere(r, c, data);
    if Temperature in data.valid {
      EncodedTemperatureHolds(r, data, u.temp);
    }
    if Humidity in data.valid {
      EncodedHumidityHolds(r, data, u.hum);
    }
    if Pressure in data.valid {
      EncodedPressureHolds(r, data, u.press);
    }
  }

  lemma UpdateSplits(r: Rounding, c: Cache, data: Snapshot, ready: Readiness)
    ensures
      var o, u := Update(r, c, data, ready), UpdateClimate(r, c, data);
      && o.cache.temp == u.cache.temp && o.cache.hum == u.cache.hum && o.cache.press == u.cache.press
      && (o.ret == 0 <==>
            !BadClimate(r, data) &&
            !(AirQuality in data.valid && ready.co2First && (!Co2InRange(data.eco2) || !TvocInRange(data.tvoc))))
      && u.cache.co2 == c.co2 && u.cache.tvoc == c.tvoc
  {
    ClimateFailure(r, c, data);
    GasFailure(r, UpdateClimate(r, c, data), data, ready);
    StoreElsewhere(r, c, data);
  }

  /** A successful update caches each valid reading as it was measured, in the characteristic's unit, and
      makes each invalid one unknown without touching its value. A gas with valid air quality and a
      ready sensor is cached as measured. */
  lemma UpdateStoresMeasured(r: Rounding, c: Cache, data: Snapshot, ready: Readiness)
    requires Update(r, c, data, ready).ret == 0
    ensures
      var u := Update(r, c, data, ready).cache;
      && (if Temperature in data.valid then HoldsTemperature(u.temp, data.temperature) else u.temp == c.temp.(known := false))
      && (if Humidity in data.valid then HoldsHumidity(u.hum, data.humidity) else u.hum == c.hum.(known := false))
      && (if Pressure in data.valid then HoldsPressure(u.press, data.pressure) else u.press == c.press.(known := false))
      && (AirQuality in data.valid && ready.co2First ==> u.co2 == Sensor(data.eco2, true, c.co2.notify))
      && (AirQuality in data.valid && ready.tvocFirst ==> u.tvoc == Sensor(data.tvoc, true, c.tvoc.notify))
  {
    UpdateSplits(r, c, data, ready);
    StoredClimate(r, c, data);
    UpdateStoresGases(r, c, data, ready);
  }

  /** What a successful update makes of each gas: the measured value for valid air quality met with a
      yes, 0xFFFF when the last question was answered no, and unknown otherwise. */
  lemma UpdateStoresGases(r: Rounding, c: Cache, data: Snapshot, ready: Readiness)
    requires Update(r, c, data, ready).ret == 0
    ensures
      var u, valid := Update(r, c, data, ready).cache, AirQuality in data.valid;
      && u.co2 == (if valid && ready.co2First then Sensor(data.eco2, true, c.co2.notify)
                   else if !ready.co2Again then Sensor(0xFFFF, true, c.co2.notify) else c.co2.(known := false))
      && u.tvoc == (if valid && ready.tvocFirst then Sensor(data.tvoc, true, c.tvoc.notify)
                    else if !ready.tvocAgain then Sensor(0xFFFF, true, c.tvoc.notify) else c.tvoc.(known := false))
  {
    UpdateSplits(r, c, data, ready);
  }

  /** An update succeeds exactly when every valid reading passes its own gate, the gases' gates being
      asked only of a ready sensor. */
  lemma UpdateSucceedsIff(r: Rounding, c: Cache, data: Snapshot, ready: Readiness)
    ensures
      Update(r, c, data, ready).ret == 0 <==>
        && (Temperature in data.valid ==> TemperatureInRange(r, data.temperature))
        && (Humidity in data.valid ==> HumidityInRange(data.humidity))
        && (Pressure in data.valid ==> PressureInRange(data.pressure))
        && (AirQuality in data.valid && ready.co2First ==> 400 <= data.eco2 <= 5000 && data.tvoc <= 32767)
  {
    UpdateSplits(r, c, data, ready);
  }

  /** What a read leaves in the cache and hands out, characteristic by characteristic. */
  ghost predicate ReadMeasured(c: Cache, ch: Char, f: Fetch) {
    match ch
    case TempChar => Temperature in f.data.valid && HoldsTemperature(c.temp, f.data.temperature)
    case HumChar => Humidity in f.data.valid && HoldsHumidity(c.hum, f.data.humidity)
    case PressChar => Pressure in f.data.valid && HoldsPressure(c.press, f.data.pressure)
    case Co2Char => c.co2.known && c.co2.value == if f.gasReady then f.data.eco2 else 0xFFFF
    case TvocChar => c.tvoc.known && c.tvoc.value == if f.gasReady then f.data.tvoc else 0xFFFF
  }

  /** A read that succeeds leaves in the cache what was measured, or 0xFFFF for a gas that is not ready,
      and hands out its low bytes first, two of them or four for pressure. */
  lemma ReadReturnsMeasured(r: Rounding, c: Cache, ch: Char, f: Fetch)
    requires Read(r, c, ch, f).ret >= 0
    ensures ReadMeasured(Read(r, c, ch, f).cache, ch, f)
    ensures WireOf(ch, At(Read(r, c, ch, f).cache, ch).value, Read(r, c, ch, f).bytes)
  {
    var s := Read(r, c, ch, f);
    ReadReturnsFetched(r, c, ch, f);
    WireIsWireOf(ch, At(s.cache, ch).value);
    if ch.Co2Char? || ch.TvocChar? {
    } else {
      ReadClimateOwn(r, c, ch, f);
      match ch {
        case TempChar => EncodedTemperatureHolds(r, f.data, s.cache.temp);
        case HumChar => EncodedHumidityHolds(r, f.data, s.cache.hum);
        case PressChar => EncodedPressureHolds(r, f.data, s.cache.press);
        case _ =>
      }
    }
  }

  /** A gas read whose fresh sensor read failed still answers the valid snapshot it finds. */
  lemma FailedAirReadAnswersSnapshot(r: Rounding, c: Cache, ch: Char, snap: Snapshot, air: C.ReadResult, localCo2: nat, localTvoc: nat)
    requires (ch.Co2Char? || ch.TvocChar?) && air.ret != 0
    requires AirQuality in snap.valid && 400 <= snap.eco2 <= 5000 && snap.tvoc <= 1187
    ensures
      var s := Read(r, c, ch, Fetch(0, 0, StoreBleAir(snap, air, localCo2, localTvoc), None, true));
      s.ret == 2 && s.bytes == if ch.Co2Char? then [snap.eco2 % 256, snap.eco2 / 256] else [snap.tvoc % 256, snap.tvoc / 256]
  {
    BleAirStoresOrKeeps(snap, air, localCo2, localTvoc);
    WireIsWireOf(Co2Char, snap.eco2);
    WireIsWireOf(TvocChar, snap.tvoc);
  }

  lemma ReadClimateOwn(r: Rounding, c: Cache, ch: Char, f: Fetch)
    requires (ch.TempChar? || ch.HumChar? || ch.PressChar?) && ReadClimate(r, c, ch, f).ret >= 0
    ensures
      var s := At(ReadClimate(r, c, ch, f).cache, ch);
      Valid(f.data, ch) && InRange(r, f.data, ch) && s.known && s.value == Encoded(r, f.data, ch)
  {
    ReadClimateStores(r, c, ch, f);
    DirectStoreOwn(r, Pushed(r, c, f).cache, f.data, ch);
  }

  /** A successful temperature or humidity read stores the other of the two as well. */
  lemma ReadStoresBoth(r: Rounding, c: Cache, ch: Char, f: Fetch)
    requires (ch.TempChar? || ch.HumChar?) && ReadClimate(r, c, ch, f).ret >= 0
    ensures
      var u := ReadClimate(r, c, ch, f).cache;
      && (if Temperature in f.data.valid && TemperatureInRange(r, f.data.temperature)
          then HoldsTemperature(u.temp, f.data.temperature) else !u.temp.known)
      && (if Humidity in f.data.valid && HumidityInRange(f.data.humidity)
          then HoldsHumidity(u.hum, f.data.humidity) else !u.hum.known)
  {
    var o, u := Pushed(r, c, f), ReadClimate(r, c, ch, f).cache;
    ReadClimateStores(r, c, ch, f);
    BothStored(r, o.cache, f.data, ch);
    if InRange(r, f.data, TempChar) && Temperature in f.data.valid {
      EncodedTemperatureHolds(r, f.data, u.temp);
    }
    if InRange(r, f.data, HumChar) && Humidity in f.data.valid {
      EncodedHumidityHolds(r, f.data, u.hum);
    }
  }

  lemma BothStored(r: Rounding, c: Cache, data: Snapshot, ch: Char)
    requires (ch.TempChar? || ch.HumChar?) && StoreErrno(r, data, ch) == 0
    ensures
      var u := DirectStore(r, c, data, ch);
      && u.temp == Store(r, c, data, TempChar).temp && u.hum == Store(r, c, data, HumChar).hum
  {
  }

  /** The wire bytes of `v`, low byte first; a negative value in two's complement. */
  predicate WireOf(ch: Char, v: int, bytes: seq<byte>) {
    if ch.PressChar? then
      0 <= v < 0x1_0000_0000 ==> bytes == [v % 256, v / 256 % 256, v / 0x1_0000 % 256, v / 0x100_0000]
    else
      && (0 <= v < 0x1_0000 ==> bytes == [v % 256, v / 256])
      && (-0x8000 <= v < 0 ==> bytes == [(v + 0x1_0000) % 256, (v + 0x1_0000) / 256])
  }

  lemma WireIsWireOf(ch: Char, v: int)
    ensures WireOf(ch, v, Wire(ch, v))
  {
    Masked(v);
    if 0 <= v {
      LowByteFirst(v);
    } else if -0x8000 <= v {
      LowByteFirst(v + 0x1_0000);
    }
  }

  /** Which error a failing read answers: "out of range" (0xFF) when a foreign call said -ERANGE or its
      valid reading is out of range, "value not allowed" (0x13) otherwise. */
  lemma ReadErrorCode(r: Rounding, c: Cache, ch: Char, f: Fetch)
    requires Read(r, c, ch, f).ret < 0
    ensures
      var climate := ch.TempChar? || ch.HumChar? || ch.PressChar?;
      var errno := if climate && f.updateRet != 0 then f.updateRet else f.getRet;
      Read(r, c, ch, f).ret ==
        if errno == -34 || (errno == 0 && Valid(f.data, ch) && !InRange(r, f.data, ch)) then -0xFF else -0x13
  {
    WireIsNotEmpty(ch, UNKNOWN_U16);
    WireIsNotEmpty(ch, Encoded(r, f.data, ch));
  }

  /** Before any event nothing is known, nobody is subscribed, and the codes are those for "value not
      known" (the pressure format has none). */
  lemma InitialCache(ch: Char)
    ensures !At(INITIAL, ch).known && !At(INITIAL, ch).notify
    ensures Wire(ch, At(INITIAL, ch).value) ==
      match ch
      case TempChar => [0x00, 0x80]
      case PressChar => [0, 0, 0, 0]
      case _ => [0xFF, 0xFF]
  {
    WireIsWireOf(ch, At(INITIAL, ch).value);
  }

  /** A subscription changes its own characteristic's switch and nothing else. */
  lemma SubscriptionMeans(r: Rounding, c: Cache, ch: Char, on: bool, other: Char)
    ensures
      var (c1, notes) := Handle(r, c, Ccc(ch, on));
      && notes == []
      && At(c1, other) == if other == ch then Sensor(At(c, ch).value, At(c, ch).known, on) else At(c, other)
  {
  }

  // ---------------------------------------------------------------- read and push agree

  ghost predicate EarlierBad(r: Rounding, data: Snapshot, ch: Char) {
    match ch
    case TempChar => false
    case HumChar => Bad(r, data, TempChar)
    case PressChar => Bad(r, data, TempChar) || Bad(r, data, HumChar)
    case _ => false
  }

  lemma UpdateStored(r: Rounding, c: Cache, data: Snapshot, ready: Readiness, ch: Char)
    requires ch.TempChar? || ch.HumChar? || ch.PressChar?
    requires !EarlierBad(r, data, ch)
    ensures At(Update(r, c, data, ready).cache, ch) == At(Store(r, c, data, ch), ch)
  {
    var o := UpdateClimate(r, c, data);
    ClimateFailure(r, c, data);
    GasFailure(r, o, data, ready);
    StoreElsewhere(r, c, data);
  }

  lemma StoreAgain(r: Rounding, u: Cache, c: Cache, data: Snapshot, ch: Char)
    requires At(u, ch) == At(Store(r, c, data, ch), ch)
    ensures Store(r, u, data, ch) == u
  {
  }

  lemma DirectStoreAfterUpdate(r: Rounding, c: Cache, data: Snapshot, ready: Readiness, ch: Char)
    requires ch.TempChar? || ch.HumChar? || ch.PressChar?
    requires !EarlierBad(r, data, ch)
    ensures
      var u := Update(r, c, data, ready).cache;
      DirectStore(r, u, data, ch) == u
  {
    var u := Update(r, c, data, ready).cache;
    UpdateStored(r, c, data, ready, ch);
    StoreAgain(r, u, c, data, ch);
    if ch.HumChar? {
      UpdateStored(r, c, data, ready, TempChar);
      StoreAgain(r, u, c, data, TempChar);
    } else if ch.TempChar? && StoreErrno(r, data, TempChar) == 0 {
      UpdateStored(r, c, data, ready, HumChar);
      StoreAgain(r, u, c, data, HumChar);
    }
  }

  /** The store of a temperature, humidity or pressure read repeats what the callback just did, for
      every cache the service can hold, exactly when no characteristic before it made the callback
      stop early. */
  lemma ReadAgreesWithPush(r: Rounding, data: Snapshot, ready: Readiness, ch: Char)
    requires ch.TempChar? || ch.HumChar? || ch.PressChar?
    ensures
      (forall c :: CacheOk(c) ==> DirectStore(r, Update(r, c, data, ready).cache, data, ch) == Update(r, c, data, ready).cache)
      <==> !EarlierBad(r, data, ch)
  {
    if EarlierBad(r, data, ch) {
      var c := Known(INITIAL, ch, OtherValue(r, data, ch));
      KnownKeepsOk(INITIAL, ch, OtherValue(r, data, ch));
      SkippedStoreDiffers(r, c, data, ready, ch);
    } else {
      forall c | CacheOk(c)
        ensures DirectStore(r, Update(r, c, data, ready).cache, data, ch) == Update(r, c, data, ready).cache
      {
        DirectStoreAfterUpdate(r, c, data, ready, ch);
      }
    }
  }

  /** A value of humidity or pressure in its range that is not the one in the snapshot. */
  function OtherValue(r: Rounding, data: Snapshot, ch: Char): (v: int)
    ensures v != Encoded(r, data, ch) && (ch.HumChar? || ch.PressChar? ==> KnownOk(ch, v))
  {
    var low := if ch.PressChar? then PRESS_MIN else 0;
    if Encoded(r, data, ch) == low then low + 1 else low
  }

  /** Past an earlier out-of-range reading the callback has not touched `ch`. */
  lemma SkippedUntouched(r: Rounding, c: Cache, data: Snapshot, ready: Readiness, ch: Char)
    requires EarlierBad(r, data, ch)
    ensures At(Update(r, c, data, ready).cache, ch) == At(c, ch)
  {
    ClimateFailure(r, c, data);
    GasFailure(r, UpdateClimate(r, c, data), data, ready);
  }

  lemma SkippedStoreDiffers(r: Rounding, c: Cache, data: Snapshot, ready: Readiness, ch: Char)
    requires EarlierBad(r, data, ch) && At(c, ch).known && At(c, ch).value != Encoded(r, data, ch)
    ensures
      var u := Update(r, c, data, ready).cache;
      DirectStore(r, u, data, ch) != u
  {
    SkippedUntouched(r, c, data, ready, ch);
    var u := Update(r, c, data, ready).cache;
    assert At(DirectStore(r, u, data, ch), ch) == At(Store(r, u, data, ch), ch);
  }

  // ---------------------------------------------------------------- the notification mirror

  /** The notifications of one characteristic, in order. */
  function For(notes: seq<Note>, ch: Char): seq<Note> {
    if notes == [] then []
    else (if notes[0].ch == ch then [notes[0]] else []) + For(notes[1..], ch)
  }

  lemma ForCons(n: Note, notes: seq<Note>, ch: Char)
    ensures For([n] + notes, ch) == (if n.ch == ch then [n] else []) + For(notes, ch)
  {
    assert ([n] + notes)[1..] == notes;
  }

  lemma Assoc(a: seq<Note>, b: seq<Note>, c: seq<Note>)
    ensures (a + b) + c == a + (b + c)
  {
  }

  lemma {:induction false} ForAppend(a: seq<Note>, b: seq<Note>, ch: Char)
    ensures For(a + b, ch) == For(a, ch) + For(b, ch)
  {
    if a == [] {
      assert a + b == b;
    } else {
      var n, rest := a[0], a[1..];
      assert a == [n] + rest;
      ForAppend(rest, b, ch);
      ForCons(n, rest, ch);
      ForCons(n, rest + b, ch);
      Assoc([n], rest, b);
      Assoc(if n.ch == ch then [n] else [], For(rest, ch), For(b, ch));
    }
  }

  lemma ForOne(notes: seq<Note>, n: Note, ch: Char)
    ensures For(notes + [n], ch) == if n.ch == ch then For(notes, ch) + [n] else For(notes, ch)
  {
    ForAppend(notes, [n], ch);
    assert For([n], ch) == if n.ch == ch then [n] else [] by {
      assert [n][1..] == [];
    }
  }

  lemma BytesInjective16(v: int, w: int)
    requires 0 <= v < 0x1_0000 && 0 <= w < 0x1_0000
    ensures ToLe(v, 2) == ToLe(w, 2) <==> v == w
  {
    assert Pow256(2) == 0x1_0000;
    LeInjective(v, w, 2);
  }

  lemma BytesInjective32(v: int, w: int)
    requires 0 <= v < 0x1_0000_0000 && 0 <= w < 0x1_0000_0000
    ensures ToLe(v, 4) == ToLe(w, 4) <==> v == w
  {
    assert Pow256(4) == 256 * Pow256(3) && Pow256(3) == 256 * Pow256(2) && Pow256(2) == 0x1_0000;
    LeInjective(v, w, 4);
  }

  lemma Masked(v: int)
    ensures 0 <= v < 0x1_0000 ==> v % 0x1_0000 == v
    ensures -0x8000 <= v < 0 ==> v % 0x1_0000 == v + 0x1_0000
    ensures 0 <= v < 0x1_0000_0000 ==> v % 0x1_0000_0000 == v
  {
  }

  lemma WireInjectiveUnsigned(ch: Char, v: int, w: int)
    requires !ch.PressChar? && 0 <= v < 0x1_0000 && 0 <= w < 0x1_0000
    ensures Wire(ch, v) == Wire(ch, w) <==> v == w
  {
    Masked(v);
    Masked(w);
    BytesInjective16(v, w);
  }

  lemma WireInjectiveSigned(v: int, w: int)
    requires -0x8000 <= v < 0x8000 && -0x8000 <= w < 0x8000
    ensures Wire(TempChar, v) == Wire(TempChar, w) <==> v == w
  {
    Masked(v);
    Masked(w);
    BytesInjective16(if v < 0 then v + 0x1_0000 else v, if w < 0 then w + 0x1_0000 else w);
  }

  lemma WireInjectiveWide(v: int, w: int)
    requires 0 <= v < 0x1_0000_0000 && 0 <= w < 0x1_0000_0000
    ensures Wire(PressChar, v) == Wire(PressChar, w) <==> v == w
  {
    Masked(v);
    Masked(w);
    BytesInjective32(v, w);
  }

  lemma ComparedInjective(ch: Char, v: int, w: int)
    requires Fits(ch, v) && Fits(ch, w)
    ensures Compared(ch, v) == Compared(ch, w) <==> v == w
  {
  }

  /** The 16- and 32-bit comparisons see a change exactly when the bytes change. */
  lemma ChangeIsByteChange(ch: Char, v: int, w: int)
    requires Fits(ch, v) && Fits(ch, w)
    ensures Compared(ch, v) == Compared(ch, w) <==> Wire(ch, v) == Wire(ch, w)
    ensures Wire(ch, v) == Wire(ch, w) <==> v == w
  {
    ComparedInjective(ch, v, w);
    match ch
    case TempChar => WireInjectiveSigned(v, w);
    case PressChar => WireInjectiveWide(v, w);
    case _ => WireInjectiveUnsigned(ch, v, w);
  }

  /** What subscribers of `ch` must have been sent while its value went from `before` to `after`. */
  function Due(before: Sensor, after: Sensor, ch: Char): seq<Note> {
    if before.notify && Wire(ch, before.value) != Wire(ch, after.value) then [Note(ch, Wire(ch, after.value))] else []
  }

  /** Halfway through an update of `c`: the characteristics in `todo` are as they were, and of each
      one exactly the due notifications have been sent. */
  ghost predicate Halfway(c: Cache, o: Outcome, todo: set<Char>) {
    && CacheOk(c) && CacheOk(o.cache)
    && (forall ch :: At(o.cache, ch).notify == At(c, ch).notify)
    && (forall ch :: ch in todo ==> At(o.cache, ch) == At(c, ch))
    && (forall ch :: For(o.notes, ch) == Due(At(c, ch), At(o.cache, ch), ch))
  }

  lemma PushHalfway(c: Cache, o: Outcome, todo: set<Char>, ch: Char, v: int)
    requires Halfway(c, o, todo) && ch in todo && KnownOk(ch, v)
    ensures Halfway(c, Push(o, ch, v), todo - {ch})
  {
    KnownFits(ch, v);
    KnownKeepsOk(o.cache, ch, v);
    ChangeIsByteChange(ch, At(c, ch).value, v);
    var p := Push(o, ch, v);
    forall other ensures At(p.cache, other) == if other == ch then At(c, ch).(value := v, known := true) else At(o.cache, other) {
      PutGet(o.cache, ch, other, At(o.cache, ch).(value := v, known := true));
    }
    forall other ensures For(p.notes, other) == Due(At(c, other), At(p.cache, other), other) {
      ForOne(o.notes, Note(ch, Wire(ch, v)), other);
    }
  }

  lemma DropHalfway(c: Cache, o: Outcome, todo: set<Char>, ch: Char)
    requires Halfway(c, o, todo)
    ensures Halfway(c, Drop(o, ch), todo - {ch})
  {
    InvalidateKeepsOk(o.cache, ch);
    forall other ensures At(Drop(o, ch).cache, other) == if other == ch then At(o.cache, ch).(known := false) else At(o.cache, other) {
      PutGet(o.cache, ch, other, At(o.cache, ch).(known := false));
    }
  }

  lemma UpdateOneHalfway(r: Rounding, c: Cache, o: Outcome, data: Snapshot, todo: set<Char>, ch: Char)
    requires Halfway(c, o, todo) && ch in todo
    ensures Halfway(c, UpdateOne(r, o, data, ch), todo - {ch})
  {
    DropHalfway(c, o, todo, ch);
    if InRange(r, data, ch) {
      EncodedOk(r, data, ch);
      PushHalfway(c, o, todo, ch, Encoded(r, data, ch));
    }
  }

  lemma Co2Halfway(r: Rounding, c: Cache, o: Outcome, data: Snapshot, ready: Readiness)
    requires Halfway(c, o, {Co2Char, TvocChar})
    ensures
      var o1 := UpdateCo2(r, o, data, ready);
      Halfway(c, o1, if o1.ret == 0 then {TvocChar} else {})
  {
    var todo := {Co2Char, TvocChar};
    DropHalfway(c, o, todo, Co2Char);
    DropHalfway(c, Drop(o, Co2Char), todo - {Co2Char}, TvocChar);
    PushHalfway(c, o, todo, Co2Char, UNKNOWN_U16);
    if Co2InRange(data.eco2) {
      PushHalfway(c, o, todo, Co2Char, data.eco2);
    }
    assert todo - {Co2Char} == {TvocChar};
  }

  lemma TvocHalfway(r: Rounding, c: Cache, o: Outcome, data: Snapshot, ready: Readiness)
    requires Halfway(c, o, {TvocChar})
    requires AirQuality in data.valid && ready.tvocFirst ==> TvocInRange(data.tvoc)
    ensures Halfway(c, UpdateTvoc(o, data, ready), {})
  {
    DropHalfway(c, o, {TvocChar}, TvocChar);
    PushHalfway(c, o, {TvocChar}, TvocChar, UNKNOWN_U16);
    if TvocInRange(data.tvoc) {
      PushHalfway(c, o, {TvocChar}, TvocChar, data.tvoc);
    }
  }

  lemma UpdateGasHalfway(r: Rounding, c: Cache, o: Outcome, data: Snapshot, ready: Readiness)
    requires Halfway(c, o, {Co2Char, TvocChar}) && Checked(data, ready)
    ensures Halfway(c, UpdateTvoc(UpdateCo2(r, o, data, ready), data, ready), {})
  {
    Co2Halfway(r, c, o, data, ready);
    var o1 := UpdateCo2(r, o, data, ready);
    if o1.ret == 0 {
      TvocHalfway(r, c, o1, data, ready);
    }
  }

  /** In one update that checks what it stores, a subscribed characteristic is notified exactly when its
      wire bytes change, once, with the new bytes; one that is not subscribed is never notified. */
  lemma NotifiedIffChanged(r: Rounding, c: Cache, data: Snapshot, ready: Readiness, ch: Char)
    requires CacheOk(c) && Checked(data, ready)
    ensures
      var o := Update(r, c, data, ready);
      && For(o.notes, ch) == Due(At(c, ch), At(o.cache, ch), ch)
      && At(o.cache, ch).notify == At(c, ch).notify
  {
    var o0 := Outcome(c, [], 0);
    var todo := {TempChar, HumChar, PressChar, Co2Char, TvocChar};
    assert Halfway(c, o0, todo);
    UpdateOneHalfway(r, c, o0, data, todo, TempChar);
    var o1 := UpdateOne(r, o0, data, TempChar);
    UpdateOneHalfway(r, c, o1, data, todo - {TempChar}, HumChar);
    var o2 := UpdateOne(r, o1, data, HumChar);
    UpdateOneHalfway(r, c, o2, data, todo - {TempChar} - {HumChar}, PressChar);
    var o3 := UpdateOne(r, o2, data, PressChar);
    assert Halfway(c, o3, {Co2Char, TvocChar}) by {
      assert todo - {TempChar} - {HumChar} - {PressChar} == {Co2Char, TvocChar};
    }
    UpdateGasHalfway(r, c, o3, data, ready);
  }

  /** What a subscriber of `ch` holds after these notifications. */
  function Held(bytes: seq<byte>, notes: seq<Note>, ch: Char): seq<byte> {
    var mine := For(notes, ch);
    if mine == [] then bytes else mine[|mine| - 1].bytes
  }

  lemma HeldAppend(bytes: seq<byte>, a: seq<Note>, b: seq<Note>, ch: Char)
    ensures Held(bytes, a + b, ch) == Held(Held(bytes, a, ch), b, ch)
  {
    ForAppend(a, b, ch);
  }

  /** Whether a climate or pressure read of `ch` gets as far as storing `sub`. */
  predicate Reaches(r: Rounding, data: Snapshot, ch: Char, sub: Char) {
    || sub == ch
    || (ch.HumChar? && sub.TempChar?)
    || (ch.TempChar? && sub.HumChar? && StoreErrno(r, data, TempChar) == 0)
  }

  /** The event stores a value of `sub` that subscribers were not told. */
  predicate StoresSilently(r: Rounding, c: Cache, e: Event, sub: Char) {
    match e
    case Callback(_, _) => false
    case Ccc(_, _) => false
    case Gatt(ch, f) =>
      if ch.Co2Char? || ch.TvocChar? then
        sub == ch &&
        (if !f.gasReady then At(c, ch).value != UNKNOWN_U16
         else f.getRet == 0 && Valid(f.data, ch) && InRange(r, f.data, ch) && At(c, ch).value != Encoded(r, f.data, ch))
      else
        && f.updateRet == 0 && f.getRet == 0 && Reaches(r, f.data, ch, sub)
        && Valid(f.data, sub) && InRange(r, f.data, sub)
        && At(Pushed(r, c, f).cache, sub).value != Encoded(r, f.data, sub)
  }

  lemma DirectStoreValue(r: Rounding, c: Cache, data: Snapshot, ch: Char, sub: Char)
    requires ch.TempChar? || ch.HumChar? || ch.PressChar?
    ensures
      var s := At(DirectStore(r, c, data, ch), sub);
      && s.notify == At(c, sub).notify
      && s.value == if Reaches(r, data, ch, sub) && Valid(data, sub) && InRange(r, data, sub)
                    then Encoded(r, data, sub) else At(c, sub).value
  {
  }

  lemma PushedIsTold(r: Rounding, c: Cache, f: Fetch, sub: Char)
    requires CacheOk(c) && (f.pushed.Some? ==> Checked(f.data, f.pushed.value))
    ensures
      var o := Pushed(r, c, f);
      && CacheOk(o.cache) && At(o.cache, sub).notify == At(c, sub).notify
      && For(o.notes, sub) == Due(At(c, sub), At(o.cache, sub), sub)
  {
    PushedKeepsOk(r, c, f);
    if f.pushed.Some? {
      NotifiedIffChanged(r, c, f.data, f.pushed.value, sub);
    }
  }

  lemma ReadValue(r: Rounding, c: Cache, ch: Char, f: Fetch, sub: Char)
    requires ch.TempChar? || ch.HumChar? || ch.PressChar?
    ensures
      var o := Pushed(r, c, f);
      var s := ReadClimate(r, c, ch, f);
      && s.notes == o.notes && At(s.cache, sub).notify == At(o.cache, sub).notify
      && At(s.cache, sub).value ==
           if StoresSilently(r, c, Gatt(ch, f), sub) then Encoded(r, f.data, sub) else At(o.cache, sub).value
  {
    var o := Pushed(r, c, f);
    ReadClimateStores(r, c, ch, f);
    DirectStoreValue(r, o.cache, f.data, ch, sub);
    PutGet(o.cache, ch, sub, At(o.cache, ch).(known := false));
  }

  lemma ToldIsHeld(bytes: seq<byte>, notes: seq<Note>, before: Sensor, after: Sensor, sub: Char)
    requires before.notify && bytes == Wire(sub, before.value) && For(notes, sub) == Due(before, after, sub)
    ensures Held(bytes, notes, sub) == Wire(sub, after.value)
  {
  }

  lemma ReadMirrorsIff(r: Rounding, c: Cache, ch: Char, f: Fetch, sub: Char)
    requires CacheOk(c) && At(c, sub).notify && CheckedEvent(Gatt(ch, f))
    requires ch.TempChar? || ch.HumChar? || ch.PressChar?
    ensures
      var s := ReadClimate(r, c, ch, f);
      && At(s.cache, sub).notify
      && (Held(Wire(sub, At(c, sub).value), s.notes, sub) == Wire(sub, At(s.cache, sub).value)
          <==> !StoresSilently(r, c, Gatt(ch, f), sub))
  {
    PushedIsTold(r, c, f, sub);
    ReadValue(r, c, ch, f, sub);
    ReadClimateKeepsOk(r, c, ch, f);
    var told, final := At(Pushed(r, c, f).cache, sub), At(ReadClimate(r, c, ch, f).cache, sub);
    ToldIsHeld(Wire(sub, At(c, sub).value), Pushed(r, c, f).notes, At(c, sub), told, sub);
    ChangeIsByteChange(sub, told.value, final.value);
    if StoresSilently(r, c, Gatt(ch, f), sub) {
      assert told.value != Encoded(r, f.data, sub);
    }
  }

  /** Exactly which events a subscriber's copy survives: all but those that store a new value of it
      silently. */
  lemma MirrorSurvivesIff(r: Rounding, c: Cache, e: Event, sub: Char)
    requires CacheOk(c) && At(c, sub).notify && CheckedEvent(e) && e != Ccc(sub, false)
    ensures
      var (c1, notes) := Handle(r, c, e);
      && CacheOk(c1) && At(c1, sub).notify
      && (Held(Wire(sub, At(c, sub).value), notes, sub) == Wire(sub, At(c1, sub).value) <==> !StoresSilently(r, c, e, sub))
  {
    EventKeepsOk(r, c, e);
    match e
    case Callback(data, ready) => NotifiedIffChanged(r, c, data, ready, sub);
    case Ccc(ch, on) => PutGet(c, ch, sub, At(c, ch).(notify := on));
    case Gatt(ch, f) =>
      if ch.Co2Char? || ch.TvocChar? {
        GasReadMirrorsIff(r, c, ch, f, sub);
      } else {
        ReadMirrorsIff(r, c, ch, f, sub);
      }
  }

  lemma GasReadValue(r: Rounding, c: Cache, ch: Char, f: Fetch, sub: Char)
    requires ch.Co2Char? || ch.TvocChar?
    ensures
      var s := ReadGas(r, c, ch, f);
      && s.notes == [] && At(s.cache, sub).notify == At(c, sub).notify
      && (At(s.cache, sub).value == At(c, sub).value <==> !StoresSilently(r, c, Gatt(ch, f), sub))
  {
    PutGet(c, ch, sub, At(ReadGas(r, c, ch, f).cache, ch));
  }

  lemma GasReadMirrorsIff(r: Rounding, c: Cache, ch: Char, f: Fetch, sub: Char)
    requires CacheOk(c) && At(c, sub).notify && (ch.Co2Char? || ch.TvocChar?)
    ensures
      var s := ReadGas(r, c, ch, f);
      && s.notes == [] && At(s.cache, sub).notify
      && (Wire(sub, At(c, sub).value) == Wire(sub, At(s.cache, sub).value) <==> !StoresSilently(r, c, Gatt(ch, f), sub))
  {
    GasReadValue(r, c, ch, f, sub);
    ReadKeepsOk(r, c, ch, f.(pushed := None));
    ChangeIsByteChange(sub, At(c, sub).value, At(ReadGas(r, c, ch, f).cache, sub).value);
  }

  /** The subscriber's copy agrees with the cache before, between and after the events. */
  ghost predicate Follows(r: Rounding, c: Cache, bytes: seq<byte>, es: seq<Event>, sub: Char)
    decreases |es|
  {
    && bytes == Wire(sub, At(c, sub).value)
    && (es == [] || Follows(r, Handle(r, c, es[0]).0, Held(bytes, Handle(r, c, es[0]).1, sub), es[1..], sub))
  }

  predicate NeverSilent(r: Rounding, c: Cache, es: seq<Event>, sub: Char)
    decreases |es|
  {
    es == [] || (!StoresSilently(r, c, es[0], sub) && NeverSilent(r, Handle(r, c, es[0]).0, es[1..], sub))
  }

  /** Over every run of updates, reads and subscription changes during which it stays subscribed, a
      subscriber that starts from the cached value follows the cache all along exactly when no event
      of the run stores silently. */
  lemma {:induction false} SubscriberFollowsIff(r: Rounding, c: Cache, es: seq<Event>, sub: Char)
    requires CacheOk(c) && At(c, sub).notify
    requires forall e :: e in es ==> CheckedEvent(e) && e != Ccc(sub, false)
    ensures Follows(r, c, Wire(sub, At(c, sub).value), es, sub) <==> NeverSilent(r, c, es, sub)
    decreases |es|
  {
    if es != [] {
      assert es[0] in es && forall e :: e in es[1..] ==> e in es;
      MirrorSurvivesIff(r, c, es[0], sub);
      SubscriberFollowsIff(r, Handle(r, c, es[0]).0, es[1..], sub);
    }
  }

  /** An event that never stores silently, whatever the cache: an update, a subscription, a climate
      or pressure read that fails, or one that ran its own callback and is not past an earlier
      out-of-range reading. */
  ghost predicate Mirrored(r: Rounding, e: Event) {
    && CheckedEvent(e)
    && (e.Gatt? ==>
          && (e.ch.TempChar? || e.ch.HumChar? || e.ch.PressChar?)
          && (e.f.updateRet != 0 || e.f.getRet != 0 || (e.f.pushed.Some? && !EarlierBad(r, e.f.data, e.ch))))
  }

  lemma MirroredIsNotSilent(r: Rounding, c: Cache, e: Event, sub: Char)
    requires Mirrored(r, e)
    ensures !StoresSilently(r, c, e, sub)
  {
    if e.Gatt? && e.f.updateRet == 0 && e.f.getRet == 0 {
      DirectStoreAfterUpdate(r, c, e.f.data, e.f.pushed.value, e.ch);
      DirectStoreValue(r, Pushed(r, c, e.f).cache, e.f.data, e.ch, sub);
    }
  }

  /** So a subscriber holds the cached value after every run of such events. */
  lemma {:induction false} SubscriberMirrorsCache(r: Rounding, c: Cache, es: seq<Event>, sub: Char)
    requires CacheOk(c) && At(c, sub).notify
    requires forall e :: e in es ==> Mirrored(r, e) && e != Ccc(sub, false)
    ensures
      var (c1, notes) := HandleAll(r, c, es);
      Held(Wire(sub, At(c, sub).value), notes, sub) == Wire(sub, At(c1, sub).value)
    decreases |es|
  {
    if es != [] {
      var (c1, n1) := Handle(r, c, es[0]);
      var (c2, n2) := HandleAll(r, c1, es[1..]);
      assert es[0] in es && forall e :: e in es[1..] ==> e in es;
      MirroredIsNotSilent(r, c, es[0], sub);
      MirrorSurvivesIff(r, c, es[0], sub);
      SubscriberMirrorsCache(r, c1, es[1..], sub);
      HeldAppend(Wire(sub, At(c, sub).value), n1, n2, sub);
    }
  }

  /** A humidity or pressure read past an earlier out-of-range reading keeps the mirror exactly when
      its own reading is bad or missing, or encodes to the value that was cached. */
  lemma SkippedReadMirrorsIffSame(r: Rounding, c: Cache, ch: Char, f: Fetch)
    requires CacheOk(c) && At(c, ch).notify && CheckedEvent(Gatt(ch, f))
    requires f.updateRet == 0 && f.getRet == 0 && f.pushed.Some? && EarlierBad(r, f.data, ch)
    ensures
      var (c1, notes) := Handle(r, c, Gatt(ch, f));
      Held(Wire(ch, At(c, ch).value), notes, ch) == Wire(ch, At(c1, ch).value)
      <==> !Valid(f.data, ch) || !InRange(r, f.data, ch) || At(c, ch).value == Encoded(r, f.data, ch)
  {
    MirrorSurvivesIff(r, c, Gatt(ch, f), ch);
    SkippedUntouched(r, c, f.data, f.pushed.value, ch);
  }

  /** It happens: humidity 40 % is cached and known to its subscriber; a humidity read then finds 50 %
      and a temperature of 400 degrees. The callback stops at the temperature, the read stores the
      humidity, and the subscriber is not told. */
  lemma SkippedReadLosesSubscriber(r: Rounding)
    ensures
      var ready := Readiness(true, true, true, true);
      var before := ZEROED.(humidity := Fin(40.0), valid := {Humidity});
      var after := ZEROED.(temperature := Fin(400.0), humidity := Fin(50.0), valid := {Temperature, Humidity});
      var c := HandleAll(r, INITIAL, [Ccc(HumChar, true), Callback(before, ready)]).0;
      var u := Update(r, c, after, ready).cache;
      var (c1, notes) := Handle(r, c, Gatt(HumChar, Fetch(0, 0, after, Some(ready), true)));
      && CacheOk(c) && At(c, HumChar).notify
      && DirectStore(r, u, after, HumChar) != u
      && Held(Wire(HumChar, At(c, HumChar).value), notes, HumChar) != Wire(HumChar, At(c1, HumChar).value)
  {
    var ready := Readiness(true, true, true, true);
    var before := ZEROED.(humidity := Fin(40.0), valid := {Humidity});
    var after := ZEROED.(temperature := Fin(400.0), humidity := Fin(50.0), valid := {Temperature, Humidity});
    var es := [Ccc(HumChar, true), Callback(before, ready)];
    var c0 := SetNotify(INITIAL, HumChar, true);
    CacheStaysOk(r, INITIAL, es);
    TwoEvents(r, INITIAL, es[0], es[1]);
    var c := HandleAll(r, INITIAL, es).0;
    assert c == Update(r, c0, before, ready).cache;
    UpdateFailure(r, c0, before, ready);
    HumidityAccurate(r, 40.0);
    HumidityAccurate(r, 50.0);
    HotIsOutOfRange(r, after);
    SkippedReadMirrorsIffSame(r, c, HumChar, Fetch(0, 0, after, Some(ready), true));
    SkippedStoreDiffers(r, c, after, ready, HumChar);
  }

  lemma TwoEvents(r: Rounding, c: Cache, e: Event, g: Event)
    ensures HandleAll(r, c, [e, g]).0 == Handle(r, Handle(r, c, e).0, g).0
  {
    var c1 := Handle(r, c, e).0;
    assert [e, g][1..] == [g] && [g][1..] == [];
    assert HandleAll(r, c1, [g]).0 == Handle(r, c1, g).0;
  }

  lemma HotIsOutOfRange(r: Rounding, data: Snapshot)
    requires data.temperature == Fin(400.0) && Temperature in data.valid
    ensures Bad(r, data, TempChar)
  {
    RoundingAt(r, TEMP_MAX as real / 100.0);
  }

  /** A gas read stores without notifying: a subscriber holding the cached bytes still holds them
      afterwards exactly when the value stored is the value that was cached. */
  lemma GasReadMirrorsIffSame(r: Rounding, c: Cache, ch: Char, f: Fetch)
    requires CacheOk(c) && (ch.Co2Char? || ch.TvocChar?)
    ensures
      var (c1, notes) := Handle(r, c, Gatt(ch, f));
      var stored := if !f.gasReady then UNKNOWN_U16
                    else if f.getRet == 0 && Valid(f.data, ch) && InRange(r, f.data, ch) then Encoded(r, f.data, ch)
                    else At(c, ch).value;
      Held(Wire(ch, At(c, ch).value), notes, ch) == Wire(ch, At(c1, ch).value) <==> At(c, ch).value == stored
  {
    ReadKeepsOk(r, c, ch, f.(pushed := None));
    ChangeIsByteChange(ch, At(c, ch).value, At(Read(r, c, ch, f).cache, ch).value);
  }
}
