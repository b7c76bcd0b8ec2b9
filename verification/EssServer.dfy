/** The imperative Environmental Sensing Service: five sensor records updated in place, proved to
    do what `EssService` says, and composed with the sensor manager it reads from. */
module EssServer {
  import opened Common
  import opened Floats
  import opened EssEncode
  import opened Sensors
  import opened EssService

  class EssSensor {
    const ch: Char
    var value: int
    var valueKnown: bool
    var notifyEnabled: bool

    ghost function State(): Sensor
      reads this
    {
      Sensor(value, valueKnown, notifyEnabled)
    }

    constructor (ch: Char)
      ensures this.ch == ch && State() == At(INITIAL, ch)
    {
      this.ch := ch;
      value := match ch case TempChar => UNKNOWN_S16 case PressChar => 0 case _ => UNKNOWN_U16;
      valueKnown, notifyEnabled := false, false;
    }

    method Invalidate()
      modifies `valueKnown
      ensures !valueKnown
    {
      valueKnown := false;
    }

    method Store(v: int)
      modifies `value, `valueKnown
      ensures State() == Sensor(v, true, notifyEnabled)
    {
      value := v;
      valueKnown := true;
    }

    /** `update_sensor_u16`, `_i16` and `_u32`: store, and notify a subscriber of a change. */
    method Update(v: int) returns (notes: seq<Note>)
      modifies `value, `valueKnown
      ensures State() == Sensor(v, true, notifyEnabled)
      ensures notes ==
        if ShouldNotify(ValueChanged, Compared(ch, old(value)), Compared(ch, v), 0) && notifyEnabled then [Note(ch, Wire(ch, v))] else []
    {
      var notify := ShouldNotify(ValueChanged, Compared(ch, value), Compared(ch, v), 0);
      value := v;
      valueKnown := true;
      notes := if notify && notifyEnabled then [Note(ch, Wire(ch, v))] else [];
    }
  }

  class EssServer {
    const r: Rounding
    const manager: SensorManager
    const temperature: EssSensor
    const humidity: EssSensor
    const pressure: EssSensor
    const co2: EssSensor
    const tvoc: EssSensor
    var initialized: bool
    var sent: seq<Note>

    /** The five records are distinct and carry their own characteristic. */
    ghost predicate Valid() {
      && temperature.ch == TempChar && humidity.ch == HumChar && pressure.ch == PressChar
      && co2.ch == Co2Char && tvoc.ch == TvocChar
    }

    ghost function State(): Cache
      reads temperature, humidity, pressure, co2, tvoc
    {
      Cache(temperature.State(), humidity.State(), pressure.State(), co2.State(), tvoc.State())
    }

    constructor (r: Rounding, manager: SensorManager)
      ensures Valid() && this.r == r && this.manager == manager
      ensures State() == INITIAL && sent == [] && !initialized
      ensures fresh(temperature) && fresh(humidity) && fresh(pressure) && fresh(co2) && fresh(tvoc)
    {
      this.r, this.manager := r, manager;
      temperature := new EssSensor(TempChar);
      humidity := new EssSensor(HumChar);
      pressure := new EssSensor(PressChar);
      co2 := new EssSensor(Co2Char);
      tvoc := new EssSensor(TvocChar);
      initialized, sent := false, [];
    }

    /** Service start: the callback is registered unless the manager's lock is not had, and the start
        succeeds either way. */
    method Init(lock: int) returns (ret: int)
      modifies `initialized, manager`registered
      ensures ret == 0 && initialized && manager.registered == (lock == 0 || old(manager.registered))
    {
      initialized := true;
      if lock == 0 {
        manager.registered := true;
      }
      ret := 0;
    }

    /** The service is partway through an update whose outcome so far is `o`. */
    ghost predicate During(o: Outcome, before: seq<Note>)
      reads `sent, temperature, humidity, pressure, co2, tvoc
    {
      State() == o.cache && sent == before + o.notes
    }

    /** The temperature, humidity and pressure blocks of `ess_service_update`. */
    method UpdateReading(sensor: EssSensor, data: Snapshot, ghost o: Outcome, ghost before: seq<Note>) returns (ret: int)
      requires Valid() && (sensor == temperature || sensor == humidity || sensor == pressure)
      requires During(o, before) && o.ret == 0
      modifies `sent, sensor
      ensures During(UpdateOne(r, o, data, sensor.ch), before) && ret == UpdateOne(r, o, data, sensor.ch).ret
    {
      if EssService.Valid(data, sensor.ch) {
        if !InRange(r, data, sensor.ch) {
          sensor.Invalidate();
          return ERANGE;
        }
        var notes := sensor.Update(Encoded(r, data, sensor.ch));
        sent := sent + notes;
      } else {
        sensor.Invalidate();
      }
      ret := 0;
    }

    /** The CO2 block, which also judges the TVOC value. */
    method UpdateCo2(data: Snapshot, ready: Readiness, ghost o: Outcome, ghost before: seq<Note>) returns (ret: int)
      requires Valid() && During(o, before) && o.ret == 0
      modifies `sent, co2, tvoc
      ensures During(EssService.UpdateCo2(r, o, data, ready), before) && ret == EssService.UpdateCo2(r, o, data, ready).ret
    {
      if AirQuality in data.valid && ready.co2First {
        if !Co2InRange(data.eco2) || !TvocInRange(data.tvoc) {
          co2.Invalidate();
          tvoc.Invalidate();
          return ERANGE;
        }
        var notes := co2.Update(data.eco2);
        sent := sent + notes;
      } else if !ready.co2Again {
        var notes := co2.Update(UNKNOWN_U16);
        sent := sent + notes;
      } else {
        co2.Invalidate();
      }
      ret := 0;
    }

    method UpdateTvoc(data: Snapshot, ready: Readiness, ghost o: Outcome, ghost before: seq<Note>)
      requires Valid() && During(o, before) && o.ret == 0
      modifies `sent, tvoc
      ensures During(EssService.UpdateTvoc(o, data, ready), before)
      ensures EssService.UpdateTvoc(o, data, ready).ret == 0
    {
      var notes := [];
      if AirQuality in data.valid && ready.tvocFirst {
        notes := tvoc.Update(data.tvoc);
      } else if !ready.tvocAgain {
        notes := tvoc.Update(UNKNOWN_U16);
      } else {
        tvoc.Invalidate();
      }
      sent := sent + notes;
    }

    method UpdateClimate(data: Snapshot) returns (ret: int)
      requires Valid()
      modifies `sent, temperature, humidity, pressure
      ensures During(EssService.UpdateClimate(r, old(State()), data), old(sent))
      ensures ret == EssService.UpdateClimate(r, old(State()), data).ret
    {
      ghost var before := sent;
      ghost var o := Outcome(State(), [], 0);
      ret := UpdateReading(temperature, data, o, before);
      o := UpdateOne(r, o, data, TempChar);
      if ret == 0 {
        ret := UpdateReading(humidity, data, o, before);
      }
      o := UpdateOne(r, o, data, HumChar);
      if ret == 0 {
        ret := UpdateReading(pressure, data, o, before);
      }
    }

    method Update(data: Snapshot, ready: Readiness) returns (ret: int)
      requires Valid()
      modifies `sent, temperature, humidity, pressure, co2, tvoc
      ensures !initialized ==> ret == ENODEV && State() == old(State()) && sent == old(sent)
      ensures initialized ==>
        var o := EssService.Update(r, old(State()), data, ready);
        State() == o.cache && sent == old(sent) + o.notes && ret == o.ret
    {
      if !initialized {
        return ENODEV;
      }
      ghost var before := sent;
      ghost var o := EssService.UpdateClimate(r, State(), data);
      ret := UpdateClimate(data);
      if ret == 0 {
        ret := UpdateGases(data, ready, o, before);
      }
    }

    method UpdateGases(data: Snapshot, ready: Readiness, ghost o: Outcome, ghost before: seq<Note>) returns (ret: int)
      requires Valid() && During(o, before) && o.ret == 0
      modifies `sent, co2, tvoc
      ensures
        var g := EssService.UpdateTvoc(EssService.UpdateCo2(r, o, data, ready), data, ready);
        During(g, before) && ret == g.ret
    {
      ret := UpdateCo2(data, ready, o, before);
      if ret == 0 {
        UpdateTvoc(data, ready, EssService.UpdateCo2(r, o, data, ready), before);
      }
    }

    /** Store one reading of a fetched snapshot; the errno says why it could not be. */
    method StoreReading(sensor: EssSensor, data: Snapshot) returns (errno: int)
      modifies sensor
      ensures sensor.State() == At(EssService.Store(r, Put(INITIAL, sensor.ch, old(sensor.State())), data, sensor.ch), sensor.ch)
      ensures errno == StoreErrno(r, data, sensor.ch)
    {
      PutGet(INITIAL, sensor.ch, sensor.ch, sensor.State());
      if !EssService.Valid(data, sensor.ch) {
        sensor.Invalidate();
        return ENODATA;
      }
      if !InRange(r, data, sensor.ch) {
        sensor.Invalidate();
        return ERANGE;
      }
      sensor.Store(Encoded(r, data, sensor.ch));
      return 0;
    }

    /** A selective update with the callback it runs at its end. */
    method UpdateAndPush(sensors: set<Flag>, lock: int, io: SensorIo, ready: Readiness, ghost getLock: int)
      returns (ret: int, ghost f: Fetch)
      requires Valid() && !manager.mutexHeld
      modifies `sent, temperature, humidity, pressure, co2, tvoc, manager
      ensures !manager.mutexHeld && manager.initialized == old(manager.initialized)
      ensures
        var u := Sensors.Update(old(manager.State()), sensors, lock, io);
        && f == Fetch(u.ret, getLock, u.snap, if u.pushed != [] && initialized then Some(ready) else None, false)
        && manager.currentData == u.snap && ret == u.ret
      ensures
        var o := Pushed(r, old(State()), f);
        State() == o.cache && sent == old(sent) + o.notes
    {
      var pushed;
      ret, pushed := manager.UpdateSelective(sensors, lock, io);
      f := Fetch(ret, getLock, manager.currentData, if pushed != [] && initialized then Some(ready) else None, false);
      if pushed != [] {
        var _ := Update(pushed[0], ready);
      }
    }

    /** The stores of a temperature or humidity read, in order, up to the failing one it asked for. */
    method StoreTempHumidity(reading: EssSensor, data: Snapshot) returns (errno: int)
      requires Valid() && (reading == temperature || reading == humidity)
      modifies temperature, humidity
      ensures State() == DirectStore(r, old(State()), data, reading.ch)
      ensures errno == StoreErrno(r, data, reading.ch)
    {
      errno := StoreReading(temperature, data);
      if errno != 0 && reading == temperature {
        return;
      }
      errno := StoreReading(humidity, data);
      if reading == temperature {
        errno := 0;
      }
    }

    /** The part of a temperature or humidity read after the manager's update: fetch, store, answer. */
    method ServeTempHumidity(reading: EssSensor, getLock: int) returns (ret: int, bytes: seq<byte>)
      requires Valid() && (reading == temperature || reading == humidity)
      requires !manager.mutexHeld && manager.initialized
      modifies temperature, humidity, manager`mutexHeld
      ensures !manager.mutexHeld
      ensures
        var s := ReadClimate(r, old(State()), reading.ch, Fetch(0, getLock, manager.currentData, None, false));
        State() == s.cache && ret == s.ret && bytes == s.bytes
    {
      var data;
      ret, data := manager.GetData(getLock);
      if ret != 0 {
        reading.Invalidate();
        return AttError(ret), [];
      }
      var errno := StoreTempHumidity(reading, data);
      if errno != 0 {
        return AttError(errno), [];
      }
      if !reading.valueKnown {
        assert false;
        return AttError(ENODATA), [];
      }
      bytes := Wire(reading.ch, reading.value);
      ret := |bytes|;
    }

    /** A temperature or humidity read: the manager samples and runs the callback, then the read
        fetches the snapshot and stores it itself. */
    method ReadTempHumidity(reading: EssSensor, lock: int, io: SensorIo, ready: Readiness, getLock: int)
      returns (ret: int, bytes: seq<byte>, ghost f: Fetch)
      requires Valid() && (reading == temperature || reading == humidity)
      requires !manager.mutexHeld
      modifies `sent, temperature, humidity, pressure, co2, tvoc, manager
      ensures !manager.mutexHeld
      ensures
        var u := Sensors.Update(old(manager.State()), TEMP_HUMIDITY, lock, io);
        && f == Fetch(u.ret, getLock, u.snap, if u.pushed != [] && initialized then Some(ready) else None, false)
        && manager.currentData == u.snap
      ensures
        var s := ReadClimate(r, old(State()), reading.ch, f);
        State() == s.cache && sent == old(sent) + s.notes && ret == s.ret && bytes == s.bytes
    {
      ret, f := UpdateAndPush(TEMP_HUMIDITY, lock, io, ready, getLock);
      if ret != 0 {
        reading.Invalidate();
        return AttError(ret), [], f;
      }
      ReadAfterPush(r, old(State()), reading.ch, f);
      ret, bytes := ServeTempHumidity(reading, getLock);
    }

    method ServePressure(getLock: int) returns (ret: int, bytes: seq<byte>)
      requires Valid() && !manager.mutexHeld && manager.initialized
      modifies pressure, manager`mutexHeld
      ensures !manager.mutexHeld
      ensures
        var s := ReadClimate(r, old(State()), PressChar, Fetch(0, getLock, manager.currentData, None, false));
        State() == s.cache && ret == s.ret && bytes == s.bytes
    {
      var data;
      ret, data := manager.GetData(getLock);
      if ret != 0 {
        pressure.Invalidate();
        return AttError(ret), [];
      }
      var errno := StoreReading(pressure, data);
      if errno != 0 {
        return AttError(errno), [];
      }
      bytes := Wire(PressChar, pressure.value);
      ret := |bytes|;
    }

    method ReadPressure(lock: int, io: SensorIo, ready: Readiness, getLock: int)
      returns (ret: int, bytes: seq<byte>, ghost f: Fetch)
      requires Valid() && !manager.mutexHeld
      modifies `sent, temperature, humidity, pressure, co2, tvoc, manager
      ensures !manager.mutexHeld
      ensures
        var u := Sensors.Update(old(manager.State()), {Pressure}, lock, io);
        && f == Fetch(u.ret, getLock, u.snap, if u.pushed != [] && initialized then Some(ready) else None, false)
        && manager.currentData == u.snap
      ensures
        var s := ReadClimate(r, old(State()), PressChar, f);
        State() == s.cache && sent == old(sent) + s.notes && ret == s.ret && bytes == s.bytes
    {
      ret, f := UpdateAndPush({Pressure}, lock, io, ready, getLock);
      if ret != 0 {
        pressure.Invalidate();
        return AttError(ret), [], f;
      }
      ReadAfterPush(r, old(State()), PressChar, f);
      ret, bytes := ServePressure(getLock);
    }

    /** A CO2 or TVOC read. `air` is what the CCS811 driver made of the read the manager starts. */
    method ReadGas(reading: EssSensor, gasReady: bool, air: C.ReadResult, localCo2: nat, localTvoc: nat, getLock: int)
      returns (ret: int, bytes: seq<byte>)
      requires Valid() && (reading == co2 || reading == tvoc)
      requires !manager.mutexHeld
      modifies reading, manager
      ensures !manager.mutexHeld
      ensures manager.currentData ==
        if gasReady && manager.initialized
        then StoreBleAir(old(manager.currentData), air, localCo2, localTvoc) else old(manager.currentData)
      ensures air.ret != 0 ==> manager.currentData == old(manager.currentData)
      ensures
        var getRet := if manager.initialized then getLock else EINVAL;
        var s := EssService.ReadGas(r, old(State()), reading.ch, Fetch(0, getRet, manager.currentData, None, gasReady));
        State() == s.cache && s.notes == [] && ret == s.ret && bytes == s.bytes
    {
      if !gasReady {
        reading.Store(UNKNOWN_U16);
      } else {
        manager.UpdateAirQualityForBle(air, localCo2, localTvoc);
        var data;
        ret, data := manager.GetData(getLock);
        if ret != 0 || AirQuality !in data.valid {
          reading.Invalidate();
          return AttError(if ret != 0 then ret else ENODATA), [];
        }
        if !InRange(r, data, reading.ch) {
          reading.Invalidate();
          return AttError(ERANGE), [];
        }
        reading.Store(Encoded(r, data, reading.ch));
      }
      bytes := Wire(reading.ch, reading.value);
      ret := |bytes|;
    }

    method CccChanged(sensor: EssSensor, value: int)
      modifies sensor`notifyEnabled
      ensures sensor.notifyEnabled == (value == 1)
    {
      sensor.notifyEnabled := value == 1;
    }

    /** What this answer tells a caller is `EssService.GetterTellsKnown`. */
    method Get(sensor: EssSensor) returns (v: int)
      ensures v == Getter(sensor.State())
    {
      v := if sensor.valueKnown then sensor.value else ENODATA;
    }
  }
}
