/** The sensor manager: the snapshot of readings with its validity mask, the connection counter,
    and the object that owns both. */
module Sensors {
  import opened Common
  import opened Floats
  import opened Ccs811

  datatype Flag = Temperature | Humidity | Pressure | AirQuality | Battery

  const TEMP_HUMIDITY: set<Flag> := {Temperature, Humidity}
  const ENV_BASIC: set<Flag> := {Temperature, Humidity, Pressure, Battery}
  const ALL: set<Flag> := {Temperature, Humidity, Pressure, AirQuality, Battery}

  datatype Snapshot = Snapshot(
    temperature: Float,
    humidity: Float,
    pressure: Float,
    eco2: nat,
    tvoc: nat,
    level: nat,
    charging: bool,
    timestamp: int,
    valid: set<Flag>)

  const ZEROED := Snapshot(Fin(0.0), Fin(0.0), Fin(0.0), 0, 0, 0, false, 0, {})

  /** What the other drivers answer during one update. `level` is negative on failure. */
  datatype SensorIo = SensorIo(
    now: int,
    climateRet: int, temperature: Float, humidity: Float,
    pressureRet: int, pressure: Float,
    air: ReadResult,
    level: int, charging: bool)

  /** The sensor's ranges. */
  predicate Eco2Ok(ppm: nat) { ECO2_MIN <= ppm <= ECO2_MAX }
  predicate TvocOk(ppb: nat) { TVOC_MIN <= ppb <= TVOC_MAX }

  function StoreClimate(s: Snapshot, io: SensorIo): Snapshot {
    if io.climateRet == 0
    then s.(temperature := io.temperature, humidity := io.humidity, valid := s.valid + TEMP_HUMIDITY)
    else s.(valid := s.valid - TEMP_HUMIDITY)
  }

  function StorePressure(s: Snapshot, io: SensorIo): Snapshot {
    if io.pressureRet == 0
    then s.(pressure := io.pressure, valid := s.valid + {Pressure})
    else s.(valid := s.valid - {Pressure})
  }

  /** `read_air_quality`: each good value is kept, the flag is set only when both are good. An
      output the driver did not write counts as 0, which the eCO2 check rejects. */
  function StoreAir(s: Snapshot, r: ReadResult): Snapshot {
    if r.ret != 0 then s.(valid := s.valid - {AirQuality})
    else
      var co2 := if r.co2.Some? then r.co2.value else 0;
      var tvoc := if r.tvoc.Some? then r.tvoc.value else 0;
      var s1 := if Eco2Ok(co2) then s.(eco2 := co2) else s;
      var s2 := if TvocOk(tvoc) then s1.(tvoc := tvoc) else s1;
      s2.(valid := if Eco2Ok(co2) && TvocOk(tvoc) then s.valid + {AirQuality} else s.valid - {AirQuality})
  }

  function StoreBattery(s: Snapshot, io: SensorIo): Snapshot {
    var s1 := if io.level >= 0
              then s.(level := io.level % 256, valid := s.valid + {Battery})
              else s.(valid := s.valid - {Battery});
    s1.(charging := io.charging)
  }

  predicate Climate(sensors: set<Flag>) { Temperature in sensors || Humidity in sensors }

  function ClimateStage(s: Snapshot, sensors: set<Flag>, io: SensorIo): Snapshot {
    if Climate(sensors) then StoreClimate(s, io) else s
  }

  function PressureStage(s: Snapshot, sensors: set<Flag>, io: SensorIo): Snapshot {
    if Pressure in sensors then StorePressure(s, io) else s
  }

  function AirStage(s: Snapshot, sensors: set<Flag>, io: SensorIo): Snapshot {
    if AirQuality in sensors then StoreAir(s, io.air) else s
  }

  function BatteryStage(s: Snapshot, sensors: set<Flag>, io: SensorIo): Snapshot {
    if Battery in sensors then StoreBattery(s, io) else s
  }

  function Selective(s: Snapshot, sensors: set<Flag>, io: SensorIo): Snapshot {
    BatteryStage(AirStage(PressureStage(ClimateStage(s.(timestamp := io.now), sensors, io), sensors, io), sensors, io), sensors, io)
  }

  /** `sensor_manager_update_air_quality_for_ble`: the stack slots hold `localCo2` and `localTvoc`
      until the driver writes them, and nothing changes unless both values are good. */
  function StoreBleAir(s: Snapshot, r: ReadResult, localCo2: nat, localTvoc: nat): Snapshot {
    var co2 := if r.co2.Some? then r.co2.value else localCo2;
    var tvoc := if r.tvoc.Some? then r.tvoc.value else localTvoc;
    if r.ret == 0 && Eco2Ok(co2) && TvocOk(tvoc)
    then s.(eco2 := co2, tvoc := tvoc, valid := s.valid + {AirQuality})
    else s
  }

  ghost predicate AirOk(s: Snapshot) {
    AirQuality in s.valid ==> Eco2Ok(s.eco2) && TvocOk(s.tvoc)
  }

  /** No update, whatever the drivers answer and whatever the stack slots held, sets the
      air-quality flag over a value outside the sensor's range. */
  lemma UpdatesKeepAirOk(s: Snapshot, sensors: set<Flag>, io: SensorIo, localCo2: nat, localTvoc: nat)
    requires AirOk(s)
    ensures AirOk(Selective(s, sensors, io))
    ensures AirOk(StoreBleAir(s, io.air, localCo2, localTvoc))
  {
  }

  /** A TVOC the driver left unwritten counts as a good 0; an eCO2 does not. */
  predicate GoodAir(r: ReadResult) {
    && r.ret == 0
    && r.co2.Some? && 400 <= r.co2.value <= 8192
    && (r.tvoc.Some? ==> 0 <= r.tvoc.value <= 1187)
  }

  /** What one stage leaves alone: every other value and flag. */
  predicate SameButFlags(before: Snapshot, after: Snapshot, touched: set<Flag>) {
    && (Temperature !in touched ==> (Temperature in after.valid <==> Temperature in before.valid))
    && (Humidity !in touched ==> (Humidity in after.valid <==> Humidity in before.valid))
    && (Pressure !in touched ==> (Pressure in after.valid <==> Pressure in before.valid))
    && (AirQuality !in touched ==> (AirQuality in after.valid <==> AirQuality in before.valid))
    && (Battery !in touched ==> (Battery in after.valid <==> Battery in before.valid))
  }

  lemma ClimateStageFlags(s: Snapshot, sensors: set<Flag>, io: SensorIo)
    ensures
      var u := ClimateStage(s, sensors, io);
      && SameButFlags(s, u, TEMP_HUMIDITY)
      && (Temperature in u.valid <==> if Climate(sensors) then io.climateRet == 0 else Temperature in s.valid)
      && (Humidity in u.valid <==> if Climate(sensors) then io.climateRet == 0 else Humidity in s.valid)
      && u == s.(temperature := u.temperature, humidity := u.humidity, valid := u.valid)
  {
  }

  lemma PressureStageFlags(s: Snapshot, sensors: set<Flag>, io: SensorIo)
    ensures
      var u := PressureStage(s, sensors, io);
      && SameButFlags(s, u, {Pressure})
      && (Pressure in u.valid <==> if Pressure in sensors then io.pressureRet == 0 else Pressure in s.valid)
      && u == s.(pressure := u.pressure, valid := u.valid)
  {
  }

  lemma AirStageFlags(s: Snapshot, sensors: set<Flag>, io: SensorIo)
    ensures
      var u := AirStage(s, sensors, io);
      && SameButFlags(s, u, {AirQuality})
      && (AirQuality in u.valid <==> if AirQuality in sensors then GoodAir(io.air) else AirQuality in s.valid)
      && u == s.(eco2 := u.eco2, tvoc := u.tvoc, valid := u.valid)
      && (AirQuality in sensors && io.air.ret == 0 ==>
            && u.eco2 == (if io.air.co2.Some? && Eco2Ok(io.air.co2.value) then io.air.co2.value else s.eco2)
            && u.tvoc == (if io.air.tvoc.None? then 0 else if TvocOk(io.air.tvoc.value) then io.air.tvoc.value else s.tvoc))
  {
  }

  lemma BatteryStageFlags(s: Snapshot, sensors: set<Flag>, io: SensorIo)
    ensures
      var u := BatteryStage(s, sensors, io);
      && SameButFlags(s, u, {Battery})
      && (Battery in u.valid <==> if Battery in sensors then io.level >= 0 else Battery in s.valid)
      && u == s.(level := u.level, charging := u.charging, valid := u.valid)
  {
  }

  /** The flags of the readings an update selects say exactly which foreign reads were good; the other
      flags stay. */
  lemma SelectiveFlags(s: Snapshot, sensors: set<Flag>, io: SensorIo)
    ensures
      var v := Selective(s, sensors, io).valid;
      && (Temperature in v <==> if Climate(sensors) then io.climateRet == 0 else Temperature in s.valid)
      && (Humidity in v <==> if Climate(sensors) then io.climateRet == 0 else Humidity in s.valid)
      && (Pressure in v <==> if Pressure in sensors then io.pressureRet == 0 else Pressure in s.valid)
      && (AirQuality in v <==> if AirQuality in sensors then GoodAir(io.air) else AirQuality in s.valid)
      && (Battery in v <==> if Battery in sensors then io.level >= 0 else Battery in s.valid)
  {
    var s1 := ClimateStage(s.(timestamp := io.now), sensors, io);
    var s2 := PressureStage(s1, sensors, io);
    ClimateStageFlags(s.(timestamp := io.now), sensors, io);
    PressureStageFlags(s1, sensors, io);
    AirStageFlags(s2, sensors, io);
    BatteryStageFlags(AirStage(s2, sensors, io), sensors, io);
  }

  /** A reading is replaced only by an update that selects it, and only when its foreign read is good;
      of a successful air read each good value is stored even when the other is bad. (Charging has no
      flag: a selected battery always replaces it.) */
  lemma SelectiveValues(s: Snapshot, sensors: set<Flag>, io: SensorIo)
    ensures
      var u := Selective(s, sensors, io);
      && u.timestamp == io.now
      && (if Climate(sensors) && io.climateRet == 0 then u.temperature == io.temperature && u.humidity == io.humidity
          else u.temperature == s.temperature && u.humidity == s.humidity)
      && u.pressure == (if Pressure in sensors && io.pressureRet == 0 then io.pressure else s.pressure)
      && (AirQuality in sensors && io.air.ret == 0 ==>
            && u.eco2 == (if io.air.co2.Some? && Eco2Ok(io.air.co2.value) then io.air.co2.value else s.eco2)
            && u.tvoc == (if io.air.tvoc.None? then 0 else if TvocOk(io.air.tvoc.value) then io.air.tvoc.value else s.tvoc))
      && (!(AirQuality in sensors && io.air.ret == 0) ==> u.eco2 == s.eco2 && u.tvoc == s.tvoc)
      && u.level == (if Battery in sensors && io.level >= 0 then io.level % 256 else s.level)
      && u.charging == (if Battery in sensors then io.charging else s.charging)
  {
    var s1 := ClimateStage(s.(timestamp := io.now), sensors, io);
    var s2 := PressureStage(s1, sensors, io);
    ClimateStageFlags(s.(timestamp := io.now), sensors, io);
    PressureStageFlags(s1, sensors, io);
    AirStageFlags(s2, sensors, io);
    BatteryStageFlags(AirStage(s2, sensors, io), sensors, io);
  }

  /** The TVOC value published from the fallback is the cached one exactly when the cache held a
      nonzero TVOC or the caller's stack slot happened to hold the same number. */
  lemma FallbackTvocProvenance(d: Driver, s: Snapshot, now: int, localCo2: nat, localTvoc: nat)
    requires d.firstSample && now - d.lastSample <= MAX_CACHE_AGE_MS
    requires Eco2Ok(d.cachedCo2) && TvocOk(d.cachedTvoc) && TvocOk(localTvoc)
    ensures
      var u := StoreBleAir(s, ServeBle(d, BOTH, Fail(EAGAIN), now), localCo2, localTvoc);
      && AirQuality in u.valid && u.eco2 == d.cachedCo2
      && (u.tvoc == d.cachedTvoc <==> d.cachedTvoc > 0 || localTvoc == 0)
  {
  }

  /** A BLE air read stores its two values and raises the flag exactly when it succeeds with both in the
      sensor's range; any other leaves the whole snapshot alone, a valid one included. */
  lemma BleAirStoresOrKeeps(s: Snapshot, r: ReadResult, localCo2: nat, localTvoc: nat)
    ensures
      var u := StoreBleAir(s, r, localCo2, localTvoc);
      var co2 := if r.co2 == None then localCo2 else r.co2.value;
      var tvoc := if r.tvoc == None then localTvoc else r.tvoc.value;
      && (r.ret != 0 || !(400 <= co2 <= 8192) || !(0 <= tvoc <= 1187) ==> u == s)
      && (r.ret == 0 && 400 <= co2 <= 8192 && 0 <= tvoc <= 1187 ==>
            && u.eco2 == co2 && u.tvoc == tvoc && u.valid == s.valid + {AirQuality}
            && s == u.(eco2 := s.eco2, tvoc := s.tvoc, valid := s.valid))
  {
  }

  // ---------------------------------------------------------------- the manager object

  /** Everything `on_connected` and `on_disconnected` change besides the CCS811 driver. */
  datatype Manager = Manager(
    initialized: bool,
    armed: bool,
    registered: bool,
    count: nat,
    snap: Snapshot,
    envPending: bool,
    aqPending: bool)

  /** The outcome of one update: the new snapshot and what the callback is handed, if anything. */
  datatype Updated = Updated(snap: Snapshot, ret: int, pushed: seq<Snapshot>)

  function Update(m: Manager, sensors: set<Flag>, lock: int, io: SensorIo): Updated {
    if !m.initialized then Updated(m.snap, EINVAL, [])
    else if lock != 0 then Updated(m.snap, lock, [])
    else
      var s := Selective(m.snap, sensors, io);
      Updated(s, 0, if m.registered then [s] else [])
  }

  /** A registered callback is handed the new snapshot by every update that gets the lock, whatever it
      selects and whichever of its reads fail; an update that fails pushes and changes nothing. */
  lemma UpdatePushes(m: Manager, sensors: set<Flag>, lock: int, io: SensorIo)
    ensures
      var u := Update(m, sensors, lock, io);
      && (m.initialized && lock == 0 ==> u.ret == 0)
      && (m.initialized && lock == 0 && m.registered ==> u.pushed == [u.snap])
      && (!(m.initialized && lock == 0) ==> u.snap == m.snap && u.ret == (if !m.initialized then EINVAL else lock))
      && (!(m.initialized && lock == 0 && m.registered) ==> u.pushed == [])
  {
  }

  /** What a connect pushes, with both locks had: first the environment with the battery, then the air
      quality on top of it, which keeps what the first update stored. */
  lemma ConnectPushes(m: Manager, env: SensorIo, aq: SensorIo)
    requires m.initialized && m.registered
    ensures
      var e := Update(m, ENV_BASIC, 0, env);
      var a := Update(m.(snap := e.snap), {AirQuality}, 0, aq);
      && |e.pushed + a.pushed| == 2
      && EnvironmentOf((e.pushed + a.pushed)[0], m.snap, env)
      && AirOf((e.pushed + a.pushed)[1], e.snap, aq)
  {
    UpdatePushes(m, ENV_BASIC, 0, env);
    SelectiveFlags(m.snap, ENV_BASIC, env);
    SelectiveValues(m.snap, ENV_BASIC, env);
    var s := Selective(m.snap, ENV_BASIC, env);
    UpdatePushes(m.(snap := s), {AirQuality}, 0, aq);
    SelectiveFlags(s, {AirQuality}, aq);
    SelectiveValues(s, {AirQuality}, aq);
  }

  /** `s` has the environment and battery of `io`, and the air quality of `before`. */
  predicate EnvironmentOf(s: Snapshot, before: Snapshot, io: SensorIo) {
    && (Temperature in s.valid <==> io.climateRet == 0) && (Humidity in s.valid <==> io.climateRet == 0)
    && (io.climateRet == 0 ==> s.temperature == io.temperature && s.humidity == io.humidity)
    && (Pressure in s.valid <==> io.pressureRet == 0) && (io.pressureRet == 0 ==> s.pressure == io.pressure)
    && (Battery in s.valid <==> io.level >= 0) && s.charging == io.charging
    && (AirQuality in s.valid <==> AirQuality in before.valid) && s.eco2 == before.eco2 && s.tvoc == before.tvoc
  }

  /** `s` has the air quality of `io`, and the environment and battery of `before`. */
  predicate AirOf(s: Snapshot, before: Snapshot, io: SensorIo) {
    && (AirQuality in s.valid <==> GoodAir(io.air))
    && (GoodAir(io.air) ==> s.eco2 == io.air.co2.value && (io.air.tvoc.Some? ==> s.tvoc == io.air.tvoc.value))
    && s.temperature == before.temperature && s.humidity == before.humidity && s.pressure == before.pressure
    && s.level == before.level && s.charging == before.charging
    && (Temperature in s.valid <==> Temperature in before.valid) && (Humidity in s.valid <==> Humidity in before.valid)
    && (Pressure in s.valid <==> Pressure in before.valid) && (Battery in s.valid <==> Battery in before.valid)
  }

  class SensorManager {
    const periodic: bool
    const driver: Ccs811Driver
    var initialized: bool
    var armed: bool
    var registered: bool
    var connectedCount: nat
    var currentData: Snapshot
    var envPending: bool
    var aqPending: bool
    var mutexHeld: bool

    ghost function State(): Manager
      reads this
    {
      Manager(initialized, armed, registered, connectedCount, currentData, envPending, aqPending)
    }

    constructor (driver: Ccs811Driver, periodic: bool)
      ensures this.driver == driver && this.periodic == periodic && !mutexHeld
      ensures State() == Manager(false, false, false, 0, ZEROED, false, false)
    {
      this.driver, this.periodic := driver, periodic;
      initialized, armed, registered, connectedCount := false, false, false, 0;
      currentData, envPending, aqPending, mutexHeld := ZEROED, false, false, false;
    }

    method ReadAirQuality(r: ReadResult)
      modifies `currentData
      ensures currentData == StoreAir(old(currentData), r)
    {
      if r.ret == 0 {
        var co2 := if r.co2.Some? then r.co2.value else 0;
        var tvoc := if r.tvoc.Some? then r.tvoc.value else 0;
        var eco2Ok := co2 != 65021 && co2 != 0 && ECO2_MIN <= co2 <= ECO2_MAX;
        var tvocOk := tvoc != 65021 && TVOC_MIN <= tvoc <= TVOC_MAX;
        if eco2Ok {
          currentData := currentData.(eco2 := co2);
        }
        if tvocOk {
          currentData := currentData.(tvoc := tvoc);
        }
        if eco2Ok && tvocOk {
          currentData := currentData.(valid := currentData.valid + {AirQuality});
        } else {
          currentData := currentData.(valid := currentData.valid - {AirQuality});
        }
      } else {
        currentData := currentData.(valid := currentData.valid - {AirQuality});
      }
    }

    method ReadTemperatureHumidity(io: SensorIo)
      modifies `currentData
      ensures currentData == StoreClimate(old(currentData), io)
    {
      if io.climateRet == 0 {
        currentData := currentData.(temperature := io.temperature, humidity := io.humidity);
        currentData := currentData.(valid := currentData.valid + {Temperature});
        currentData := currentData.(valid := currentData.valid + {Humidity});
      } else {
        currentData := currentData.(valid := currentData.valid - {Temperature});
        currentData := currentData.(valid := currentData.valid - {Humidity});
      }
      assert currentData.valid == StoreClimate(old(currentData), io).valid;
    }

    method ReadPressure(io: SensorIo)
      modifies `currentData
      ensures currentData == StorePressure(old(currentData), io)
    {
      if io.pressureRet == 0 {
        currentData := currentData.(pressure := io.pressure, valid := currentData.valid + {Pressure});
      } else {
        currentData := currentData.(valid := currentData.valid - {Pressure});
      }
    }

    method ReadBattery(io: SensorIo)
      modifies `currentData
      ensures currentData == StoreBattery(old(currentData), io)
    {
      if io.level >= 0 {
        currentData := currentData.(level := io.level % 256, valid := currentData.valid + {Battery});
      } else {
        currentData := currentData.(valid := currentData.valid - {Battery});
      }
      currentData := currentData.(charging := io.charging);
    }

    /** The callback runs after the mutex is released, on the copy returned in `pushed`. */
    method UpdateSelective(sensors: set<Flag>, lock: int, io: SensorIo) returns (ret: int, pushed: seq<Snapshot>)
      requires !mutexHeld
      modifies `currentData, `mutexHeld
      ensures Updated(currentData, ret, pushed) == Update(old(State()), sensors, lock, io)
      ensures initialized && lock == 0 && registered ==> ret == 0 && pushed == [currentData]
      ensures !mutexHeld
    {
      if !initialized {
        return EINVAL, [];
      }
      mutexHeld := lock == 0;
      if !mutexHeld {
        return lock, [];
      }
      currentData := currentData.(timestamp := io.now);
      if Temperature in sensors || Humidity in sensors {
        ReadTemperatureHumidity(io);
      }
      if Pressure in sensors {
        ReadPressure(io);
      }
      if AirQuality in sensors {
        ReadAirQuality(io.air);
      }
      if Battery in sensors {
        ReadBattery(io);
      }
      var localData := currentData;
      mutexHeld := false;
      return 0, if registered then [localData] else [];
    }

    method UpdateAirQualityForBle(r: ReadResult, localCo2: nat, localTvoc: nat)
      modifies `currentData
      ensures currentData == if initialized then StoreBleAir(old(currentData), r, localCo2, localTvoc) else old(currentData)
      ensures r.ret != 0 ==> currentData == old(currentData)
    {
      if !initialized {
        return;
      }
      var co2, tvoc := localCo2, localTvoc;
      if r.co2.Some? {
        co2 := r.co2.value;
      }
      if r.tvoc.Some? {
        tvoc := r.tvoc.value;
      }
      if r.ret == 0 {
        var eco2Ok := co2 != 65021 && co2 != 0 && ECO2_MIN <= co2 <= ECO2_MAX;
        var tvocOk := tvoc != 65021 && TVOC_MIN <= tvoc <= TVOC_MAX;
        if eco2Ok && tvocOk {
          currentData := currentData.(eco2 := co2, tvoc := tvoc, valid := currentData.valid + {AirQuality});
        }
      }
    }

    method GetData(lock: int) returns (ret: int, data: Snapshot)
      requires !mutexHeld
      modifies `mutexHeld
      ensures ret == if !initialized then EINVAL else lock
      ensures ret == 0 ==> data == currentData
      ensures !mutexHeld
    {
      if !initialized {
        return EINVAL, ZEROED;
      }
      mutexHeld := lock == 0;
      if !mutexHeld {
        return lock, ZEROED;
      }
      data := currentData;
      mutexHeld := false;
      ret := 0;
    }

    method Arm() returns (ret: int)
      modifies `armed
      ensures ret == if initialized && registered then 0 else EINVAL
      ensures armed == (old(armed) || ret == 0)
    {
      if !initialized || !registered {
        return EINVAL;
      }
      armed := true;
      return 0;
    }

    /** The environmental update comes first, so the air-quality read is compensated with the
        temperature and humidity just stored. */
    method OnConnected(lock: int, mode: int, envLock: int, env: SensorIo, aqLock: int, aq: SensorIo)
      returns (ret: int, pushed: seq<Snapshot>)
      requires !mutexHeld && !driver.mutexHeld
      modifies this, driver
      ensures !mutexHeld && !driver.mutexHeld
      ensures !old(armed) ==> ret == EINVAL && State() == old(State()) && driver.State() == old(driver.State()) && pushed == []
      ensures old(armed) ==>
        var e := Update(old(State()), ENV_BASIC, envLock, env);
        var a := Update(old(State()).(snap := e.snap), {AirQuality}, aqLock, aq);
        && ret == 0 && pushed == e.pushed + a.pushed
        && State() == old(State()).(count := old(connectedCount) + 1, snap := a.snap,
                                    envPending := periodic || old(envPending), aqPending := periodic || old(aqPending))
        && driver.State() == Connected(old(driver.State()), lock, mode)
    {
      if !armed {
        return EINVAL, [];
      }
      connectedCount := connectedCount + 1;
      driver.OnConnected(lock, mode);
      var r1, p1 := UpdateSelective(ENV_BASIC, envLock, env);
      var r2, p2 := UpdateSelective({AirQuality}, aqLock, aq);
      if periodic {
        envPending := true;
        aqPending := true;
      }
      return 0, p1 + p2;
    }

    method OnDisconnected(lock: int, mode: int)
      requires !driver.mutexHeld
      modifies this, driver
      ensures !driver.mutexHeld && mutexHeld == old(mutexHeld)
      ensures old(connectedCount) == 0 ==> State() == old(State()) && driver.State() == old(driver.State())
      ensures old(connectedCount) > 1 ==>
        State() == old(State()).(count := old(connectedCount) - 1) && driver.State() == old(driver.State())
      ensures old(connectedCount) == 1 ==>
        && State() == old(State()).(count := 0, envPending := old(envPending) && !periodic, aqPending := old(aqPending) && !periodic)
        && driver.State() == Disconnected(old(driver.State()), lock, mode)
    {
      if connectedCount == 0 {
        return;
      }
      connectedCount := connectedCount - 1;
      if connectedCount == 0 {
        if periodic {
          envPending := false;
          aqPending := false;
        }
        driver.OnDisconnected(lock, mode);
      }
    }
  }
}
