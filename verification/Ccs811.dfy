/** The CCS811 air-quality driver: its state, one pure transition per critical section, and the
    imperative driver proved to make exactly those transitions. A read drops the mutex while it
    sleeps, so it is two transitions, `BeginRead` and `ResumeRead`. */
module Ccs811 {
  import opened Common

  const CONDITIONING_MS := 1_200_000
  const IDLE_WAKE_MS := 1_500
  const MAX_CACHE_AGE_MS := 300_000
  const ECO2_MIN := 400
  const ECO2_MAX := 8192
  const TVOC_MIN := 0
  const TVOC_MAX := 1187

  datatype Mode = Idle | OneSec | TenSec

  /** `hwMode` is the last mode update the sensor accepted; `workDue` is the earliest instant at
      which the scheduled conditioning work may run. */
  datatype Driver = Driver(
    present: bool,
    complete: bool,
    initTime: int,
    firstSample: bool,
    cachedCo2: nat,
    cachedTvoc: nat,
    lastSample: int,
    idle: bool,
    ble: bool,
    awaiting: bool,
    workDue: Option<int>,
    hwMode: Option<Mode>)

  const UNBOUND := Driver(false, false, 0, false, 0, 0, 0, false, false, false, None, None)

  /** Which of the two output pointers the caller supplied. */
  datatype Ask = Ask(co2: bool, tvoc: bool)
  const BOTH := Ask(true, true)

  datatype Channel = Channel(ret: int, val: int)
  datatype Status = Status(dataReady: bool, error: bool)

  /** What the sensor answers to one fetch. `status` is absent when no result can be had. */
  datatype SampleIo = SampleIo(fetch: int, status: Option<Status>, co2: Channel, tvoc: Channel)

  /** A return code and what was written through each output pointer. */
  datatype ReadResult = ReadResult(ret: int, co2: Option<nat>, tvoc: Option<nat>)

  datatype ReadStep = Done(result: ReadResult) | Sleeping

  function Fail(ret: int): ReadResult { ReadResult(ret, None, None) }

  // ---------------------------------------------------------------- transitions

  function EnterOneSec(d: Driver, update: int): Driver {
    if update == 0 then d.(idle := false, awaiting := true, hwMode := Some(OneSec)) else d
  }

  function EnterIdle(d: Driver, update: int): Driver {
    if update == 0 then d.(idle := true, hwMode := Some(Idle)) else d
  }

  /** First critical section of `ccs811_driver_init`. */
  function Reset(d: Driver, lock: int): Driver {
    if lock != 0 || d.present then d
    else UNBOUND.(present := true, workDue := d.workDue, hwMode := d.hwMode)
  }

  /** Second critical section of `ccs811_driver_init`. */
  function StartBoot(d: Driver, lock: int, update: int, now: int): Driver {
    if lock != 0 then d
    else
      var d1 := d.(initTime := now, complete := false, workDue := Some(now + CONDITIONING_MS));
      if update == 0 then d1.(idle := false, hwMode := Some(TenSec)) else d1
  }

  function FinishConditioning(d: Driver, lock: int, update: int): Driver {
    var d0 := d.(workDue := None);
    if lock != 0 || d.complete then d0
    else
      var d1 := d0.(complete := true);
      if d1.ble then EnterOneSec(d1, update) else EnterIdle(d1, update)
  }

  function Connected(d: Driver, lock: int, update: int): Driver {
    if !d.present || lock != 0 then d
    else
      var d1 := d.(ble := true);
      if d1.complete then EnterOneSec(d1, update) else d1
  }

  function Disconnected(d: Driver, lock: int, update: int): Driver {
    if !d.present || lock != 0 then d
    else
      var d1 := d.(ble := false, awaiting := false);
      if d1.complete then EnterIdle(d1, update) else d1
  }

  /** The answer of the unlocked readiness check at `now`. */
  predicate Ready(d: Driver, now: int) {
    d.complete || (d.initTime != 0 && now - d.initTime >= CONDITIONING_MS)
  }

  /** The check also records a completion it discovers, without the lock. */
  function NoteReady(d: Driver, now: int): Driver {
    d.(complete := Ready(d, now))
  }

  function Remaining(d: Driver, now: int): int {
    if d.complete || d.initTime == 0 then 0
    else
      var remaining := CONDITIONING_MS - (now - d.initTime);
      if remaining > 0 then remaining else 0
  }

  function Sample(d: Driver, ask: Ask, io: SampleIo, now: int): (Driver, ReadResult) {
    if io.fetch != 0 then (d, Fail(io.fetch))
    else if io.status.None? then (d, Fail(EIO))
    else if !io.status.value.dataReady then (d, Fail(EAGAIN))
    else if io.status.value.error then (d, Fail(EIO))
    else if ask.co2 && io.co2.ret != 0 then (d, Fail(io.co2.ret))
    else if ask.co2 && io.co2.val == 0 then (d, Fail(EAGAIN))
    else if ask.co2 && !(ECO2_MIN <= io.co2.val <= ECO2_MAX) then (d, Fail(ERANGE))
    else
      var d1 := if ask.co2 then d.(cachedCo2 := io.co2.val) else d;
      var co2 := if ask.co2 then Some(io.co2.val) else None;
      if ask.tvoc && io.tvoc.ret != 0 then (d1, ReadResult(io.tvoc.ret, co2, None))
      else if ask.tvoc && !(TVOC_MIN <= io.tvoc.val <= TVOC_MAX) then (d1, ReadResult(ERANGE, co2, None))
      else
        var d2 := if ask.tvoc then d1.(cachedTvoc := io.tvoc.val) else d1;
        var tvoc := if ask.tvoc then Some(io.tvoc.val) else None;
        (d2.(lastSample := now, firstSample := true), ReadResult(0, co2, tvoc))
  }

  /** A read that has asked for readiness: refused, asleep, or done. */
  function ReadOnceAsked(d: Driver, ask: Ask, io: SampleIo, now: int): (Driver, ReadStep) {
    if !d.complete then (d, Done(Fail(EAGAIN)))
    else if d.idle && !d.ble then (d, Done(Fail(EAGAIN)))
    else if d.awaiting then (d, Sleeping)
    else
      var (d1, r) := Sample(d, ask, io, now);
      (d1, Done(r))
  }

  /** A read up to its sleep, or to its end when it need not sleep. */
  function BeginRead(d: Driver, ask: Ask, lock: int, deviceReady: bool, io: SampleIo, now: int): (Driver, ReadStep) {
    if !d.present then (d, Done(Fail(ENODEV)))
    else if !ask.co2 && !ask.tvoc then (d, Done(Fail(EINVAL)))
    else if lock != 0 then (d, Done(Fail(lock)))
    else if !deviceReady then (d, Done(Fail(ENODEV)))
    else ReadOnceAsked(NoteReady(d, now), ask, io, now)
  }

  /** The rest of a read that slept; the await flag is cleared even when the lock is not had. */
  function ResumeRead(d: Driver, ask: Ask, lock: int, io: SampleIo, now: int): (Driver, ReadResult) {
    var d1 := d.(awaiting := false);
    if lock != 0 then (d1, Fail(lock)) else Sample(d1, ask, io, now)
  }

  /** What `ccs811_driver_read_for_ble` makes of the result of the fresh read, at `now`. */
  function ServeBle(d: Driver, ask: Ask, direct: ReadResult, now: int): ReadResult {
    if direct.ret == 0 then direct
    else if !((direct.ret == EAGAIN || direct.ret == ETIME) && d.firstSample) then direct
    else if now - d.lastSample > MAX_CACHE_AGE_MS then direct
    else
      var useCo2 := ask.co2 && d.cachedCo2 > 0;
      var useTvoc := ask.tvoc && d.cachedTvoc > 0;
      ReadResult(if useCo2 || useTvoc then 0 else direct.ret,
                 if useCo2 then Some(d.cachedCo2) else direct.co2,
                 if useTvoc then Some(d.cachedTvoc) else direct.tvoc)
  }

  // ---------------------------------------------------------------- what the transitions mean

  /** The first initialization forgets every flag, cached value and time; a repeated one, or one without
      the lock, changes nothing. */
  lemma ResetMeans(d: Driver, lock: int)
    ensures lock != 0 || d.present ==> Reset(d, lock) == d
    ensures lock == 0 && !d.present ==>
      var e := Reset(d, lock);
      && e.present && !e.complete && !e.firstSample && !e.idle && !e.ble && !e.awaiting
      && e.initTime == e.lastSample == 0 && e.cachedCo2 == e.cachedTvoc == 0
      && e.workDue == d.workDue && e.hwMode == d.hwMode
  {
  }

  /** A connect raises the BLE flag of a bound driver even when the sensor refuses 1 s mode; the mode
      flags change only with an accepted change, and only once conditioned. Nothing else changes. */
  lemma ConnectedMeans(d: Driver, lock: int, update: int)
    ensures
      var e, reached := Connected(d, lock, update), d.present && lock == 0;
      var entered := reached && d.complete && update == 0;
      && (e.ble <==> d.ble || reached)
      && (e.idle <==> d.idle && !entered)
      && (e.awaiting <==> d.awaiting || entered)
      && (e.hwMode == if entered then Some(OneSec) else d.hwMode)
      && e == d.(ble := e.ble, idle := e.idle, awaiting := e.awaiting, hwMode := e.hwMode)
  {
  }

  /** A disconnect lowers both the BLE and the wait flag before it asks for IDLE. */
  lemma DisconnectedMeans(d: Driver, lock: int, update: int)
    ensures
      var e, reached := Disconnected(d, lock, update), d.present && lock == 0;
      var entered := reached && d.complete && update == 0;
      && (e.ble <==> d.ble && !reached)
      && (e.awaiting <==> d.awaiting && !reached)
      && (e.idle <==> d.idle || entered)
      && (e.hwMode == if entered then Some(Idle) else d.hwMode)
      && e == d.(ble := e.ble, idle := e.idle, awaiting := e.awaiting, hwMode := e.hwMode)
  {
  }

  /** The conditioning work runs once: it completes whatever the sensor answers, and the mode it asks
      for is 1 s for a client and IDLE without one. */
  lemma FinishConditioningMeans(d: Driver, lock: int, update: int)
    ensures
      var e, reached := FinishConditioning(d, lock, update), lock == 0 && !d.complete;
      var entered := reached && update == 0;
      && e.workDue == None && (e.complete <==> d.complete || lock == 0)
      && (e.hwMode == if !entered then d.hwMode else if d.ble then Some(OneSec) else Some(Idle))
      && (e.awaiting <==> d.awaiting || (entered && d.ble))
      && (e.idle <==> if entered then !d.ble else d.idle)
      && e == d.(workDue := None, complete := e.complete, idle := e.idle, awaiting := e.awaiting, hwMode := e.hwMode)
  {
  }

  /** Boot conditioning lasts 20 minutes from the start it records, in 10 s mode if the sensor agrees. */
  lemma StartBootMeans(d: Driver, lock: int, update: int, now: int)
    ensures lock != 0 ==> StartBoot(d, lock, update, now) == d
    ensures lock == 0 ==>
      var e := StartBoot(d, lock, update, now);
      && e.initTime == now && !e.complete && e.workDue == Some(now + 1_200_000)
      && (update == 0 ==> !e.idle && e.hwMode == Some(TenSec))
      && (update != 0 ==> e.idle == d.idle && e.hwMode == d.hwMode)
      && e == d.(initTime := e.initTime, complete := e.complete, workDue := e.workDue, idle := e.idle, hwMode := e.hwMode)
  {
  }

  /** A fetch fails with the first thing wrong. Only a sensor that has no data yet, or reports an eCO2
      of 0, or a foreign call that says so, yields the EAGAIN or ETIME the fallback waits for. */
  lemma SampleErrors(d: Driver, ask: Ask, io: SampleIo, now: int)
    ensures
      var ret := Sample(d, ask, io, now).1.ret;
      && (io.fetch != 0 ==> ret == io.fetch)
      && (io.fetch == 0 ==>
            match io.status
            case None => ret == EIO
            case Some(status) =>
              && (!status.dataReady ==> ret == EAGAIN)
              && (status.dataReady && status.error ==> ret == EIO)
              && (status.dataReady && !status.error ==>
                    && (ask.co2 && io.co2.ret != 0 ==> ret == io.co2.ret)
                    && (ask.co2 && io.co2.ret == 0 && io.co2.val == 0 ==> ret == EAGAIN)
                    && (ask.co2 && io.co2.ret == 0 && io.co2.val != 0 && !(400 <= io.co2.val <= 8192) ==> ret == ERANGE)
                    && ((ask.co2 ==> io.co2.ret == 0 && 400 <= io.co2.val <= 8192) ==>
                          && (ask.tvoc && io.tvoc.ret != 0 ==> ret == io.tvoc.ret)
                          && (ask.tvoc && io.tvoc.ret == 0 && !(0 <= io.tvoc.val <= 1187) ==> ret == ERANGE))))
  {
  }

  // ---------------------------------------------------------------- when the sensor is asked

  /** The first part of a read gets as far as deciding between asking the sensor and sleeping. */
  predicate Admitted(d: Driver, ask: Ask, lock: int, deviceReady: bool, now: int) {
    && d.present && (ask.co2 || ask.tvoc) && lock == 0 && deviceReady
    && Ready(d, now) && (d.idle ==> d.ble)
  }

  /** What the first part of a read does depends on the sensor's answer. */
  ghost predicate BeginAsks(d: Driver, ask: Ask, lock: int, deviceReady: bool, now: int) {
    exists a, b :: BeginRead(d, ask, lock, deviceReady, a, now) != BeginRead(d, ask, lock, deviceReady, b, now)
  }

  const FAILS: SampleIo := SampleIo(EIO, None, Channel(0, 0), Channel(0, 0))
  const NO_DATA: SampleIo := SampleIo(0, Some(Status(false, false)), Channel(0, 0), Channel(0, 0))

  /** An admitted read sleeps exactly when the wait flag is up, and asks the sensor exactly when it is
      down; a read that is not admitted does neither. */
  lemma BeginAsksIff(d: Driver, ask: Ask, lock: int, deviceReady: bool, now: int)
    ensures BeginAsks(d, ask, lock, deviceReady, now) <==> Admitted(d, ask, lock, deviceReady, now) && !d.awaiting
    ensures forall io ::
      (BeginRead(d, ask, lock, deviceReady, io, now).1.Sleeping? <==> Admitted(d, ask, lock, deviceReady, now) && d.awaiting)
    ensures Admitted(d, ask, lock, deviceReady, now) && !d.awaiting ==>
      forall io :: (
        var (e, r) := Sample(NoteReady(d, now), ask, io, now);
        BeginRead(d, ask, lock, deviceReady, io, now) == (e, Done(r)))
  {
    var a := BeginRead(d, ask, lock, deviceReady, FAILS, now);
    var b := BeginRead(d, ask, lock, deviceReady, NO_DATA, now);
    if Admitted(d, ask, lock, deviceReady, now) && !d.awaiting {
      assert a.1.result.ret == EIO && b.1.result.ret == EAGAIN;
    }
  }

  /** What a read that is not admitted answers, the first reason first. */
  lemma BeginRefusals(d: Driver, ask: Ask, lock: int, deviceReady: bool, io: SampleIo, now: int)
    requires !Admitted(d, ask, lock, deviceReady, now)
    ensures
      var (e, step) := BeginRead(d, ask, lock, deviceReady, io, now);
      && step.Done? && step.result.co2.None? && step.result.tvoc.None?
      && step.result.ret ==
           (if !d.present then ENODEV
            else if !ask.co2 && !ask.tvoc then EINVAL
            else if lock != 0 then lock
            else if !deviceReady then ENODEV
            else EAGAIN)
      && e == d.(complete := e.complete)
  {
  }

  /** The second part asks the sensor exactly when it has the lock again, and takes the wait flag down
      either way. */
  lemma ResumeMeans(d: Driver, ask: Ask, lock: int, io: SampleIo, now: int)
    ensures !ResumeRead(d, ask, lock, io, now).0.awaiting
    ensures lock != 0 ==> ResumeRead(d, ask, lock, io, now) == (d.(awaiting := false), ReadResult(lock, None, None))
    ensures lock == 0 ==> ResumeRead(d, ask, lock, io, now) == Sample(d.(awaiting := false), ask, io, now)
  {
  }

  /** The fallback turns a failure into a success exactly for EAGAIN or ETIME after a first sample at
      most five minutes old with a nonzero value that was asked for; then it writes exactly those, and
      otherwise it changes nothing. */
  lemma ServeBleMeans(d: Driver, ask: Ask, direct: ReadResult, now: int)
    ensures
      var r := ServeBle(d, ask, direct, now);
      var may := (direct.ret == -11 || direct.ret == -62) && d.firstSample && now - d.lastSample <= 300_000;
      && (r.ret == 0 <==> direct.ret == 0 || (may && ((ask.co2 && d.cachedCo2 != 0) || (ask.tvoc && d.cachedTvoc != 0))))
      && (r.ret != 0 ==> r == direct)
      && (direct.ret == 0 || !may ==> r == direct)
      && (may ==> r.co2 == if ask.co2 && d.cachedCo2 != 0 then Some(d.cachedCo2) else direct.co2)
      && (may ==> r.tvoc == if ask.tvoc && d.cachedTvoc != 0 then Some(d.cachedTvoc) else direct.tvoc)
  {
  }

  // ---------------------------------------------------------------- clock facts

  /** Readiness and the printed remaining time agree at one instant exactly when conditioning has
      a start time to count from or is recorded complete: before that, 0 ms remain and the sensor
      is not ready. */
  lemma RemainingZeroIffReady(d: Driver, now: int)
    ensures Remaining(d, now) >= 0
    ensures (Remaining(d, now) == 0 <==> Ready(d, now)) <==> (d.initTime != 0 || d.complete)
    ensures d.initTime != 0 && !d.complete ==>
      Remaining(d, now) == if now - d.initTime >= 1_200_000 then 0 else 1_200_000 - (now - d.initTime)
  {
    if d.complete || d.initTime == 0 {
      assert Remaining(d, now) == 0;
    } else {
      assert Ready(d, now) <==> now - d.initTime >= CONDITIONING_MS;
    }
  }

  /** A fetch succeeds exactly on a good status and in-range values of what was asked for; it caches
      exactly what it writes, even when it then fails on TVOC; and it takes a timestamp only when it
      succeeds. */
  lemma SampleCachesWhatItWrites(d: Driver, ask: Ask, io: SampleIo, now: int)
    ensures
      var (e, r) := Sample(d, ask, io, now);
      && (r.ret == 0 <==>
            && io.fetch == 0 && io.status == Some(Status(true, false))
            && (ask.co2 ==> io.co2.ret == 0 && 400 <= io.co2.val <= 8192)
            && (ask.tvoc ==> io.tvoc.ret == 0 && 0 <= io.tvoc.val <= 1187))
      && (r.ret == 0 ==> (r.co2.Some? <==> ask.co2) && (r.tvoc.Some? <==> ask.tvoc))
      && (r.co2.Some? ==> r.co2.value == io.co2.val) && (r.tvoc.Some? ==> r.tvoc.value == io.tvoc.val)
      && e == d.(cachedCo2 := if r.co2.Some? then r.co2.value else d.cachedCo2,
                 cachedTvoc := if r.tvoc.Some? then r.tvoc.value else d.cachedTvoc,
                 lastSample := if r.ret == 0 then now else d.lastSample,
                 firstSample := d.firstSample || r.ret == 0)
  {
  }

  /** Asking for only one of the two values lets the fallback hand out an old value of the other
      under a fresh timestamp: here TVOC is ten minutes old. */
  lemma SingleValueReadStalesFallback()
    ensures
      var d := UNBOUND.(present := true, complete := true, initTime := 1, ble := true, hwMode := Some(OneSec));
      var io := SampleIo(0, Some(Status(true, false)), Channel(0, 600), Channel(0, 42));
      var d1 := BeginRead(d, BOTH, 0, true, io, 2_000_000).0;
      var d2 := BeginRead(d1, Ask(true, false), 0, true, io, 2_600_000).0;
      ServeBle(d2, BOTH, Fail(EAGAIN), 2_600_000) == ReadResult(0, Some(600), Some(42))
  {
  }

  // ---------------------------------------------------------------- the driver object

  /** The driver's static state and its mutex, as seen by the calling thread. */
  class Ccs811Driver {
    var present: bool
    var complete: bool
    var initTime: int
    var firstSample: bool
    var cachedCo2: nat
    var cachedTvoc: nat
    var lastSample: int
    var idle: bool
    var ble: bool
    var awaiting: bool
    var workDue: Option<int>
    var hwMode: Option<Mode>
    var mutexHeld: bool

    ghost function State(): Driver
      reads this
    {
      Driver(present, complete, initTime, firstSample, cachedCo2, cachedTvoc, lastSample,
             idle, ble, awaiting, workDue, hwMode)
    }

    constructor ()
      ensures State() == UNBOUND && !mutexHeld
    {
      present, complete, initTime, firstSample := false, false, 0, false;
      cachedCo2, cachedTvoc, lastSample := 0, 0, 0;
      idle, ble, awaiting, workDue, hwMode := false, false, false, None, None;
      mutexHeld := false;
    }

    method Lock(outcome: int) returns (ret: int)
      requires !mutexHeld
      modifies `mutexHeld
      ensures ret == outcome && mutexHeld == (ret == 0)
    {
      ret := outcome;
      mutexHeld := ret == 0;
    }

    method Unlock()
      requires mutexHeld
      modifies `mutexHeld
      ensures !mutexHeld
    {
      mutexHeld := false;
    }

    /** One foreign mode change: on success the sensor is in `mode`. */
    method ModeUpdate(mode: Mode, outcome: int) returns (ret: int)
      requires mutexHeld
      modifies `hwMode
      ensures ret == outcome && hwMode == if ret == 0 then Some(mode) else old(hwMode)
    {
      ret := outcome;
      if ret == 0 {
        hwMode := Some(mode);
      }
    }

    method Enter1SecMode(update: int) returns (ret: int)
      requires mutexHeld
      modifies this
      ensures State() == EnterOneSec(old(State()), update) && ret == update
      ensures mutexHeld
    {
      ret := ModeUpdate(OneSec, update);
      if ret == 0 {
        idle := false;
        awaiting := true;
      }
    }

    method InitReset(bound: bool, deviceReady: bool, lock: int) returns (ret: int)
      requires !mutexHeld
      modifies this
      ensures State() == if bound && deviceReady then Reset(old(State()), lock) else old(State())
      ensures ret == if !bound then EINVAL else if !deviceReady then ENODEV else lock
      ensures !mutexHeld
    {
      if !bound {
        return EINVAL;
      }
      if !deviceReady {
        return ENODEV;
      }
      ret := Lock(lock);
      if ret != 0 {
        return;
      }
      if present {
        Unlock();
        return 0;
      }
      ClearForBoot();
      Unlock();
    }

    method ClearForBoot()
      modifies `present, `complete, `initTime, `firstSample, `idle, `ble, `awaiting, `cachedCo2, `cachedTvoc, `lastSample
      ensures State() == UNBOUND.(present := true, workDue := workDue, hwMode := hwMode)
    {
      present, complete, initTime := true, false, 0;
      firstSample, idle, ble, awaiting := false, false, false, false;
      cachedCo2, cachedTvoc, lastSample := 0, 0, 0;
    }

    method InitBoot(lock: int, update: int, now: int)
      requires !mutexHeld
      modifies this
      ensures State() == StartBoot(old(State()), lock, update, now)
      ensures !mutexHeld
    {
      var ret := Lock(lock);
      if ret == 0 {
        initTime := now;
        complete := false;
        ret := ModeUpdate(TenSec, update);
        if ret == 0 {
          idle := false;
        }
        workDue := Some(now + CONDITIONING_MS);
        Unlock();
      }
    }

    method ConditioningWork(lock: int, update: int)
      requires !mutexHeld
      modifies this
      ensures State() == FinishConditioning(old(State()), lock, update)
      ensures !mutexHeld
    {
      workDue := None;
      var ret := Lock(lock);
      if ret != 0 {
        return;
      }
      if complete {
        Unlock();
        return;
      }
      complete := true;
      if ble {
        ret := Enter1SecMode(update);
      } else {
        ret := ModeUpdate(Idle, update);
        if ret == 0 {
          idle := true;
        }
      }
      Unlock();
    }

    method OnConnected(lock: int, update: int)
      requires !mutexHeld
      modifies this
      ensures State() == Connected(old(State()), lock, update)
      ensures !mutexHeld
    {
      if !present {
        return;
      }
      var ret := Lock(lock);
      if ret != 0 {
        return;
      }
      ble := true;
      if complete {
        ret := Enter1SecMode(update);
      }
      Unlock();
    }

    method OnDisconnected(lock: int, update: int)
      requires !mutexHeld
      modifies this
      ensures State() == Disconnected(old(State()), lock, update)
      ensures !mutexHeld
    {
      if !present {
        return;
      }
      var ret := Lock(lock);
      if ret != 0 {
        return;
      }
      ble := false;
      awaiting := false;
      if !complete {
        Unlock();
        return;
      }
      ret := ModeUpdate(Idle, update);
      if ret == 0 {
        idle := true;
      }
      Unlock();
    }

    /** Runs with or without the mutex, and leaves it alone. */
    method IsReady(now: int) returns (ready: bool)
      modifies `complete
      ensures State() == NoteReady(old(State()), now) && ready == Ready(old(State()), now)
    {
      if complete {
        return true;
      }
      if initTime == 0 {
        return false;
      }
      var elapsed := now - initTime;
      if elapsed >= CONDITIONING_MS {
        complete := true;
        return true;
      }
      return false;
    }

    method ConditioningTimeRemaining(now: int) returns (ms: int)
      ensures ms == Remaining(State(), now) && ms >= 0
    {
      if complete || initTime == 0 {
        return 0;
      }
      var elapsed := now - initTime;
      var remaining := CONDITIONING_MS - elapsed;
      return if remaining > 0 then remaining else 0;
    }

    /** The locked part of a read after any sleep. */
    method FetchSample(ask: Ask, io: SampleIo, now: int) returns (r: ReadResult)
      requires mutexHeld
      modifies this
      ensures (State(), r) == Sample(old(State()), ask, io, now)
      ensures mutexHeld
    {
      var co2, tvoc := None, None;
      if io.fetch != 0 {
        return Fail(io.fetch);
      }
      match io.status {
        case None => return Fail(EIO);
        case Some(status) =>
          if !status.dataReady {
            return Fail(EAGAIN);
          }
          if status.error {
            return Fail(EIO);
          }
      }
      if ask.co2 {
        if io.co2.ret != 0 {
          return Fail(io.co2.ret);
        }
        if io.co2.val == 0 {
          return Fail(EAGAIN);
        }
        if !(ECO2_MIN <= io.co2.val <= ECO2_MAX) {
          return Fail(ERANGE);
        }
        co2 := Some(io.co2.val);
        cachedCo2 := io.co2.val;
      }
      if ask.tvoc {
        if io.tvoc.ret != 0 {
          return ReadResult(io.tvoc.ret, co2, None);
        }
        if !(TVOC_MIN <= io.tvoc.val <= TVOC_MAX) {
          return ReadResult(ERANGE, co2, None);
        }
        tvoc := Some(io.tvoc.val);
        cachedTvoc := io.tvoc.val;
      }
      lastSample := now;
      if !firstSample {
        firstSample := true;
      }
      return ReadResult(0, co2, tvoc);
    }

    method ReadUntilSleep(ask: Ask, lock: int, deviceReady: bool, io: SampleIo, now: int) returns (step: ReadStep)
      requires !mutexHeld
      modifies this
      ensures (State(), step) == BeginRead(old(State()), ask, lock, deviceReady, io, now)
      ensures step.Sleeping? <==>
        old(present) && (ask.co2 || ask.tvoc) && lock == 0 && deviceReady
        && old(Ready(State(), now)) && (old(idle) ==> old(ble)) && old(awaiting)
      ensures !mutexHeld
    {
      if !present {
        return Done(Fail(ENODEV));
      }
      if !ask.co2 && !ask.tvoc {
        return Done(Fail(EINVAL));
      }
      var ret := Lock(lock);
      if ret != 0 {
        return Done(Fail(ret));
      }
      if !deviceReady {
        Unlock();
        return Done(Fail(ENODEV));
      }
      var ready := IsReady(now);
      if !ready || (idle && !ble) {
        Unlock();
        return Done(Fail(EAGAIN));
      }
      if awaiting {
        Unlock();
        return Sleeping;
      }
      var r := FetchSample(ask, io, now);
      Unlock();
      return Done(r);
    }

    method ReadAfterSleep(ask: Ask, lock: int, io: SampleIo, now: int) returns (r: ReadResult)
      requires !mutexHeld
      modifies this
      ensures (State(), r) == ResumeRead(old(State()), ask, lock, io, now)
      ensures !mutexHeld
    {
      var ret := Lock(lock);
      if ret != 0 {
        awaiting := false;
        return Fail(ret);
      }
      awaiting := false;
      r := FetchSample(ask, io, now);
      Unlock();
    }

    method FinishReadForBle(ask: Ask, direct: ReadResult, now: int) returns (r: ReadResult)
      ensures r == ServeBle(State(), ask, direct, now)
    {
      r := direct;
      if r.ret == 0 {
        return;
      }
      if (r.ret == EAGAIN || r.ret == ETIME) && firstSample {
        var age := now - lastSample;
        if age <= MAX_CACHE_AGE_MS {
          var hasCached := false;
          if ask.co2 && cachedCo2 > 0 {
            r := r.(co2 := Some(cachedCo2));
            hasCached := true;
          }
          if ask.tvoc && cachedTvoc > 0 {
            r := r.(tvoc := Some(cachedTvoc));
            hasCached := true;
          }
          if hasCached {
            r := r.(ret := 0);
          }
        }
      }
    }
  }
}
