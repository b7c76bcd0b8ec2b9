/** Connection events fan out from the advertiser to two saturating counters, one in the sensor
    manager and one in the BLE Battery Service. */
module Links {
  import opened Ccs811
  import opened Sensors
  import opened Battery
  import opened Charger

  /** `links` is the number of connections really up. */
  datatype Counters = Counters(armed: bool, manager: nat, basReady: bool, bas: nat, links: int)

  const ZERO := Counters(false, 0, false, 0, 0)

  datatype Link = ArmManager | InitBas | Up(err: int) | Down

  function Dec(n: nat): nat { if n == 0 then 0 else n - 1 }

  function Count(c: Counters, e: Link): Counters {
    match e
    case ArmManager => c.(armed := true)
    case InitBas => c.(basReady := true)
    case Up(err) =>
      if err != 0 then c
      else c.(manager := if c.armed then c.manager + 1 else c.manager,
              bas := if c.basReady then c.bas + 1 else c.bas,
              links := c.links + 1)
    case Down => c.(manager := Dec(c.manager), bas := Dec(c.bas), links := c.links - 1)
  }

  function CountAll(c: Counters, es: seq<Link>): Counters {
    if es == [] then c else Count(CountAll(c, es[..|es| - 1]), es[|es| - 1])
  }

  // ---------------------------------------------------------------- reflection

  /** The steps a counter accepts: +1 for a good connect once it is open, -1 for a disconnect. */
  function Accepted(es: seq<Link>, opening: Link): seq<int> {
    if es == [] then []
    else
      var before, e := es[..|es| - 1], es[|es| - 1];
      Accepted(before, opening) +
      (if e == Down then [-1] else if e == Up(0) && opening in before then [1] else [])
  }

  function Sum(ds: seq<int>): int {
    if ds == [] then 0 else Sum(ds[..|ds| - 1]) + ds[|ds| - 1]
  }

  /** `n` is the walk `ds` reflected at zero: its sum less its lowest prefix sum. */
  ghost predicate Reflected(n: int, ds: seq<int>) {
    exists k :: 0 <= k <= |ds| && n == Sum(ds) - Sum(ds[..k]) && LowestPrefix(ds, k)
  }

  ghost predicate LowestPrefix(ds: seq<int>, k: int)
    requires 0 <= k <= |ds|
  {
    forall j :: 0 <= j <= |ds| ==> Sum(ds[..k]) <= Sum(ds[..j])
  }

  /** One more accepted step reflects at zero: up adds one, down takes one unless already at zero. */
  lemma ReflectStep(n: nat, ds: seq<int>, d: int)
    requires Reflected(n, ds) && (d == 1 || d == -1)
    ensures Reflected(if d == 1 then n + 1 else Dec(n), ds + [d])
  {
    var longer := ds + [d];
    var k :| 0 <= k <= |ds| && n == Sum(ds) - Sum(ds[..k]) && LowestPrefix(ds, k);
    assert longer[..|ds|] == ds && longer[..|longer|] == longer;
    assert Sum(longer) == Sum(ds) + d;
    forall j | 0 <= j <= |ds| ensures longer[..j] == ds[..j] {
    }
    if d == -1 && n == 0 {
      forall j | 0 <= j <= |longer| ensures Sum(longer[..|longer|]) <= Sum(longer[..j]) {
        if j <= |ds| {
          assert Sum(ds[..k]) <= Sum(ds[..j]);
        }
      }
      assert LowestPrefix(longer, |longer|);
    } else {
      forall j | 0 <= j <= |longer| ensures Sum(longer[..k]) <= Sum(longer[..j]) {
        if j <= |ds| {
          assert Sum(ds[..k]) <= Sum(ds[..j]);
        }
      }
      assert LowestPrefix(longer, k);
    }
  }

  lemma {:induction false} OpenIffSeen(es: seq<Link>)
    ensures CountAll(ZERO, es).armed <==> ArmManager in es
    ensures CountAll(ZERO, es).basReady <==> InitBas in es
  {
    if es != [] {
      OpenIffSeen(es[..|es| - 1]);
      assert es == es[..|es| - 1] + [es[|es| - 1]];
    }
  }

  /** Each counter is its accepted connects and disconnects reflected at zero. */
  lemma {:induction false} CountersAreReflected(es: seq<Link>)
    ensures Reflected(CountAll(ZERO, es).manager, Accepted(es, ArmManager))
    ensures Reflected(CountAll(ZERO, es).bas, Accepted(es, InitBas))
  {
    if es == [] {
      assert LowestPrefix([], 0);
    } else {
      var before, e := es[..|es| - 1], es[|es| - 1];
      CountersAreReflected(before);
      OpenIffSeen(before);
      var c := CountAll(ZERO, before);
      if e == Down {
        ReflectStep(c.manager, Accepted(before, ArmManager), -1);
        ReflectStep(c.bas, Accepted(before, InitBas), -1);
      } else {
        if e == Up(0) && ArmManager in before {
          ReflectStep(c.manager, Accepted(before, ArmManager), 1);
        } else {
          assert Accepted(es, ArmManager) == Accepted(before, ArmManager);
        }
        if e == Up(0) && InitBas in before {
          ReflectStep(c.bas, Accepted(before, InitBas), 1);
        } else {
          assert Accepted(es, InitBas) == Accepted(before, InitBas);
        }
      }
    }
  }

  // ---------------------------------------------------------------- the two counters together

  function Gap(c: Counters): nat {
    if c.manager >= c.bas then c.manager - c.bas else c.bas - c.manager
  }

  /** Once both services accept connects, the counters never drift further apart. */
  lemma {:induction false} GapNeverWidens(c: Counters, es: seq<Link>)
    requires c.armed && c.basReady
    ensures
      var d := CountAll(c, es);
      d.armed && d.basReady && Gap(d) <= Gap(c)
  {
    if es != [] {
      GapNeverWidens(c, es[..|es| - 1]);
    }
  }

  /** And the moment the larger one is empty they are equal, from then on. */
  lemma EqualOnceBothEmpty(c: Counters, es: seq<Link>, more: seq<Link>)
    requires c.armed && c.basReady
    requires CountAll(c, es).manager == 0 && CountAll(c, es).bas == 0
    ensures CountAll(CountAll(c, es), more).manager == CountAll(CountAll(c, es), more).bas
  {
    GapNeverWidens(c, es);
    GapNeverWidens(CountAll(c, es), more);
  }

  /** A disconnect only ever ends a connection that is up. */
  ghost predicate Honest(c: Counters, es: seq<Link>) {
    forall i :: 0 <= i < |es| && es[i] == Down ==> CountAll(c, es[..i]).links > 0
  }

  /** If both services accept connects from the start and disconnects are honest, both counters are
      the number of live links. */
  lemma {:induction false} CountersAreLiveLinks(c: Counters, es: seq<Link>)
    requires c.armed && c.basReady && c.manager == c.bas == c.links && Honest(c, es)
    ensures CountAll(c, es).manager == CountAll(c, es).links == CountAll(c, es).bas
  {
    if es != [] {
      var before := es[..|es| - 1];
      forall i | 0 <= i < |before| && before[i] == Down ensures CountAll(c, before[..i]).links > 0 {
        assert es[i] == Down && before[..i] == es[..i];
      }
      CountersAreLiveLinks(c, before);
      GapNeverWidens(c, before);
    }
  }

  // ---------------------------------------------------------------- the advertiser's callbacks

  class Advertiser {
    const manager: SensorManager
    const battery: ChargingPath
    var advertising: bool

    constructor (manager: SensorManager, battery: ChargingPath)
      ensures this.manager == manager && this.battery == battery && !advertising
    {
      this.manager, this.battery, advertising := manager, battery, false;
    }

    ghost function Counts(links: int): Counters
      reads manager, battery
    {
      Counters(manager.armed, manager.connectedCount, battery.initialized, battery.count, links)
    }

    /** A failed connection setup reaches neither service; a good one reaches both, whatever either
        says. The foreign results are those of the calls it makes on the way. */
    method Connected(err: int, stopRet: int, lock: int, mode: int,
                     envLock: int, env: SensorIo, aqLock: int, aq: SensorIo, ghost links: int)
      requires !manager.mutexHeld && !manager.driver.mutexHeld && WorldOk(battery.world)
      modifies this, manager, manager.driver, battery
      ensures Counts(if err == 0 then links + 1 else links) == Count(old(Counts(links)), Up(err))
      ensures advertising == (old(advertising) && (err != 0 || stopRet != 0))
    {
      if err != 0 {
        return;
      }
      if advertising {
        if stopRet == 0 {
          advertising := false;
        }
      }
      var _, _ := manager.OnConnected(lock, mode, envLock, env, aqLock, aq);
      TellBattery();
    }

    method TellBattery()
      requires WorldOk(battery.world)
      modifies battery
      ensures battery.initialized == old(battery.initialized)
      ensures battery.count == if battery.initialized then old(battery.count) + 1 else old(battery.count)
    {
      ghost var p := battery.State();
      BasUpdateKeeps(p.(bas := p.bas.(count := p.bas.count + 1)));
      var _ := battery.OnConnected();
      assert battery.initialized == battery.State().bas.initialized && battery.count == battery.State().bas.count;
    }

    method Disconnected(lock: int, mode: int, ghost links: int)
      requires !manager.driver.mutexHeld
      modifies manager, manager.driver, battery
      ensures Counts(links - 1) == Count(old(Counts(links)), Down)
    {
      manager.OnDisconnected(lock, mode);
      battery.OnDisconnected();
    }
  }
}
