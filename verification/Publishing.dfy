/** Sampling and publishing together. A snapshot is copied out of the manager at one instant and
    published by the Environmental Sensing Service later: its update asks for readiness up to four
    times, and anything may happen between the copy, the questions and the publication. */
module Publishing {
  import opened Common
  import opened Floats
  import opened Sensors
  import opened EssService
  import M = Sampling
  import C = Ccs811

  /** An update under way: the copy it was handed and the readiness answers it has had. */
  datatype Flight = Flight(data: Snapshot, asked: seq<bool>)

  datatype World = World(sys: M.Sys, flights: seq<Flight>, cache: Cache)

  datatype Event =
    | Sense(e: M.Event)
    | Copy(data: Snapshot)
    | Ask(i: nat)
    | Publish(i: nat)
    | Gatt(ch: Char, f: Fetch)
    | Ccc(ch: Char, on: bool)

  const START := World(M.START, [], INITIAL)

  // ---------------------------------------------------------------- the questions of one update

  /** Where a gas block whose questions start at `from` ends: it asks once, and again only when valid
      air quality met a no. `None` while it has not had its answers. */
  function BlockEnd(valid: bool, asked: seq<bool>, from: nat): Option<nat> {
    if |asked| <= from then None
    else if !valid || asked[from] then Some(from + 1)
    else if |asked| <= from + 1 then None
    else Some(from + 2)
  }

  predicate BadAir(r: Rounding, data: Snapshot) {
    !InRange(r, data, Co2Char) || !InRange(r, data, TvocChar)
  }

  /** The update asks no further question: it stops at a climate reading out of range before the
      first, at air quality out of range after the CO2 block's, else after the TVOC block's. */
  predicate Answered(r: Rounding, flight: Flight) {
    var valid := AirQuality in flight.data.valid;
    if BadClimate(r, flight.data) then true
    else
      match BlockEnd(valid, flight.asked, 0)
      case None => false
      case Some(k) =>
        (valid && flight.asked[0] && BadAir(r, flight.data)) || BlockEnd(valid, flight.asked, k).Some?
  }

  function AnswerAt(asked: seq<bool>, k: nat): bool { k < |asked| && asked[k] }

  /** The answers by the place they were asked for; one that was not asked for plays no role. */
  function Answers(flight: Flight): Readiness {
    var valid, asked := AirQuality in flight.data.valid, flight.asked;
    var k := if BlockEnd(valid, asked, 0).Some? then BlockEnd(valid, asked, 0).value else 0;
    Readiness(valid && AnswerAt(asked, 0), AnswerAt(asked, if valid then 1 else 0),
              valid && AnswerAt(asked, k), AnswerAt(asked, if valid then k + 1 else k))
  }

  /** Which answer settles which block. Without valid air quality each block asks once, second question
      only; with it a yes settles a block, and a no is asked again. */
  lemma AnswersAre(r: Rounding, flight: Flight)
    requires Answered(r, flight) && !BadClimate(r, flight.data)
    ensures
      var ready, asked := Answers(flight), flight.asked;
      && (AirQuality !in flight.data.valid ==> |asked| >= 2 && ready.co2Again == asked[0] && ready.tvocAgain == asked[1])
      && (AirQuality in flight.data.valid ==>
            && |asked| >= 1 && ready.co2First == asked[0]
            && ((asked[0] && BadAir(r, flight.data)) || |asked| >= 2)
            && (asked[0] && !BadAir(r, flight.data) ==>
                  ready.tvocFirst == asked[1] && (!asked[1] ==> |asked| >= 3 && ready.tvocAgain == asked[2]))
            && (!asked[0] ==>
                  && |asked| >= 3 && ready.co2Again == asked[1] && ready.tvocFirst == asked[2]
                  && (!asked[2] ==> |asked| >= 4 && ready.tvocAgain == asked[3])))
  {
  }

  /** What `Answers` makes up for questions that are not asked does not matter. */
  lemma UnaskedIsIrrelevant(r: Rounding, c: Cache, data: Snapshot, ready: Readiness, other: Readiness)
    requires AirQuality in data.valid ==> ready.co2First == other.co2First && ready.tvocFirst == other.tvocFirst
    requires AirQuality !in data.valid || !ready.co2First ==> ready.co2Again == other.co2Again
    requires AirQuality !in data.valid || !ready.tvocFirst ==> ready.tvocAgain == other.tvocAgain
    ensures EssService.Update(r, c, data, ready) == EssService.Update(r, c, data, other)
  {
  }

  /** `data` is a copy of the manager's snapshot as far as the air quality goes; its other readings
      are whatever the other drivers gave. */
  predicate CopyOf(data: Snapshot, snap: Snapshot) {
    data.eco2 == snap.eco2 && data.tvoc == snap.tvoc && (AirQuality in data.valid <==> AirQuality in snap.valid)
  }

  /** A GATT read stands alone here: a callback it starts is an update under way of its own. */
  ghost predicate Enabled(r: Rounding, w: World, e: Event) {
    match e
    case Sense(s) => M.Enabled(w.sys, s)
    case Copy(data) => CopyOf(data, w.sys.snap)
    case Ask(i) => i < |w.flights| && !Answered(r, w.flights[i])
    case Publish(i) => i < |w.flights| && Answered(r, w.flights[i])
    case Gatt(_, f) => f.pushed.None?
    case Ccc(_, _) => true
  }

  function Published(r: Rounding, w: World, i: nat): Outcome
    requires i < |w.flights|
  {
    EssService.Update(r, w.cache, w.flights[i].data, Answers(w.flights[i]))
  }

  function Step(r: Rounding, w: World, e: Event): World
    requires Enabled(r, w, e)
  {
    match e
    case Sense(s) => w.(sys := M.Step(w.sys, s))
    case Copy(data) => w.(flights := w.flights + [Flight(data, [])])
    case Ask(i) =>
      var answer := C.Ready(w.sys.d, w.sys.clock);
      var flight := w.flights[i];
      w.(sys := M.Check(w.sys), flights := w.flights[i := flight.(asked := flight.asked + [answer])])
    case Publish(i) => w.(cache := Published(r, w, i).cache, flights := w.flights[..i] + w.flights[i + 1..])
    case Gatt(ch, f) => w.(cache := Read(r, w.cache, ch, f).cache)
    case Ccc(ch, on) => w.(cache := SetNotify(w.cache, ch, on))
  }

  ghost predicate Run(r: Rounding, w: World, es: seq<Event>)
    decreases |es|
  {
    es == [] || (Enabled(r, w, es[0]) && Run(r, Step(r, w, es[0]), es[1..]))
  }

  ghost function After(r: Rounding, w: World, es: seq<Event>): World
    requires Run(r, w, es)
    decreases |es|
  {
    if es == [] then w else After(r, Step(r, w, es[0]), es[1..])
  }

  /** A question gets the answer of its instant, for its own update. */
  lemma AskRecordsReadiness(r: Rounding, w: World, i: nat, k: nat)
    requires Enabled(r, w, Ask(i)) && k < |w.flights|
    ensures
      var t := Step(r, w, Ask(i));
      && t.cache == w.cache && |t.flights| == |w.flights| && t.flights[k].data == w.flights[k].data
      && t.flights[k].asked == if k == i then w.flights[i].asked + [C.Ready(w.sys.d, w.sys.clock)] else w.flights[k].asked
  {
  }

  /** A publication is the service's update of the copy with those answers, once. */
  lemma PublishApplies(r: Rounding, w: World, i: nat)
    requires Enabled(r, w, Publish(i))
    ensures
      var t := Step(r, w, Publish(i));
      && t.cache == EssService.Update(r, w.cache, w.flights[i].data, Answers(w.flights[i])).cache
      && t.sys == w.sys && t.flights == w.flights[..i] + w.flights[i + 1..]
  {
  }

  // ---------------------------------------------------------------- the invariant

  /** A copy with valid air quality was taken after conditioning, so every answer it had was yes. */
  ghost predicate FlightOk(sys: M.Sys, flight: Flight) {
    AirQuality in flight.data.valid ==>
      && sys.d.complete
      && Eco2Ok(flight.data.eco2) && TvocOk(flight.data.tvoc)
      && forall k :: 0 <= k < |flight.asked| ==> flight.asked[k]
  }

  ghost predicate Inv(w: World) {
    && M.Inv(w.sys)
    && CacheOk(w.cache)
    && forall i :: 0 <= i < |w.flights| ==> FlightOk(w.sys, w.flights[i])
  }

  lemma FlightStaysOk(before: M.Sys, after: M.Sys, flight: Flight)
    requires FlightOk(before, flight) && (before.d.complete ==> after.d.complete)
    ensures FlightOk(after, flight)
  {
  }

  lemma FlightsStayOk(w: World, sys: M.Sys)
    requires Inv(w) && (w.sys.d.complete ==> sys.d.complete)
    ensures forall i :: 0 <= i < |w.flights| ==> FlightOk(sys, w.flights[i])
  {
    forall i | 0 <= i < |w.flights| ensures FlightOk(sys, w.flights[i]) {
      FlightStaysOk(w.sys, sys, w.flights[i]);
    }
  }

  lemma FlightIsChecked(sys: M.Sys, flight: Flight)
    requires FlightOk(sys, flight)
    ensures Checked(flight.data, Answers(flight))
  {
  }

  /** The questions of a valid copy were answered yes, one in each block it came to. */
  lemma ValidFlight(r: Rounding, sys: M.Sys, flight: Flight)
    requires FlightOk(sys, flight) && Answered(r, flight)
    requires AirQuality in flight.data.valid && !BadClimate(r, flight.data)
    ensures Answers(flight).co2First
    ensures !BadAir(r, flight.data) ==> Answers(flight).tvocFirst
  {
  }

  lemma AskKeepsInv(r: Rounding, w: World, i: nat)
    requires Inv(w) && Enabled(r, w, Ask(i))
    ensures Inv(Step(r, w, Ask(i)))
  {
    M.CheckKeepsInv(w.sys);
    var t := Step(r, w, Ask(i));
    FlightsStayOk(w, t.sys);
    assert FlightOk(t.sys, t.flights[i]);
  }

  lemma PublishKeepsInv(r: Rounding, w: World, i: nat)
    requires Inv(w) && Enabled(r, w, Publish(i))
    ensures Inv(Step(r, w, Publish(i)))
  {
    FlightIsChecked(w.sys, w.flights[i]);
    UpdateKeepsOk(r, w.cache, w.flights[i].data, Answers(w.flights[i]));
  }

  lemma ServiceKeepsInv(r: Rounding, w: World, e: Event)
    requires Inv(w) && Enabled(r, w, e) && (e.Gatt? || e.Ccc?)
    ensures Inv(Step(r, w, e))
  {
    match e
    case Gatt(ch, f) => ReadKeepsOk(r, w.cache, ch, f);
    case Ccc(ch, on) =>
      forall other ensures At(SetNotify(w.cache, ch, on), other) == if other == ch then At(w.cache, ch).(notify := on) else At(w.cache, other) {
        PutGet(w.cache, ch, other, At(w.cache, ch).(notify := on));
      }
  }

  lemma StepKeepsInv(r: Rounding, w: World, e: Event)
    requires Inv(w) && Enabled(r, w, e)
    ensures Inv(Step(r, w, e))
  {
    match e
    case Sense(s) =>
      M.StepKeepsInv(w.sys, s);
      FlightsStayOk(w, M.Step(w.sys, s));
    case Copy(_) =>
    case Ask(i) => AskKeepsInv(r, w, i);
    case Publish(i) => PublishKeepsInv(r, w, i);
    case Gatt(_, _) | Ccc(_, _) => ServiceKeepsInv(r, w, e);
  }

  lemma {:induction false} RunKeepsInv(r: Rounding, w: World, es: seq<Event>)
    requires Inv(w) && Run(r, w, es)
    ensures Inv(After(r, w, es))
    decreases |es|
  {
    if es != [] {
      StepKeepsInv(r, w, es[0]);
      RunKeepsInv(r, Step(r, w, es[0]), es[1..]);
    }
  }

  // ---------------------------------------------------------------- theorems

  /** The unchecked TVOC of `FlipStoresUncheckedTvoc` cannot happen here: however sampling, readiness
      and publication interleave, a known value is in its characteristic's range. */
  lemma PublishedCacheIsInRange(r: Rounding, es: seq<Event>)
    requires Run(r, START, es)
    ensures CacheOk(After(r, START, es).cache)
  {
    RunKeepsInv(r, START, es);
  }

  lemma GasesWithAir(r: Rounding, c: Cache, data: Snapshot, ready: Readiness)
    requires AirQuality in data.valid && !BadClimate(r, data)
    requires ready.co2First && (!BadAir(r, data) ==> ready.tvocFirst)
    ensures
      var o := EssService.Update(r, c, data, ready);
      && (o.ret == 0 <==> !BadAir(r, data))
      && (o.ret == 0 ==> o.cache.co2 == Sensor(data.eco2, true, c.co2.notify) && o.cache.tvoc == Sensor(data.tvoc, true, c.tvoc.notify))
  {
    ClimateFailure(r, c, data);
    StoreElsewhere(r, c, data);
  }

  /** Publishing valid air quality never takes the "conditioning" branch: a successful update
      stores both values as measured, and one that fails on air quality does so because the eCO2
      is above the service's 5000 ppm, never because of the TVOC. */
  lemma ValidAirIsPublishedAsMeasured(r: Rounding, es: seq<Event>, i: nat)
    requires Run(r, START, es) && Enabled(r, After(r, START, es), Publish(i))
    requires AirQuality in After(r, START, es).flights[i].data.valid
    ensures
      var w := After(r, START, es);
      var data := w.flights[i].data;
      var o := Published(r, w, i);
      && (o.ret == 0 <==> !BadClimate(r, data) && data.eco2 <= 5000)
      && (o.ret == 0 ==> o.cache.co2 == Sensor(data.eco2, true, w.cache.co2.notify))
      && (o.ret == 0 ==> o.cache.tvoc == Sensor(data.tvoc, true, w.cache.tvoc.notify))
  {
    RunKeepsInv(r, START, es);
    FlightMeasures(r, After(r, START, es), i);
  }

  lemma FlightMeasures(r: Rounding, w: World, i: nat)
    requires Inv(w) && Enabled(r, w, Publish(i)) && AirQuality in w.flights[i].data.valid
    ensures
      var data := w.flights[i].data;
      var o := Published(r, w, i);
      && Eco2Ok(data.eco2) && TvocOk(data.tvoc)
      && (o.ret == 0 <==> !BadClimate(r, data) && data.eco2 <= 5000)
      && (o.ret == 0 ==> o.cache.co2 == Sensor(data.eco2, true, w.cache.co2.notify))
      && (o.ret == 0 ==> o.cache.tvoc == Sensor(data.tvoc, true, w.cache.tvoc.notify))
  {
    var flight := w.flights[i];
    assert FlightOk(w.sys, flight);
    if BadClimate(r, flight.data) {
      BadClimateFails(r, w.cache, flight.data, Answers(flight));
    } else {
      ValidFlight(r, w.sys, flight);
      GasesWithAir(r, w.cache, flight.data, Answers(flight));
    }
  }

  lemma BadClimateFails(r: Rounding, c: Cache, data: Snapshot, ready: Readiness)
    requires BadClimate(r, data)
    ensures EssService.Update(r, c, data, ready).ret == ERANGE
  {
    ClimateFailure(r, c, data);
    GasFailure(r, UpdateClimate(r, c, data), data, ready);
  }

  lemma GasesWithoutAir(r: Rounding, c: Cache, data: Snapshot, ready: Readiness)
    requires AirQuality !in data.valid && EssService.Update(r, c, data, ready).ret == 0
    ensures
      var u := EssService.Update(r, c, data, ready).cache;
      && GasState(u.co2) == (if ready.co2Again then Missing else Unknown16)
      && GasState(u.tvoc) == (if ready.tvocAgain then Missing else Unknown16)
  {
  }

  /** The two gases are both real, both 0xFFFF or both unknown exactly when the air quality of the copy
      was valid or its first two answers, then one for each gas block, were the same. */
  ghost predicate PairAgreesIff(c: Cache, flight: Flight) {
    && |flight.asked| >= 2
    && (GasState(c.co2) == GasState(c.tvoc) <==> AirQuality in flight.data.valid || flight.asked[0] == flight.asked[1])
  }

  /** After a successful publication the two gases disagree only when the air quality was not valid
      and the sensor became ready between the CO2 block's question and the TVOC block's. */
  lemma GasPairAgreesIff(r: Rounding, es: seq<Event>, i: nat)
    requires Run(r, START, es) && Enabled(r, After(r, START, es), Publish(i))
    ensures PairSettled(r, After(r, START, es), i)
  {
    RunKeepsInv(r, START, es);
    var w := After(r, START, es);
    if Published(r, w, i).ret == 0 {
      FlightPairAgreesIff(r, w, i);
    }
  }

  ghost predicate PairSettled(r: Rounding, w: World, i: nat) {
    && i < |w.flights|
    && (Published(r, w, i).ret == 0 ==> PairAgreesIff(Published(r, w, i).cache, w.flights[i]))
  }

  lemma FlightPairAgreesIff(r: Rounding, w: World, i: nat)
    requires Inv(w) && Enabled(r, w, Publish(i)) && Published(r, w, i).ret == 0
    ensures PairAgreesIff(Published(r, w, i).cache, w.flights[i])
  {
    var flight := w.flights[i];
    if BadClimate(r, flight.data) {
      BadClimateFails(r, w.cache, flight.data, Answers(flight));
    } else if AirQuality in flight.data.valid {
      FlightMeasures(r, w, i);
      ValidAirIsReal(flight.data);
    } else {
      GasesWithoutAir(r, w.cache, flight.data, Answers(flight));
    }
  }

  lemma ValidAirIsReal(data: Snapshot)
    requires Eco2Ok(data.eco2) && TvocOk(data.tvoc)
    ensures forall on :: GasState(Sensor(data.eco2, true, on)) == Real && GasState(Sensor(data.tvoc, true, on)) == Real
  {
  }

  /** Every publication notifies a subscriber of exactly the characteristics whose bytes changed. */
  lemma PublicationNotifiesChanges(r: Rounding, es: seq<Event>, i: nat, ch: Char)
    requires Run(r, START, es) && Enabled(r, After(r, START, es), Publish(i))
    ensures
      var w := After(r, START, es);
      var o := Published(r, w, i);
      For(o.notes, ch) == Due(At(w.cache, ch), At(o.cache, ch), ch)
  {
    RunKeepsInv(r, START, es);
    var w := After(r, START, es);
    assert FlightOk(w.sys, w.flights[i]);
    FlightIsChecked(w.sys, w.flights[i]);
    NotifiedIffChanged(r, w.cache, w.flights[i].data, Answers(w.flights[i]), ch);
  }
}
