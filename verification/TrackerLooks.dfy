/**
 The cars of the tracker, told from the events alone: all that is kept of a car is a
 function of the looks taken at it, of the countdowns between them and of the boost
 pickups reported for it.
 */
module TrackerLooks {
  import opened Options
  import opened TrackerSpec
  import opened TrackerTime
  import opened TrackerHistory
  import opened TrackerCars

  datatype Look = Seen(player: PlayerSample, seconds: real) | Forgotten | Picked(big: bool) {
    /** The car was there to be looked at. */
    predicate Alive() {
      Seen? && !player.demolished && player.hasCar
    }
  }

  function LooksAt(players: seq<PlayerSample>, id: string, seconds: real): seq<Look> {
    if players == [] then []
    else
      var before := LooksAt(players[..|players| - 1], id, seconds);
      var p := players[|players| - 1];
      if p.id == id && (p.hasCarField || p.demolished) then before + [Seen(p, seconds)] else before
  }

  /** What a run shows of one car, in order. */
  function Looks(events: seq<Timed>, id: string): seq<Look> {
    if events == [] then []
    else
      var before := Looks(events[..|events| - 1], id);
      match events[|events| - 1].event
      case Updated(u) => if Counted(events) > 0.0 then before + LooksAt(u.players, id, Counted(events)) else before
      case CountdownBegan => before + [Forgotten]
      case BoostPickedUp(owner, replay, big) => if !replay && owner == id then before + [Picked(big)] else before
      case _ => before
  }

  // ---------------------------------------------------------------- looking back over the looks

  /** What the seconds of a look are added to. */
  datatype What =
    | Sampled | OnWall | OnGround | InAir | Gone | Sliding | Boosting
    | BoostTime | Empty | Full | Band(low: int, high: int)

  function Amount(p: PlayerSample): int {
    if p.boost.None? || p.boost.value < 0 then 0 else if p.boost.value > 100 then 100 else p.boost.value
  }

  function Part(condition: bool, seconds: real): real {
    if condition then seconds else 0.0
  }

  function Share(w: What, p: PlayerSample, seconds: real): real {
    match w
    case Sampled => seconds
    case OnWall => Part(p.onWall, seconds)
    case OnGround => Part(!p.onWall && p.onGround, seconds)
    case InAir => Part(!p.onWall && !p.onGround, seconds)
    case Gone => 0.0
    case Sliding => Part(p.powersliding, seconds)
    case Boosting => Part(p.boosting, seconds)
    case BoostTime => Amount(p) as real * seconds
    case Empty => Part(Amount(p) == 0, seconds)
    case Full => Part(Amount(p) == 100, seconds)
    case Band(low, high) => Part(low <= Amount(p) < high, seconds)
  }

  function Value(w: What, l: Look): real {
    if !l.Seen? then 0.0
    else if l.Alive() then Share(w, l.player, l.seconds)
    else if w.Gone? then l.seconds
    else 0.0
  }

  function Total(looks: seq<Look>, w: What): real {
    if looks == [] then 0.0 else Total(looks[..|looks| - 1], w) + Value(w, looks[|looks| - 1])
  }

  /** Which of the reported pickups are counted. */
  datatype Pads = AnyPad | BigPad | SmallPad

  predicate Matches(pads: Pads, l: Look) {
    l.Picked? && (pads.AnyPad? || l.big == pads.BigPad?)
  }

  function Number(looks: seq<Look>, pads: Pads): nat {
    if looks == [] then 0
    else Number(looks[..|looks| - 1], pads) + (if Matches(pads, looks[|looks| - 1]) then 1 else 0)
  }

  function Samples(looks: seq<Look>): seq<SpeedSample> {
    if looks == [] then []
    else
      var l := looks[|looks| - 1];
      Samples(looks[..|looks| - 1])
      + (if l.Alive() then [SpeedSample(l.player.speed, l.seconds, Some(l.player.supersonic))] else [])
  }

  /** Was the car powersliding when it was last looked at? */
  predicate SlidBefore(looks: seq<Look>) {
    looks != [] &&
    match looks[|looks| - 1]
    case Seen(p, _) => looks[|looks| - 1].Alive() && p.powersliding
    case Forgotten => false
    case Picked(_) => SlidBefore(looks[..|looks| - 1])
  }

  /** A powerslide is counted where one begins. */
  function Slides(looks: seq<Look>): nat {
    if looks == [] then 0
    else
      var earlier, l := looks[..|looks| - 1], looks[|looks| - 1];
      Slides(earlier) + (if l.Alive() && l.player.powersliding && !SlidBefore(earlier) then 1 else 0)
  }

  /** The boost amount last seen, unless a countdown came after it. */
  function AmountBefore(looks: seq<Look>): Option<int> {
    if looks == [] then None
    else
      var l := looks[|looks| - 1];
      if l.Alive() then Some(Amount(l.player))
      else if l.Forgotten? then None
      else AmountBefore(looks[..|looks| - 1])
  }

  /** The car was gone and its amount has not changed since: a respawn grant is due. */
  predicate GrantDue(looks: seq<Look>) {
    looks != [] &&
    var earlier, l := looks[..|looks| - 1], looks[|looks| - 1];
    match l
    case Seen(p, _) =>
      if l.Alive() then GrantDue(earlier) && (AmountBefore(earlier).None? || AmountBefore(earlier).value == Amount(p))
      else true
    case Forgotten => false
    case Picked(_) => GrantDue(earlier)
  }

  /** How much boost the latest look shows to have been won (or lost, when negative). */
  function Change(looks: seq<Look>): int
    requires looks != []
  {
    var earlier, l := looks[..|looks| - 1], looks[|looks| - 1];
    if l.Alive() && AmountBefore(earlier).Some? && !GrantDue(earlier)
    then Amount(l.player) - AmountBefore(earlier).value else 0
  }

  function Collected(looks: seq<Look>): int {
    if looks == [] then 0
    else Collected(looks[..|looks| - 1]) + (if Change(looks) > 0 then Change(looks) else 0)
  }

  function Used(looks: seq<Look>): int {
    if looks == [] then 0
    else Used(looks[..|looks| - 1]) + (if Change(looks) < 0 then -Change(looks) else 0)
  }

  /** A gain of more than 12 is taken for a big pad. */
  function GainsOver12(looks: seq<Look>): nat {
    if looks == [] then 0 else GainsOver12(looks[..|looks| - 1]) + (if Change(looks) > 12 then 1 else 0)
  }

  function GainsUpTo12(looks: seq<Look>): nat {
    if looks == [] then 0 else GainsUpTo12(looks[..|looks| - 1]) + (if 0 < Change(looks) <= 12 then 1 else 0)
  }

  // ---------------------------------------------------------------- the car remembers it

  ghost predicate TellsPlaces(car: Car, looks: seq<Look>) {
    && car.sampled == Total(looks, Sampled) && car.wall == Total(looks, OnWall)
    && car.ground == Total(looks, OnGround) && car.air == Total(looks, InAir)
    && car.demolished == Total(looks, Gone)
    && car.samples == Samples(looks)
  }

  ghost predicate TellsMoves(car: Car, looks: seq<Look>) {
    && car.powerslide == Total(looks, Sliding) && car.boosting == Total(looks, Boosting)
    && car.powerslides == Slides(looks) && car.wasPowersliding == SlidBefore(looks)
  }

  ghost predicate TellsAmounts(car: Car, looks: seq<Look>) {
    && car.boostIntegral == Total(looks, BoostTime)
    && car.zeroBoost == Total(looks, Empty) && car.fullBoost == Total(looks, Full)
    && car.band0 == Total(looks, Band(0, 25)) && car.band1 == Total(looks, Band(25, 50))
    && car.band2 == Total(looks, Band(50, 75)) && car.band3 == Total(looks, Band(75, 101))
  }

  ghost predicate TellsBoost(car: Car, looks: seq<Look>) {
    && car.lastBoost == AmountBefore(looks) && car.respawning == GrantDue(looks)
    && car.boostCollected == Collected(looks) && car.boostUsed == Used(looks)
  }

  /** Pads are those reported as picked up, or, while none was reported, those the gains look like. */
  ghost predicate TellsPads(car: Car, looks: seq<Look>) {
    && car.padsFromEvents == (Number(looks, AnyPad) > 0)
    && car.bigPads == (if car.padsFromEvents then Number(looks, BigPad) else GainsOver12(looks))
    && car.smallPads == (if car.padsFromEvents then Number(looks, SmallPad) else GainsUpTo12(looks))
    && (Number(looks, AnyPad) == 0 ==> Number(looks, BigPad) == 0 == Number(looks, SmallPad))
  }

  ghost predicate Tells(car: Car, looks: seq<Look>) {
    && TellsPlaces(car, looks) && TellsMoves(car, looks) && TellsAmounts(car, looks)
    && TellsBoost(car, looks) && TellsPads(car, looks)
  }

  // ---------------------------------------------------------------- one more look

  lemma TotalSnoc(looks: seq<Look>, l: Look, w: What)
    ensures Total(looks + [l], w) == Total(looks, w) + Value(w, l)
  {
    assert (looks + [l])[..|looks|] == looks;
  }

  lemma NumberSnoc(looks: seq<Look>, l: Look, pads: Pads)
    ensures Number(looks + [l], pads) == Number(looks, pads) + (if Matches(pads, l) then 1 else 0)
  {
    assert (looks + [l])[..|looks|] == looks;
  }

  lemma SamplesSnoc(looks: seq<Look>, l: Look)
    ensures Samples(looks + [l]) == Samples(looks)
         + (if l.Alive() then [SpeedSample(l.player.speed, l.seconds, Some(l.player.supersonic))] else [])
  {
    assert (looks + [l])[..|looks|] == looks;
  }

  ghost predicate AddsPlaces(car: Car, next: Car, l: Look) {
    && next.sampled == car.sampled + Value(Sampled, l) && next.wall == car.wall + Value(OnWall, l)
    && next.ground == car.ground + Value(OnGround, l) && next.air == car.air + Value(InAir, l)
    && next.demolished == car.demolished + Value(Gone, l)
    && next.samples == car.samples
       + (if l.Alive() then [SpeedSample(l.player.speed, l.seconds, Some(l.player.supersonic))] else [])
  }

  lemma PlacesStep(car: Car, next: Car, looks: seq<Look>, l: Look)
    requires TellsPlaces(car, looks) && AddsPlaces(car, next, l)
    ensures TellsPlaces(next, looks + [l])
  {
    hide Total, Value, Samples;
    TotalSnoc(looks, l, Sampled);
    TotalSnoc(looks, l, OnWall);
    TotalSnoc(looks, l, OnGround);
    TotalSnoc(looks, l, InAir);
    TotalSnoc(looks, l, Gone);
    SamplesSnoc(looks, l);
  }

  ghost predicate AddsMoves(car: Car, next: Car, l: Look) {
    && next.powerslide == car.powerslide + Value(Sliding, l) && next.boosting == car.boosting + Value(Boosting, l)
    && next.powerslides == car.powerslides
       + (if l.Alive() && l.player.powersliding && !car.wasPowersliding then 1 else 0)
    && next.wasPowersliding == if l.Picked? then car.wasPowersliding else l.Alive() && l.player.powersliding
  }

  lemma MovesStep(car: Car, next: Car, looks: seq<Look>, l: Look)
    requires TellsMoves(car, looks) && AddsMoves(car, next, l)
    ensures TellsMoves(next, looks + [l])
  {
    hide Total, Value;
    TotalSnoc(looks, l, Sliding);
    TotalSnoc(looks, l, Boosting);
    assert (looks + [l])[..|looks|] == looks;
  }

  ghost predicate AddsAmounts(car: Car, next: Car, l: Look) {
    && next.boostIntegral == car.boostIntegral + Value(BoostTime, l)
    && next.zeroBoost == car.zeroBoost + Value(Empty, l) && next.fullBoost == car.fullBoost + Value(Full, l)
    && next.band0 == car.band0 + Value(Band(0, 25), l) && next.band1 == car.band1 + Value(Band(25, 50), l)
    && next.band2 == car.band2 + Value(Band(50, 75), l) && next.band3 == car.band3 + Value(Band(75, 101), l)
  }

  lemma AmountsStep(car: Car, next: Car, looks: seq<Look>, l: Look)
    requires TellsAmounts(car, looks) && AddsAmounts(car, next, l)
    ensures TellsAmounts(next, looks + [l])
  {
    hide Total, Value;
    TotalSnoc(looks, l, BoostTime);
    TotalSnoc(looks, l, Empty);
    TotalSnoc(looks, l, Full);
    TotalSnoc(looks, l, Band(0, 25));
    TotalSnoc(looks, l, Band(25, 50));
    TotalSnoc(looks, l, Band(50, 75));
    TotalSnoc(looks, l, Band(75, 101));
  }

  /** What one look at a living car with a known amount and no grant due shows. */
  function ChangeSeen(car: Car, l: Look): int {
    if l.Alive() && car.lastBoost.Some? && !car.respawning then Amount(l.player) - car.lastBoost.value else 0
  }

  ghost predicate AddsBoost(car: Car, next: Car, l: Look) {
    && next.lastBoost == (if l.Alive() then Some(Amount(l.player)) else if l.Forgotten? then None else car.lastBoost)
    && next.respawning == (match l
         case Seen(p, _) => !l.Alive() || (car.respawning && (car.lastBoost.None? || car.lastBoost.value == Amount(p)))
         case Forgotten => false
         case Picked(_) => car.respawning)
    && next.boostCollected == car.boostCollected + (if ChangeSeen(car, l) > 0 then ChangeSeen(car, l) else 0)
    && next.boostUsed == car.boostUsed + (if ChangeSeen(car, l) < 0 then -ChangeSeen(car, l) else 0)
  }

  lemma BoostStep(car: Car, next: Car, looks: seq<Look>, l: Look)
    requires TellsBoost(car, looks) && AddsBoost(car, next, l)
    ensures TellsBoost(next, looks + [l]) && Change(looks + [l]) == ChangeSeen(car, l)
  {
    hide Amount;
    assert (looks + [l])[..|looks|] == looks;
  }

  ghost predicate AddsPads(car: Car, next: Car, l: Look) {
    && next.padsFromEvents == (car.padsFromEvents || l.Picked?)
    && (if l.Picked? then
          && next.bigPads == (if car.padsFromEvents then car.bigPads else 0) + (if l.big then 1 else 0)
          && next.smallPads == (if car.padsFromEvents then car.smallPads else 0) + (if l.big then 0 else 1)
        else
          && next.bigPads == car.bigPads + (if !car.padsFromEvents && ChangeSeen(car, l) > 12 then 1 else 0)
          && next.smallPads == car.smallPads + (if !car.padsFromEvents && 0 < ChangeSeen(car, l) <= 12 then 1 else 0))
  }

  lemma PadsStep(car: Car, next: Car, looks: seq<Look>, l: Look)
    requires TellsPads(car, looks) && AddsPads(car, next, l) && Change(looks + [l]) == ChangeSeen(car, l)
    ensures TellsPads(next, looks + [l])
  {
    hide Number, Change, ChangeSeen;
    NumberSnoc(looks, l, AnyPad);
    NumberSnoc(looks, l, BigPad);
    NumberSnoc(looks, l, SmallPad);
    assert (looks + [l])[..|looks|] == looks;
  }

  ghost predicate Adds(car: Car, next: Car, l: Look) {
    && AddsPlaces(car, next, l) && AddsMoves(car, next, l) && AddsAmounts(car, next, l)
    && AddsBoost(car, next, l) && AddsPads(car, next, l)
  }

  /** A car that tells the looks so far and adds one more tells them all. */
  lemma LookStep(car: Car, next: Car, looks: seq<Look>, l: Look)
    requires Tells(car, looks) && Adds(car, next, l)
    ensures Tells(next, looks + [l])
  {
    hide TellsPlaces, TellsMoves, TellsAmounts, TellsBoost, TellsPads,
         AddsPlaces, AddsMoves, AddsAmounts, AddsBoost, AddsPads;
    PlacesStep(car, next, looks, l);
    MovesStep(car, next, looks, l);
    AmountsStep(car, next, looks, l);
    BoostStep(car, next, looks, l);
    PadsStep(car, next, looks, l);
  }

  // ---------------------------------------------------------------- the car's own steps are those

  lemma SurfacesPlace(car: Car, p: PlayerSample, dt: real)
    requires !p.demolished && p.hasCar
    ensures AddsPlaces(car, CarSurfaces(car, p, dt), Seen(p, dt))
  {}

  predicate SamePlaces(car: Car, next: Car) {
    && next.sampled == car.sampled && next.wall == car.wall && next.ground == car.ground && next.air == car.air
    && next.demolished == car.demolished && next.samples == car.samples
  }

  lemma AmountsKeepPlaces(car: Car, amount: int, dt: real)
    ensures SamePlaces(car, CarBoost(CarBands(CarAmounts(car, amount, dt), amount, dt), amount))
  {
    hide BoostArea;
  }

  lemma SeenPlaces(car: Car, p: PlayerSample, dt: real)
    ensures AddsPlaces(car, CarSample(car, p, dt), Seen(p, dt))
  {
    hide CarSurfaces, CarAmounts, CarBands, CarBoost, Boost;
    if !p.demolished && p.hasCar {
      SurfacesPlace(car, p, dt);
      AmountsKeepPlaces(CarSurfaces(car, p, dt), Boost(p), dt);
    }
  }

  predicate SameMoves(car: Car, next: Car) {
    && next.powerslide == car.powerslide && next.powerslides == car.powerslides && next.boosting == car.boosting
    && next.wasPowersliding == car.wasPowersliding
  }

  lemma AmountsKeepMoves(car: Car, amount: int, dt: real)
    ensures SameMoves(car, CarBoost(CarBands(CarAmounts(car, amount, dt), amount, dt), amount))
  {
    hide BoostArea;
  }

  lemma SurfacesMove(car: Car, p: PlayerSample, dt: real)
    requires !p.demolished && p.hasCar
    ensures AddsMoves(car, CarSurfaces(car, p, dt), Seen(p, dt))
  {}

  lemma SeenMoves(car: Car, p: PlayerSample, dt: real)
    ensures AddsMoves(car, CarSample(car, p, dt), Seen(p, dt))
  {
    hide CarSurfaces, CarAmounts, CarBands, CarBoost, Boost;
    if !p.demolished && p.hasCar {
      SurfacesMove(car, p, dt);
      AmountsKeepMoves(CarSurfaces(car, p, dt), Boost(p), dt);
    }
  }

  lemma AmountIsBoost(p: PlayerSample)
    ensures Boost(p) == Amount(p) && 0 <= Amount(p) <= 100
  {}

  lemma SeenAmounts(car: Car, p: PlayerSample, dt: real)
    ensures AddsAmounts(car, CarSample(car, p, dt), Seen(p, dt))
  {
    hide Boost, Amount, CarSurfaces, CarBoost, CarAmounts, CarBands;
    AmountIsBoost(p);
    var a := Amount(p);
    AmountBands(a);
    if !p.demolished && p.hasCar {
      SurfacesKeepAmounts(car, p, dt);
      AmountsAdd(CarSurfaces(car, p, dt), a, dt);
      BoostKeepsAmounts(CarTimes(car, p, dt), a);
    }
  }

  predicate SameAmounts(car: Car, next: Car) {
    && next.boostIntegral == car.boostIntegral && next.zeroBoost == car.zeroBoost && next.fullBoost == car.fullBoost
    && next.band0 == car.band0 && next.band1 == car.band1 && next.band2 == car.band2 && next.band3 == car.band3
  }

  lemma SurfacesKeepAmounts(car: Car, p: PlayerSample, dt: real)
    ensures SameAmounts(car, CarSurfaces(car, p, dt))
  {}

  lemma BoostKeepsAmounts(car: Car, amount: int)
    ensures SameAmounts(car, CarBoost(car, amount))
  {}

  lemma AmountBands(a: int)
    requires 0 <= a <= 100
    ensures (a / 25 == 0 <==> 0 <= a < 25) && (a / 25 == 1 <==> 25 <= a < 50)
    ensures (a / 25 == 2 <==> 50 <= a < 75) && (a / 25 >= 3 <==> 75 <= a < 101)
    ensures (a <= 0 <==> a == 0) && (a >= 100 <==> a == 100)
  {}

  lemma AmountsAdd(car: Car, a: int, dt: real)
    ensures var next := CarBands(CarAmounts(car, a, dt), a, dt);
      && next.boostIntegral == car.boostIntegral + a as real * dt
      && next.zeroBoost == car.zeroBoost + If(a <= 0, dt) && next.fullBoost == car.fullBoost + If(a >= 100, dt)
      && next.band0 == car.band0 + If(a / 25 == 0, dt) && next.band1 == car.band1 + If(a / 25 == 1, dt)
      && next.band2 == car.band2 + If(a / 25 == 2, dt) && next.band3 == car.band3 + If(a / 25 >= 3, dt)
  {}

  predicate SameBoost(car: Car, next: Car) {
    && next.lastBoost == car.lastBoost && next.respawning == car.respawning
    && next.boostCollected == car.boostCollected && next.boostUsed == car.boostUsed
    && next.padsFromEvents == car.padsFromEvents && next.bigPads == car.bigPads && next.smallPads == car.smallPads
  }

  lemma TimesKeepBoost(car: Car, p: PlayerSample, dt: real)
    ensures SameBoost(car, CarTimes(car, p, dt))
  {
    hide BoostArea, Boost;
  }

  lemma BoostAdds(car: Car, p: PlayerSample, dt: real)
    requires !p.demolished && p.hasCar
    ensures AddsBoost(car, CarBoost(car, Amount(p)), Seen(p, dt))
    ensures AddsPads(car, CarBoost(car, Amount(p)), Seen(p, dt))
  {
    hide Amount;
  }

  lemma SameBoostAdds(car: Car, same: Car, next: Car, l: Look)
    requires SameBoost(car, same) && AddsBoost(same, next, l) && AddsPads(same, next, l)
    ensures AddsBoost(car, next, l) && AddsPads(car, next, l)
  {
    hide Amount;
  }

  lemma SeenBoost(car: Car, p: PlayerSample, dt: real)
    ensures AddsBoost(car, CarSample(car, p, dt), Seen(p, dt)) && AddsPads(car, CarSample(car, p, dt), Seen(p, dt))
  {
    if !p.demolished && p.hasCar {
      hide CarTimes, CarBoost, Boost, Amount, AddsBoost, AddsPads, SameBoost;
      AmountIsBoost(p);
      var timed := CarTimes(car, p, dt);
      TimesKeepBoost(car, p, dt);
      BoostAdds(timed, p, dt);
      SameBoostAdds(car, timed, CarSample(car, p, dt), Seen(p, dt));
    }
  }

  lemma SeenAdds(car: Car, p: PlayerSample, dt: real)
    ensures Adds(car, CarSample(car, p, dt), Seen(p, dt))
  {
    hide CarSample, AddsPlaces, AddsMoves, AddsAmounts, AddsBoost, AddsPads;
    SeenPlaces(car, p, dt);
    SeenMoves(car, p, dt);
    SeenAmounts(car, p, dt);
    SeenBoost(car, p, dt);
  }

  lemma CountdownAdds(car: Car)
    ensures Adds(car, CountdownCar(car), Forgotten)
  {}

  lemma PickupAdds(car: Car, big: bool)
    ensures Adds(car, PickupCar(car, big), Picked(big))
  {}

  // ---------------------------------------------------------------- over whole runs

  /** The car of `id` and what was seen of it; it is listed once it was sampled or picked up boost. */
  ghost predicate TellsCar(cars: map<string, Car>, id: string, looks: seq<Look>) {
    Tells(CarOf(cars, id), looks) && (id in cars <==> exists i | 0 <= i < |looks| :: !looks[i].Forgotten?)
  }

  lemma OneMoreLook(cars: map<string, Car>, id: string, next: Car, looks: seq<Look>, l: Look)
    requires TellsCar(cars, id, looks) && Adds(CarOf(cars, id), next, l) && !l.Forgotten?
    ensures TellsCar(cars[id := next], id, looks + [l])
  {
    hide Tells, Adds;
    LookStep(CarOf(cars, id), next, looks, l);
    assert (looks + [l])[|looks|] == l;
  }

  lemma {:induction false} SamplesAdd(cars: map<string, Car>, players: seq<PlayerSample>, dt: real, id: string,
                                      looks: seq<Look>)
    requires id != "" && TellsCar(cars, id, looks)
    ensures TellsCar(SampleCars(cars, players, dt), id, looks + LooksAt(players, id, dt))
  {
    hide TellsCar, CarSample, Adds;
    if players == [] {
      assert looks + [] == looks;
    } else {
      var p := players[|players| - 1];
      var before := SampleCars(cars, players[..|players| - 1], dt);
      var seen := LooksAt(players[..|players| - 1], id, dt);
      SamplesAdd(cars, players[..|players| - 1], dt, id, looks);
      if p.id == id && !Skipped(p) {
        SeenAdds(CarOf(before, id), p, dt);
        OneMoreLook(before, id, CarSample(CarOf(before, id), p, dt), looks + seen, Seen(p, dt));
        assert looks + seen + [Seen(p, dt)] == looks + (seen + [Seen(p, dt)]);
      } else if !Skipped(p) {
        OtherCar(before, p.id, CarSample(CarOf(before, p.id), p, dt), id, looks + seen);
      }
    }
  }

  lemma OtherCar(cars: map<string, Car>, other: string, car: Car, id: string, looks: seq<Look>)
    requires TellsCar(cars, id, looks) && other != id
    ensures TellsCar(cars[other := car], id, looks)
  {
    hide Tells;
  }

  lemma CountdownForgets(cars: map<string, Car>, id: string, looks: seq<Look>)
    requires TellsCar(cars, id, looks)
    ensures TellsCar(map c | c in cars :: CountdownCar(cars[c]), id, looks + [Forgotten])
  {
    hide Tells, Adds;
    var after := map c | c in cars :: CountdownCar(cars[c]);
    assert CarOf(after, id) == CountdownCar(CarOf(cars, id));
    CountdownAdds(CarOf(cars, id));
    LookStep(CarOf(cars, id), CountdownCar(CarOf(cars, id)), looks, Forgotten);
    var longer := looks + [Forgotten];
    assert forall i | 0 <= i < |looks| :: longer[i] == looks[i];
    assert longer[|looks|] == Forgotten;
  }

  lemma UpdateAdds(events: seq<Timed>, t: Tracker, id: string)
    requires events != [] && events[|events| - 1].event.Updated? && id != ""
    requires var earlier := events[..|events| - 1];
             Remembers(t.clock, earlier) && TellsCar(t.cars, id, Looks(earlier, id))
    ensures var last := events[|events| - 1];
            TellsCar(OnUpdateState(t, last.event.update, last.at).cars, id, Looks(events, id))
  {
    hide TellsCar, Remembers, Counted, Counts, SampleSeconds, UpdateClock, CloseKickoff;
    var last := events[|events| - 1];
    var u := last.event.update;
    UpdateCounts(t.clock, events);
    if Counted(events) > 0.0 {
      SamplesAdd(t.cars, u.players, Counted(events), id, Looks(events[..|events| - 1], id));
    }
  }

  lemma EventAdds(events: seq<Timed>, t: Tracker, id: string)
    requires events != [] && !events[|events| - 1].event.Updated? && id != ""
    requires TellsCar(t.cars, id, Looks(events[..|events| - 1], id))
    ensures TellsCar(Step(t, events[|events| - 1].event, events[|events| - 1].at).cars, id, Looks(events, id))
  {
    hide TellsCar, OnHits, PickupCar, Adds;
    var last, looks := events[|events| - 1], Looks(events[..|events| - 1], id);
    match last.event
    case CountdownBegan => CountdownForgets(t.cars, id, looks);
    case BallWasHit(hit) => HitsKeepCars(InPlay(t), hit.hitters, t.kicks.awaiting, Frame(last.at, hit.speed));
    case BoostPickedUp(owner, replay, big) =>
      if !replay && owner == id {
        PickupAdds(CarOf(t.cars, id), big);
        OneMoreLook(t.cars, id, PickupCar(CarOf(t.cars, id), big), looks, Picked(big));
      } else if !replay && owner != "" {
        OtherCar(t.cars, owner, PickupCar(CarOf(t.cars, owner), big), id, looks);
      }
    case _ =>
  }

  /** Over every run, all that is kept of a car is what the looks at it say. */
  lemma {:induction false} CarIsHistory(events: seq<Timed>, id: string)
    requires id != ""
    ensures Tells(CarOf(Run(events).cars, id), Looks(events, id))
    ensures id in Run(events).cars <==> exists i | 0 <= i < |Looks(events, id)| :: !Looks(events, id)[i].Forgotten?
  {
    hide Tells;
    CarTells(events, id);
  }

  lemma {:induction false} CarTells(events: seq<Timed>, id: string)
    requires id != ""
    ensures TellsCar(Run(events).cars, id, Looks(events, id))
  {
    hide TellsCar, Step, Looks, Run;
    if events == [] {
      NothingTells(id);
    } else {
      CarTells(events[..|events| - 1], id);
      LastTells(events, id);
    }
  }

  lemma NothingTells(id: string)
    ensures TellsCar(Run([]).cars, id, Looks([], id))
  {
    hide Tells, Step, LooksAt;
    NewCarTells(Looks([], id));
  }

  lemma NewCarTells(looks: seq<Look>)
    requires looks == []
    ensures Tells(CAR0, looks)
  {
    hide Tells, TellsPlaces, TellsMoves, TellsAmounts, TellsBoost, TellsPads;
    NewCarTimes(looks);
    NewCarMoves(looks);
    NewCarBoost(looks);
    TellsAll(CAR0, looks);
  }

  lemma TellsAll(car: Car, looks: seq<Look>)
    requires TellsPlaces(car, looks) && TellsMoves(car, looks) && TellsAmounts(car, looks)
    requires TellsBoost(car, looks) && TellsPads(car, looks)
    ensures Tells(car, looks)
  {
    hide TellsPlaces, TellsMoves, TellsAmounts, TellsBoost, TellsPads;
  }

  lemma NothingTotals(looks: seq<Look>, w: What)
    requires looks == []
    ensures Total(looks, w) == 0.0
  {}

  lemma NewCarTimes(looks: seq<Look>)
    requires looks == []
    ensures TellsPlaces(CAR0, looks) && TellsAmounts(CAR0, looks)
  {
    hide Total, Value;
    NothingTotals(looks, Sampled);
    NothingTotals(looks, OnWall);
    NothingTotals(looks, OnGround);
    NothingTotals(looks, InAir);
    NothingTotals(looks, Gone);
    NothingTotals(looks, BoostTime);
    NothingTotals(looks, Empty);
    NothingTotals(looks, Full);
    NothingTotals(looks, Band(0, 25));
    NothingTotals(looks, Band(25, 50));
    NothingTotals(looks, Band(50, 75));
    NothingTotals(looks, Band(75, 101));
  }

  lemma NewCarMoves(looks: seq<Look>)
    requires looks == []
    ensures TellsMoves(CAR0, looks)
  {
    hide Total, Value;
    NothingTotals(looks, Sliding);
    NothingTotals(looks, Boosting);
  }

  lemma NewCarBoost(looks: seq<Look>)
    requires looks == []
    ensures TellsBoost(CAR0, looks) && TellsPads(CAR0, looks)
  {
    hide Change, Matches;
  }

  lemma LastTells(events: seq<Timed>, id: string)
    requires id != "" && events != []
    requires TellsCar(Run(events[..|events| - 1]).cars, id, Looks(events[..|events| - 1], id))
    ensures TellsCar(Run(events).cars, id, Looks(events, id))
  {
    hide TellsCar, Step, Looks, Remembers, OnUpdateState;
    var earlier, last := events[..|events| - 1], events[|events| - 1];
    assert Run(events) == Step(Run(earlier), last.event, last.at);
    hide Run;
    if last.event.Updated? {
      RunRemembers(earlier);
      UpdateAdds(events, Run(earlier), id);
      UpdateIsStep(Run(earlier), last.event.update, last.at);
    } else {
      EventAdds(events, Run(earlier), id);
    }
  }

  lemma UpdateIsStep(t: Tracker, u: Update, at: real)
    ensures Step(t, Updated(u), at) == OnUpdateState(t, u, at)
  {
    hide OnUpdateState;
  }
}
