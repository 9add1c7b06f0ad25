/**
 Per-car seconds over whole runs of the tracker. The counters are kept separately, one
 `+=` at a time; here they are shown to be partitions of one total.
 */
module TrackerCars {
  import opened Options
  import opened TrackerSpec
  import opened TrackerTime

  function SampleTotal(samples: seq<SpeedSample>): real {
    if samples == [] then 0.0 else SampleTotal(samples[..|samples| - 1]) + samples[|samples| - 1].seconds
  }

  predicate Partitions(car: Car) {
    && car.sampled == car.ground + car.air + car.wall
    && car.sampled == car.band0 + car.band1 + car.band2 + car.band3
    && car.sampled == SampleTotal(car.samples)
  }

  predicate Bounds(car: Car) {
    && 0.0 <= car.zeroBoost <= car.band0 && 0.0 <= car.fullBoost <= car.band3
    && 0.0 <= car.powerslide <= car.sampled && 0.0 <= car.boosting <= car.sampled
    && car.ground >= 0.0 && car.air >= 0.0 && car.wall >= 0.0 && car.band1 >= 0.0 && car.band2 >= 0.0
    && car.demolished >= 0.0
  }

  /** The average boost, boostIntegral / sampled, is an amount of boost. */
  predicate BoostOk(car: Car) {
    && 0.0 <= car.boostIntegral <= 100.0 * car.sampled
    && (car.lastBoost.Some? ==> 0 <= car.lastBoost.value <= 100)
    && car.boostUsed >= 0 && car.boostCollected >= 0
  }

  predicate CarOk(car: Car) {
    Partitions(car) && Bounds(car) && BoostOk(car)
  }

  lemma SampleTotalPushed(samples: seq<SpeedSample>, s: SpeedSample)
    ensures SampleTotal(samples + [s]) == SampleTotal(samples) + s.seconds
  {
    assert (samples + [s])[..|samples|] == samples;
  }

  lemma TimesKeepPartitions(car: Car, p: PlayerSample, dt: real)
    requires Partitions(car) && Bounds(car) && dt >= 0.0
    ensures Partitions(CarTimes(car, p, dt)) && Bounds(CarTimes(car, p, dt))
  {
    SampleTotalPushed(car.samples, SpeedSample(p.speed, dt, Some(p.supersonic)));
  }

  lemma AreaBounded(amount: int, dt: real)
    requires 0 <= amount <= 100 && dt >= 0.0
    ensures 0.0 <= BoostArea(amount, dt) <= 100.0 * dt
  {}

  lemma IntegralGrows(integral: real, sampled: real, area: real, dt: real)
    requires 0.0 <= integral <= 100.0 * sampled && 0.0 <= area <= 100.0 * dt
    ensures 0.0 <= integral + area <= 100.0 * (sampled + dt)
  {}

  lemma TimesKeepBoost(car: Car, p: PlayerSample, dt: real)
    requires BoostOk(car) && dt >= 0.0
    ensures BoostOk(CarTimes(car, p, dt))
  {
    AreaBounded(Boost(p), dt);
    IntegralGrows(car.boostIntegral, car.sampled, BoostArea(Boost(p), dt), dt);
  }

  lemma BoostKeepsCar(car: Car, amount: int)
    requires CarOk(car) && 0 <= amount <= 100
    ensures CarOk(CarBoost(car, amount))
  {}

  lemma SampleKeepsCar(car: Car, p: PlayerSample, dt: real)
    requires CarOk(car) && dt >= 0.0
    ensures CarOk(CarSample(car, p, dt))
  {
    if !p.demolished && p.hasCar {
      TimesKeepPartitions(car, p, dt);
      TimesKeepBoost(car, p, dt);
      BoostKeepsCar(CarTimes(car, p, dt), Boost(p));
    }
  }

  ghost predicate CarsOk(cars: map<string, Car>) {
    forall id | id in cars :: CarOk(cars[id])
  }

  lemma PutKeepsCars(cars: map<string, Car>, id: string, car: Car)
    requires CarsOk(cars) && CarOk(car)
    ensures CarsOk(cars[id := car])
  {}

  lemma AnyCarOk(cars: map<string, Car>, id: string)
    requires CarsOk(cars)
    ensures CarOk(CarOf(cars, id))
  {
    if id !in cars {
      assert SampleTotal(CAR0.samples) == 0.0;
    }
  }

  lemma SampleKeepsCars(cars: map<string, Car>, p: PlayerSample, dt: real)
    requires CarsOk(cars) && dt >= 0.0
    ensures CarsOk(cars[p.id := CarSample(CarOf(cars, p.id), p, dt)])
  {
    var car := CarOf(cars, p.id);
    AnyCarOk(cars, p.id);
    SampleKeepsCar(car, p, dt);
    var after := CarSample(car, p, dt);
    PutKeepsCars(cars, p.id, after);
  }

  lemma {:induction false} SamplesKeepCars(cars: map<string, Car>, players: seq<PlayerSample>, dt: real)
    requires CarsOk(cars) && dt >= 0.0
    ensures CarsOk(SampleCars(cars, players, dt))
  {
    if players == [] {
    } else {
      var p := players[|players| - 1];
      var before := SampleCars(cars, players[..|players| - 1], dt);
      SamplesKeepCars(cars, players[..|players| - 1], dt);
      SampleKeepsCars(before, p, dt);
    }
  }

  lemma CountdownKeepsCars(cars: map<string, Car>)
    requires CarsOk(cars)
    ensures CarsOk(map id | id in cars :: CountdownCar(cars[id]))
  {
    forall id | id in cars ensures CarOk(CountdownCar(cars[id])) {
      assert CarOk(cars[id]);
    }
  }

  lemma PickupKeepsCar(car: Car, big: bool)
    requires CarOk(car)
    ensures CarOk(PickupCar(car, big))
  {}

  lemma PickupKeepsCars(cars: map<string, Car>, id: string, big: bool)
    requires CarsOk(cars)
    ensures CarsOk(cars[id := PickupCar(CarOf(cars, id), big)])
  {
    var car := CarOf(cars, id);
    AnyCarOk(cars, id);
    PickupKeepsCar(car, big);
    var after := PickupCar(car, big);
    PutKeepsCars(cars, id, after);
  }

  lemma StepKeepsCars(t: Tracker, e: Event, at: real)
    requires CarsOk(t.cars)
    ensures CarsOk(Step(t, e, at).cars)
  {
    match e
    case Updated(u) => SamplesKeepCars(t.cars, u.players, SampleSeconds(ClockSeen(t.clock, u), at));
    case BoostPickedUp(id, _, big) => PickupKeepsCars(t.cars, id, big);
    case BallWasHit(hit) => HitsKeepCars(InPlay(t), hit.hitters, t.kicks.awaiting, Frame(at, hit.speed));
    case CountdownBegan => CountdownKeepsCars(t.cars);
    case _ =>
  }

  lemma HitsKeepCars(t: Tracker, hits: seq<Hit>, first: bool, f: Frame)
    ensures OnHits(t, hits, first, f).cars == t.cars
  {}

  // ---------------------------------------------------------------- speed bands of a snapshot

  lemma {:induction false} BandsPartition(samples: seq<SpeedSample>, uu: bool)
    ensures BandSeconds(samples, uu, Slow) + BandSeconds(samples, uu, BoostSpeed)
            + BandSeconds(samples, uu, Supersonic) == SampleTotal(samples)
  {
    if samples == [] {
    } else {
      BandsPartition(samples[..|samples| - 1], uu);
    }
  }

  /** In every state, for every car: three partitions of the same seconds, and the bounds between them. */
  lemma {:induction false} CarSecondsAddUp(events: seq<Timed>)
    ensures CarsOk(Run(events).cars)
    ensures forall id | id in Run(events).cars ::
      var car := Run(events).cars[id]; var speeds := SpeedsOf(car.samples);
      car.sampled == speeds.slow + speeds.boostSpeed + speeds.supersonic
  {
    if events == [] {
    } else {
      var earlier := events[..|events| - 1];
      CarSecondsAddUp(earlier);
      StepKeepsCars(Run(earlier), events[|events| - 1].event, events[|events| - 1].at);
    }
    forall id | id in Run(events).cars
      ensures var car := Run(events).cars[id]; var speeds := SpeedsOf(car.samples);
        car.sampled == speeds.slow + speeds.boostSpeed + speeds.supersonic
    {
      var samples := Run(events).cars[id].samples;
      BandsPartition(samples, RawMax(samples) > RAW_UU_THRESHOLD);
    }
  }

  // ---------------------------------------------------------------- car time and play time

  /** No car is sampled twice; players the update skips may be listed any number of times. */
  predicate Once(players: seq<PlayerSample>) {
    forall i, j | 0 <= i < j < |players| && !Skipped(players[i]) && !Skipped(players[j]) ::
      players[i].id != players[j].id
  }

  /** Seconds in which a car was looked at: alive or demolished. */
  function Watched(cars: map<string, Car>, id: string): real {
    CarOf(cars, id).sampled + CarOf(cars, id).demolished
  }

  lemma OneSampleWatches(cars: map<string, Car>, p: PlayerSample, dt: real, id: string)
    ensures var after := cars[p.id := CarSample(CarOf(cars, p.id), p, dt)];
            Watched(after, id) == Watched(cars, id) + (if p.id == id then dt else 0.0)
  {}

  lemma {:induction false} SamplesWatch(cars: map<string, Car>, players: seq<PlayerSample>, dt: real, id: string)
    requires dt >= 0.0 && Once(players)
    ensures var after := Watched(SampleCars(cars, players, dt), id);
      && Watched(cars, id) <= after <= Watched(cars, id) + dt
      && ((forall i | 0 <= i < |players| && !Skipped(players[i]) :: players[i].id != id) ==> after == Watched(cars, id))
  {
    if players == [] {
    } else {
      var p := players[|players| - 1];
      SamplesWatch(cars, players[..|players| - 1], dt, id);
      OneSampleWatches(SampleCars(cars, players[..|players| - 1], dt), p, dt, id);
    }
  }

  predicate WatchedFits(t: Tracker, id: string) {
    Watched(t.cars, id) <= t.clock.play
  }

  predicate ListsOnce(e: Event) {
    e.Updated? ==> Once(e.update.players)
  }

  lemma StepWatches(t: Tracker, e: Event, at: real, id: string)
    requires WatchedFits(t, id) && ListsOnce(e)
    ensures WatchedFits(Step(t, e, at), id)
  {
    match e
    case Updated(u) => SamplesWatch(t.cars, u.players, SampleSeconds(ClockSeen(t.clock, u), at), id);
    case BallWasHit(hit) =>
      HitsKeepCars(InPlay(t), hit.hitters, t.kicks.awaiting, Frame(at, hit.speed));
      HitsKeepTimes(InPlay(t), hit.hitters, t.kicks.awaiting, Frame(at, hit.speed));
    case _ =>
  }

  /** When no update samples a car twice, no car is watched for longer than was played. */
  lemma {:induction false} CarTimeFitsPlayTime(events: seq<Timed>, id: string)
    requires forall i | 0 <= i < |events| :: ListsOnce(events[i].event)
    ensures WatchedFits(Run(events), id)
  {
    if events == [] {
    } else {
      var earlier := events[..|events| - 1];
      CarTimeFitsPlayTime(earlier, id);
      StepWatches(Run(earlier), events[|events| - 1].event, events[|events| - 1].at, id);
    }
  }

  // ---------------------------------------------------------------- where the boost went

  /** What the car would hold if it had collected and used nothing. */
  function Balance(car: Car): int {
    car.lastBoost.GetOr(0) - car.boostCollected + car.boostUsed
  }

  /** A boost amount is known, and no respawn grant is due. */
  predicate Steady(car: Car) {
    car.lastBoost.Some? && !car.respawning
  }

  /** Every change of a known amount is a pickup or use; only a respawn grant is neither, and only once. */
  lemma BoostBalances(car: Car, amount: int)
    ensures var after := CarBoost(car, amount);
      && after.lastBoost == Some(amount)
      && car.boostCollected <= after.boostCollected && car.boostUsed <= after.boostUsed
      && (Steady(car) ==> Steady(after) && Balance(after) == Balance(car))
      && (!Steady(car) ==> after.boostCollected == car.boostCollected && after.boostUsed == car.boostUsed)
      && (car.respawning && car.lastBoost.Some? ==> (Steady(after) <==> amount != car.lastBoost.value))
  {}

  /** What starts a new account: a countdown, and a sample of the car gone or demolished. */
  predicate Undisturbed(e: Event, id: string) {
    match e
    case CountdownBegan => false
    case Updated(u) => forall i | 0 <= i < |u.players| && !Skipped(u.players[i]) && u.players[i].id == id ::
                         !u.players[i].demolished && u.players[i].hasCar
    case _ => true
  }

  predicate SameAccount(car: Car, later: Car) {
    && Steady(later) && Balance(later) == Balance(car)
    && car.boostCollected <= later.boostCollected && car.boostUsed <= later.boostUsed
  }

  lemma {:induction false} SamplesBalance(cars: map<string, Car>, players: seq<PlayerSample>, dt: real, id: string)
    requires Steady(CarOf(cars, id))
    requires forall i | 0 <= i < |players| && !Skipped(players[i]) && players[i].id == id ::
               !players[i].demolished && players[i].hasCar
    ensures SameAccount(CarOf(cars, id), CarOf(SampleCars(cars, players, dt), id))
  {
    if players != [] {
      var before := SampleCars(cars, players[..|players| - 1], dt);
      var p := players[|players| - 1];
      SamplesBalance(cars, players[..|players| - 1], dt, id);
      if !Skipped(p) && p.id == id {
        BoostBalances(CarTimes(CarOf(before, id), p, dt), Boost(p));
      }
    }
  }

  lemma StepBalances(t: Tracker, e: Event, at: real, id: string)
    requires Steady(CarOf(t.cars, id)) && Undisturbed(e, id)
    ensures SameAccount(CarOf(t.cars, id), CarOf(Step(t, e, at).cars, id))
  {
    hide SampleCars, OnHits;
    match e
    case Updated(u) => SamplesBalance(t.cars, u.players, SampleSeconds(ClockSeen(t.clock, u), at), id);
    case BallWasHit(hit) => HitsKeepCars(InPlay(t), hit.hitters, t.kicks.awaiting, Frame(at, hit.speed));
    case _ =>
  }

  /**
   Between one countdown or respawn and the next, the boost a car holds is what it held first, plus what
   it collected, minus what it used.
   */
  lemma {:induction false} BoostIsConserved(events: seq<Timed>, n: nat, id: string)
    requires n <= |events| && Steady(CarOf(Run(events[..n]).cars, id))
    requires forall i | n <= i < |events| :: Undisturbed(events[i].event, id)
    ensures var first, last := CarOf(Run(events[..n]).cars, id), CarOf(Run(events).cars, id);
      && Steady(last)
      && last.lastBoost.value == first.lastBoost.value + (last.boostCollected - first.boostCollected)
                                                       - (last.boostUsed - first.boostUsed)
      && first.boostCollected <= last.boostCollected && first.boostUsed <= last.boostUsed
  {
    hide Step;
    if n == |events| {
      assert events[..n] == events;
    } else {
      var earlier := events[..|events| - 1];
      assert earlier[..n] == events[..n];
      BoostIsConserved(earlier, n, id);
      StepBalances(Run(earlier), events[|events| - 1].event, events[|events| - 1].at, id);
    }
  }
}
