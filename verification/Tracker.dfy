/**
 The tracker as the program has it: fields updated in place as the events arrive, loops
 over the players of an update and the hitters of a hit, and a snapshot that reads the
 samples without changing them. Every method is proved to compute the function of
 TrackerSpec with its name.
 */
module Tracker {
  import opened Options
  import opened Teams
  import opened TrackerSpec
  import S = TrackerSpec

  class MatchAnalyticsTracker {
    var clock: Clock
    var kicks: Kicks
    var hitters: map<string, Hitter>
    var cars: map<string, Car>

    ghost function View(): S.Tracker
      reads this
    {
      S.Tracker(clock, kicks, hitters, cars)
    }

    constructor ()
      ensures View() == TRACKER0
    {
      clock, kicks, hitters, cars := CLOCK0, KICKS0, map[], map[];
    }

    method CloseKickoffWindows()
      modifies this`kicks
      ensures kicks == CloseKickoff(old(kicks), clock)
    {
      if !kicks.possessionPending || kicks.kickoffs == [] {
        return;
      }
      var k := kicks.kickoffs[|kicks.kickoffs| - 1];
      if clock.play - k.play < KICKOFF_POSSESSION {
        return;
      }
      k := k.(possessionTeam := clock.team);
      kicks := kicks.(kickoffs := kicks.kickoffs[|kicks.kickoffs| - 1 := k], possessionPending := false);
    }

    method AddPlayTime(seconds: real)
      modifies this`clock, this`kicks
      ensures clock == S.AddPlayTime(old(clock), seconds)
      ensures kicks == CloseKickoff(old(kicks), clock)
    {
      clock := clock.(play := clock.play + seconds);
      if clock.team == 0 || clock.team == 1 {
        clock := clock.(possession := clock.possession.Add(clock.team, seconds));
        clock := clock.(window := clock.window.(seconds := clock.window.seconds.Add(clock.team, seconds)));
      }
      if clock.play >= clock.window.end + WINDOW {
        clock := clock.(window := clock.window.(end := clock.play));
        clock := clock.(timeline := clock.timeline + [clock.window]);
        clock := clock.(window := Window(clock.play, NONE));
      }
      CloseKickoffWindows();
    }

    /** The body of the sampling loop, for one player of the update. */
    method SamplePlayer(p: PlayerSample, dt: real)
      modifies this`cars
      ensures cars == if Skipped(p) then old(cars) else old(cars)[p.id := CarSample(CarOf(old(cars), p.id), p, dt)]
    {
      if (!p.hasCarField && !p.demolished) || p.id == "" {
        return;
      }
      var car := CarOf(cars, p.id);
      if p.demolished || !p.hasCar {
        car := car.(demolished := car.demolished + dt);
        car := car.(respawning := true, wasPowersliding := false);
        cars := cars[p.id := car];
        return;
      }
      car := TimeCar(car, p, dt);
      car := AmountCar(car, Boost(p), dt);
      car := BandCar(car, Boost(p), dt);
      car := BoostCar(car, Boost(p));
      cars := cars[p.id := car];
    }

    static method TimeCar(c: Car, p: PlayerSample, dt: real) returns (car: Car)
      ensures car == CarSurfaces(c, p, dt)
    {
      car := c.(sampled := c.sampled + dt, samples := c.samples + [SpeedSample(p.speed, dt, Some(p.supersonic))]);
      if p.onWall {
        car := car.(wall := car.wall + dt);
      } else if p.onGround {
        car := car.(ground := car.ground + dt);
      } else {
        car := car.(air := car.air + dt);
      }
      if p.powersliding {
        car := car.(powerslide := car.powerslide + dt);
        if !car.wasPowersliding {
          car := car.(powerslides := car.powerslides + 1);
        }
      }
      car := car.(wasPowersliding := p.powersliding);
      if p.boosting {
        car := car.(boosting := car.boosting + dt);
      }
    }

    static method AmountCar(c: Car, amount: int, dt: real) returns (car: Car)
      ensures car == CarAmounts(c, amount, dt)
    {
      car := c;
      car := car.(boostIntegral := car.boostIntegral + amount as real * dt);
      if amount <= 0 {
        car := car.(zeroBoost := car.zeroBoost + dt);
      }
      if amount >= 100 {
        car := car.(fullBoost := car.fullBoost + dt);
      }
    }

    static method BandCar(c: Car, amount: int, dt: real) returns (car: Car)
      requires 0 <= amount <= 100
      ensures car == CarBands(c, amount, dt)
    {
      match if amount / 25 < 3 then amount / 25 else 3
      case 0 => car := c.(band0 := c.band0 + dt);
      case 1 => car := c.(band1 := c.band1 + dt);
      case 2 => car := c.(band2 := c.band2 + dt);
      case _ => car := c.(band3 := c.band3 + dt);
    }

    static method BoostCar(c: Car, amount: int) returns (car: Car)
      ensures car == CarBoost(c, amount)
    {
      car := c;
      if c.lastBoost.Some? {
        var delta := amount - c.lastBoost.value;
        if car.respawning {
          if delta != 0 {
            car := car.(respawning := false);
          }
        } else if delta > 0 {
          car := car.(boostCollected := car.boostCollected + delta);
          if !car.padsFromEvents {
            if delta > SMALL_PAD {
              car := car.(bigPads := car.bigPads + 1);
            } else {
              car := car.(smallPads := car.smallPads + 1);
            }
          }
        } else if delta < 0 {
          car := car.(boostUsed := car.boostUsed - delta);
        }
      }
      car := car.(lastBoost := Some(amount));
    }

    method OnUpdateState(u: Update, now: real)
      modifies this
      ensures View() == S.OnUpdateState(old(View()), u, now)
    {
      hide SampleCars, S.AddPlayTime, CloseKickoff;
      if u.clockSeconds.Some? && clock.lastClock.Some? && u.clockSeconds != clock.lastClock
         && !u.replay && !clock.paused {
        clock := clock.(roundActive := true);
      }
      if u.clockSeconds.Some? {
        clock := clock.(lastClock := u.clockSeconds);
      }
      var previous := clock.lastSampleAt.GetOr(now);
      clock := clock.(lastSampleAt := Some(now));
      var dt := MinR(MaxR(now - previous, 0.0), MAX_SAMPLE);
      if u.replay || !clock.roundActive || clock.paused || dt <= 0.0 {
        return;
      }
      if u.ballTeam.Some? && IsTeam(u.ballTeam.value) {
        clock := clock.(team := u.ballTeam.value);
      }
      AddPlayTime(dt);
      SamplePlayers(u.players, dt);
    }

    method SamplePlayers(players: seq<PlayerSample>, dt: real)
      modifies this`cars
      ensures cars == SampleCars(old(cars), players, dt)
    {
      hide CarSample;
      var i := 0;
      while i < |players|
        invariant i <= |players|
        invariant cars == SampleCars(old(cars), players[..i], dt)
      {
        SamplePlayer(players[i], dt);
        assert players[..i + 1][..i] == players[..i];
        i := i + 1;
      }
      assert players[..i] == players;
    }

    method OnCountdownBegin()
      modifies this
      ensures View() == S.OnCountdownBegin(old(View()))
    {
      clock := clock.(roundActive := false);
      kicks := kicks.(awaiting := false);
      var left := cars.Keys;
      while left != {}
        invariant left <= cars.Keys == old(cars).Keys
        invariant forall id | id in cars ::
                    cars[id] == if id in left then old(cars)[id] else CountdownCar(old(cars)[id])
        modifies this`cars
        decreases left
      {
        var id :| id in left;
        var car := cars[id];
        car := car.(lastBoost := None);
        car := car.(respawning := false);
        car := car.(wasPowersliding := false);
        cars := cars[id := car];
        left := left - {id};
      }
    }

    method OnRoundStarted(now: real)
      modifies this
      ensures View() == S.OnRoundStarted(old(View()), now)
    {
      clock := clock.(roundActive := !clock.paused);
      clock := clock.(lastSampleAt := Some(now));
      clock := clock.(team := -1);
      kicks := kicks.(awaiting := true);
      kicks := kicks.(possessionPending := true);
      kicks := kicks.(kickoffs := kicks.kickoffs + [Kickoff(clock.play, "", -1, -1, -1)]);
    }

    /** The frame joins the player's last contact, or is a contact of its own. */
    static method TouchFrame(h: Hitter, speed: real, now: real) returns (p: Hitter)
      ensures p == Touch(h, Frame(now, speed))
    {
      p := h;
      if p.last.Some? && now - p.last.value.at <= TOUCH_MERGE {
        var fastest := p.last.value.speed;
        if speed > fastest {
          p := p.(speedSum := p.speedSum + (speed - fastest));
          if fastest < HARD_HIT && speed >= HARD_HIT {
            p := p.(hardHits := p.hardHits + 1);
          }
          fastest := speed;
        }
        p := p.(last := Some(Frame(now, fastest)));
        p := p.(maxSpeed := MaxR(p.maxSpeed, speed));
        return;
      }
      p := p.(last := Some(Frame(now, speed)));
      p := p.(hits := p.hits + 1);
      p := p.(speedSum := p.speedSum + speed);
      p := p.(maxSpeed := MaxR(p.maxSpeed, speed));
      if speed >= HARD_HIT {
        p := p.(hardHits := p.hardHits + 1);
      }
    }

    /** The body of the loop over hitters. */
    method HitBy(h: Hit, first: bool, speed: real, now: real)
      modifies this
      ensures View() == OnHit(old(View()), h, first, Frame(now, speed))
    {
      hide Touch;
      if h.id == "" {
        return;
      }
      if h.team == 0 || h.team == 1 {
        clock := clock.(team := h.team);
      }
      var before := HitterOf(hitters, h.id);
      var p := TouchFrame(before, speed, now);
      if first && !Merges(before, now) {
        p := p.(firstTouches := p.firstTouches + 1);
        if kicks.kickoffs != [] && kicks.kickoffs[|kicks.kickoffs| - 1].firstTouchId == "" {
          var k := kicks.kickoffs[|kicks.kickoffs| - 1];
          k := k.(firstTouchId := h.id, firstTouchTeam := h.team);
          kicks := kicks.(kickoffs := kicks.kickoffs[|kicks.kickoffs| - 1 := k]);
        }
      }
      hitters := hitters[h.id := p];
    }

    method OnBallHit(e: BallHit, now: real)
      modifies this
      ensures View() == S.OnBallHit(old(View()), e, now)
    {
      if e.hitters == [] {
        return;
      }
      if !clock.paused {
        clock := clock.(roundActive := true);
      }
      var first := kicks.awaiting;
      kicks := kicks.(awaiting := false);
      ghost var live := View();
      var i := 0;
      while i < |e.hitters|
        invariant i <= |e.hitters|
        invariant View() == OnHits(live, e.hitters[..i], first, Frame(now, e.speed))
      {
        HitBy(e.hitters[i], first, e.speed, now);
        assert e.hitters[..i + 1][..i] == e.hitters[..i];
        i := i + 1;
      }
      assert e.hitters[..i] == e.hitters;
    }

    method OnBoostPickup(id: string, replay: bool, big: bool)
      modifies this`cars
      ensures View() == S.OnBoostPickup(old(View()), id, replay, big)
    {
      if replay || id == "" {
        return;
      }
      var car := CarOf(cars, id);
      if !car.padsFromEvents {
        car := car.(padsFromEvents := true);
        car := car.(bigPads := 0, smallPads := 0);
      }
      if big {
        car := car.(bigPads := car.bigPads + 1);
      } else {
        car := car.(smallPads := car.smallPads + 1);
      }
      cars := cars[id := car];
    }

    method OnGoalScored(echo: bool, team: int)
      modifies this
      ensures View() == S.OnGoalScored(old(View()), echo, team)
    {
      if echo {
        return;
      }
      clock := clock.(roundActive := false);
      kicks := kicks.(awaiting := false);
      if (team == 0 || team == 1) && kicks.kickoffs != [] {
        var k := kicks.kickoffs[|kicks.kickoffs| - 1];
        if k.goalTeam == -1 && clock.play - k.play <= KICKOFF_GOAL {
          k := k.(goalTeam := team);
          kicks := kicks.(kickoffs := kicks.kickoffs[|kicks.kickoffs| - 1 := k]);
        }
      }
    }

    method OnPaused(now: real)
      modifies this`clock
      ensures clock == PauseClock(old(clock), now)
    {
      if clock.paused {
        return;
      }
      clock := clock.(paused := true);
      clock := clock.(pausedAt := Some(now));
      clock := clock.(pauses := clock.pauses + 1);
    }

    method OnUnpaused(now: real)
      modifies this`clock
      ensures clock == UnpauseClock(old(clock), now)
    {
      if !clock.paused {
        return;
      }
      clock := clock.(paused := false);
      if clock.pausedAt.Some? {
        clock := clock.(pausedSeconds := clock.pausedSeconds + MaxR(0.0, now - clock.pausedAt.value));
      }
      clock := clock.(pausedAt := None);
      clock := clock.(lastSampleAt := Some(now));
    }

    method OnMatchEnded()
      modifies this`clock
      ensures clock == old(clock).(roundActive := false)
    {
      clock := clock.(roundActive := false);
    }

    method Handle(e: Event, now: real)
      modifies this
      ensures View() == Step(old(View()), e, now)
    {
      match e
      case Updated(u) => OnUpdateState(u, now);
      case CountdownBegan => OnCountdownBegin();
      case RoundStarted => OnRoundStarted(now);
      case BallWasHit(hit) => OnBallHit(hit, now);
      case GoalScored(echo, team) => OnGoalScored(echo, team);
      case BoostPickedUp(id, replay, big) => OnBoostPickup(id, replay, big);
      case Paused => OnPaused(now);
      case Unpaused => OnUnpaused(now);
      case MatchEnded => OnMatchEnded();
    }

    // -------------------------------------------------------------- snapshot

    method SnapshotTimeline() returns (timeline: seq<Window>)
      ensures timeline == S.SnapshotTimeline(clock)
    {
      timeline := clock.timeline;
      if clock.window.seconds.blue > 0.0 || clock.window.seconds.orange > 0.0 {
        timeline := timeline + [clock.window.(end := clock.play)];
      }
    }
  }

  /** The two passes over a car's samples: the unit is known only once all were seen. */
  method SnapshotSpeeds(samples: seq<SpeedSample>) returns (r: Speeds)
    ensures r == SpeedsOf(samples)
    ensures forall i | 0 <= i < |samples| :: Kph(samples[i].raw, RawMax(samples) > RAW_UU_THRESHOLD) <= r.maxSpeed
  {
    var rawMax := 0.0;
    var i := 0;
    while i < |samples|
      invariant i <= |samples|
      invariant rawMax == RawMax(samples[..i]) && rawMax >= 0.0
      invariant forall j | 0 <= j < i :: samples[j].raw <= rawMax
    {
      rawMax := MaxR(rawMax, samples[i].raw);
      assert samples[..i + 1][..i] == samples[..i];
      i := i + 1;
    }
    assert samples[..i] == samples;
    var uu := rawMax > RAW_UU_THRESHOLD;
    r := Speeds(0.0, 0.0, 0.0, 0.0, 0.0);
    i := 0;
    while i < |samples|
      invariant i <= |samples|
      invariant r == SpeedsUpTo(samples, i, uu)
    {
      r := AddSample(r, samples[i], uu);
      SpeedsStep(samples, i, uu);
      i := i + 1;
    }
    assert samples[..i] == samples;
  }

  ghost function SpeedsUpTo(samples: seq<SpeedSample>, i: nat, uu: bool): Speeds
    requires i <= |samples|
  {
    var seen := samples[..i];
    Speeds(Distance(seen, uu), Kph(RawMax(seen), uu), BandSeconds(seen, uu, Slow),
           BandSeconds(seen, uu, BoostSpeed), BandSeconds(seen, uu, Supersonic))
  }

  function PlusSample(r: Speeds, s: SpeedSample, uu: bool): Speeds {
    var kph := Kph(s.raw, uu);
    var band := BandOf(s, uu);
    Speeds(r.distance + kph / UU_TO_KPH * s.seconds, MaxR(r.maxSpeed, kph), r.slow + If(band == Slow, s.seconds),
           r.boostSpeed + If(band == BoostSpeed, s.seconds), r.supersonic + If(band == Supersonic, s.seconds))
  }

  lemma BandStep(samples: seq<SpeedSample>, s: SpeedSample, uu: bool, band: Band)
    ensures BandSeconds(samples + [s], uu, band)
         == BandSeconds(samples, uu, band) + If(BandOf(s, uu) == band, s.seconds)
  {
    hide BandOf;
    assert (samples + [s])[..|samples|] == samples;
  }

  lemma DistanceStep(samples: seq<SpeedSample>, s: SpeedSample, uu: bool)
    ensures Distance(samples + [s], uu) == Distance(samples, uu) + Kph(s.raw, uu) / UU_TO_KPH * s.seconds
    ensures RawMax(samples + [s]) == MaxR(RawMax(samples), s.raw)
  {
    hide Kph;
    assert (samples + [s])[..|samples|] == samples;
  }

  lemma SpeedsStep(samples: seq<SpeedSample>, i: nat, uu: bool)
    requires i < |samples|
    ensures SpeedsUpTo(samples, i + 1, uu) == PlusSample(SpeedsUpTo(samples, i, uu), samples[i], uu)
  {
    hide BandSeconds, Distance, RawMax, BandOf, Kph, MaxR, If;
    var seen, s := samples[..i], samples[i];
    assert samples[..i + 1] == seen + [s];
    BandStep(seen, s, uu, Slow);
    BandStep(seen, s, uu, BoostSpeed);
    BandStep(seen, s, uu, Supersonic);
    DistanceStep(seen, s, uu);
    KphOfMax(RawMax(seen), s.raw, uu);
  }

  lemma KphOfMax(a: real, b: real, uu: bool)
    ensures Kph(MaxR(a, b), uu) == MaxR(Kph(a, uu), Kph(b, uu))
  {}

  method AddSample(r: Speeds, s: SpeedSample, uu: bool) returns (t: Speeds)
    ensures t == PlusSample(r, s, uu)
  {
    var kph := Kph(s.raw, uu);
    t := r.(distance := r.distance + kph / UU_TO_KPH * s.seconds);
    t := t.(maxSpeed := MaxR(t.maxSpeed, kph));
    var supersonic := if s.supersonic.None? then kph >= S.SUPERSONIC else s.supersonic.value;
    if supersonic {
      t := t.(supersonic := t.supersonic + s.seconds);
    } else if kph >= BOOST_SPEED {
      t := t.(boostSpeed := t.boostSpeed + s.seconds);
    } else {
      t := t.(slow := t.slow + s.seconds);
    }
  }
}
