/**
 The match analytics tracker (src/core/game/MatchAnalyticsTracker.cpp) on values:
 what each event does to the play clock, the kickoffs, the ball contacts and the
 cars. Seconds and speeds are reals.
 */
module TrackerSpec {
  import opened Options
  import opened Teams

  const TOUCH_MERGE := 0.03
  const HARD_HIT := 100.0
  const MAX_SAMPLE := 0.5
  const WINDOW := 15.0
  const KICKOFF_POSSESSION := 3.0
  const KICKOFF_GOAL := 10.0
  const SMALL_PAD: int := 12
  const UU_TO_KPH := 0.036
  const BOOST_SPEED := 1400.0 * UU_TO_KPH
  const SUPERSONIC := 2200.0 * UU_TO_KPH
  const RAW_UU_THRESHOLD := 150.0

  function MaxR(a: real, b: real): real { if a < b then b else a }
  function MinR(a: real, b: real): real { if a < b then a else b }

  /** One amount for each team. */
  datatype Pair = Pair(blue: real, orange: real) {
    function Add(team: int, amount: real): Pair {
      if team == 0 then Pair(blue + amount, orange)
      else if team == 1 then Pair(blue, orange + amount)
      else this
    }
    function Plus(other: Pair): Pair {
      Pair(blue + other.blue, orange + other.orange)
    }
  }

  const NONE := Pair(0.0, 0.0)

  // ---------------------------------------------------------------- play clock

  /** While it fills, `end` is where the window starts; once pushed, where it ended. */
  datatype Window = Window(end: real, seconds: Pair)

  datatype Clock = Clock(play: real, possession: Pair, window: Window, timeline: seq<Window>, team: int,
                         lastSampleAt: Option<real>, lastClock: Option<real>,
                         roundActive: bool, paused: bool, pausedAt: Option<real>, pausedSeconds: real, pauses: nat)

  const CLOCK0 := Clock(0.0, NONE, Window(0.0, NONE), [], -1, None, None, false, false, None, 0.0, 0)

  function AddPlayTime(c: Clock, seconds: real): Clock {
    var play := c.play + seconds;
    var filled := Window(c.window.end, c.window.seconds.Add(c.team, seconds));
    var full := play >= c.window.end + WINDOW;
    c.(play := play, possession := c.possession.Add(c.team, seconds),
       window := if full then Window(play, NONE) else filled,
       timeline := if full then c.timeline + [Window(play, filled.seconds)] else c.timeline)
  }

  datatype PlayerSample = PlayerSample(id: string, hasCarField: bool, demolished: bool, hasCar: bool,
                                       speed: real, supersonic: bool, onWall: bool, onGround: bool,
                                       powersliding: bool, boosting: bool, boost: Option<int>)

  datatype Update = Update(replay: bool, clockSeconds: Option<real>, ballTeam: Option<int>, players: seq<PlayerSample>)

  /** The match clock only moves during live play, so seeing it move starts the round. */
  function ClockSeen(c: Clock, u: Update): Clock {
    var moved := u.clockSeconds.Some? && c.lastClock.Some? && u.clockSeconds != c.lastClock;
    c.(roundActive := c.roundActive || (moved && !u.replay && !c.paused),
       lastClock := if u.clockSeconds.Some? then u.clockSeconds else c.lastClock)
  }

  function SampleSeconds(c: Clock, now: real): real {
    MinR(MaxR(now - c.lastSampleAt.GetOr(now), 0.0), MAX_SAMPLE)
  }

  /** Does this update count as play, given the clock after `ClockSeen`? */
  predicate Counts(c: Clock, u: Update, now: real) {
    !u.replay && c.roundActive && !c.paused && SampleSeconds(c, now) > 0.0
  }

  function UpdateClock(c0: Clock, u: Update, now: real): Clock {
    var c := ClockSeen(c0, u);
    var sampled := c.(lastSampleAt := Some(now));
    if !Counts(c, u, now) then sampled
    else
      var team := if u.ballTeam.Some? && IsTeam(u.ballTeam.value) then u.ballTeam.value else c.team;
      AddPlayTime(sampled.(team := team), SampleSeconds(c, now))
  }

  function PauseClock(c: Clock, now: real): Clock {
    if c.paused then c else c.(paused := true, pausedAt := Some(now), pauses := c.pauses + 1)
  }

  function UnpauseClock(c: Clock, now: real): Clock {
    if !c.paused then c
    else c.(paused := false, pausedAt := None, lastSampleAt := Some(now),
            pausedSeconds := c.pausedSeconds + (if c.pausedAt.Some? then MaxR(0.0, now - c.pausedAt.value) else 0.0))
  }

  // ---------------------------------------------------------------- kickoffs

  datatype Kickoff = Kickoff(play: real, firstTouchId: string, firstTouchTeam: int, possessionTeam: int, goalTeam: int)

  datatype Kicks = Kicks(kickoffs: seq<Kickoff>, awaiting: bool, possessionPending: bool)

  const KICKS0 := Kicks([], false, false)

  function Last(kickoffs: seq<Kickoff>): Kickoff
    requires kickoffs != []
  {
    kickoffs[|kickoffs| - 1]
  }

  function SetLast(kickoffs: seq<Kickoff>, k: Kickoff): seq<Kickoff>
    requires kickoffs != []
  {
    kickoffs[|kickoffs| - 1 := k]
  }

  function CloseKickoff(kicks: Kicks, c: Clock): Kicks {
    if !kicks.possessionPending || kicks.kickoffs == [] || c.play - Last(kicks.kickoffs).play < KICKOFF_POSSESSION
    then kicks
    else kicks.(kickoffs := SetLast(kicks.kickoffs, Last(kicks.kickoffs).(possessionTeam := c.team)),
                possessionPending := false)
  }

  // ---------------------------------------------------------------- ball contacts

  datatype Frame = Frame(at: real, speed: real)

  /** `last` is the latest frame's time with the fastest speed of the contact it belongs to. */
  datatype Hitter = Hitter(hits: nat, hardHits: nat, speedSum: real, maxSpeed: real, firstTouches: nat,
                           last: Option<Frame>)

  const HITTER0 := Hitter(0, 0, 0.0, 0.0, 0, None)

  predicate Merges(h: Hitter, at: real) {
    h.last.Some? && at - h.last.value.at <= TOUCH_MERGE
  }

  function Touch(h: Hitter, f: Frame): Hitter {
    if Merges(h, f.at) then
      var last := h.last.value;
      if f.speed > last.speed then
        h.(speedSum := h.speedSum + (f.speed - last.speed),
           hardHits := if last.speed < HARD_HIT && f.speed >= HARD_HIT then h.hardHits + 1 else h.hardHits,
           last := Some(f), maxSpeed := MaxR(h.maxSpeed, f.speed))
      else h.(last := Some(Frame(f.at, last.speed)), maxSpeed := MaxR(h.maxSpeed, f.speed))
    else
      h.(hits := h.hits + 1, speedSum := h.speedSum + f.speed, maxSpeed := MaxR(h.maxSpeed, f.speed),
         hardHits := if f.speed >= HARD_HIT then h.hardHits + 1 else h.hardHits, last := Some(f))
  }

  datatype Hit = Hit(id: string, team: int)
  datatype BallHit = BallHit(hitters: seq<Hit>, speed: real)

  function HitterOf(hitters: map<string, Hitter>, id: string): Hitter {
    if id in hitters then hitters[id] else HITTER0
  }

  // ---------------------------------------------------------------- cars

  datatype SpeedSample = SpeedSample(raw: real, seconds: real, supersonic: Option<bool>)

  datatype Car = Car(
    sampled: real, ground: real, air: real, wall: real, powerslide: real, powerslides: nat, boosting: real,
    boostIntegral: real, zeroBoost: real, fullBoost: real, band0: real, band1: real, band2: real, band3: real,
    boostUsed: int, boostCollected: int, bigPads: nat, smallPads: nat, padsFromEvents: bool, demolished: real,
    samples: seq<SpeedSample>, lastBoost: Option<int>, respawning: bool, wasPowersliding: bool)

  const CAR0 := Car(0.0, 0.0, 0.0, 0.0, 0.0, 0, 0.0, 0.0, 0.0, 0.0, 0.0, 0.0, 0.0, 0.0,
                    0, 0, 0, 0, false, 0.0, [], None, false, false)

  function Boost(p: PlayerSample): int {
    var b := p.boost.GetOr(0);
    if b < 0 then 0 else if b > 100 then 100 else b
  }

  function If(condition: bool, seconds: real): real {
    if condition then seconds else 0.0
  }

  /** Where the car was; every counter grows by all of `dt` or by nothing. */
  function CarSurfaces(car: Car, p: PlayerSample, dt: real): Car {
    car.(sampled := car.sampled + dt,
         samples := car.samples + [SpeedSample(p.speed, dt, Some(p.supersonic))],
         wall := car.wall + If(p.onWall, dt),
         ground := car.ground + If(!p.onWall && p.onGround, dt),
         air := car.air + If(!p.onWall && !p.onGround, dt),
         powerslide := car.powerslide + If(p.powersliding, dt),
         powerslides := if p.powersliding && !car.wasPowersliding then car.powerslides + 1 else car.powerslides,
         wasPowersliding := p.powersliding,
         boosting := car.boosting + If(p.boosting, dt))
  }

  function BoostArea(amount: int, dt: real): real {
    amount as real * dt
  }

  /** How much boost it had. */
  function CarAmounts(car: Car, amount: int, dt: real): Car {
    car.(boostIntegral := car.boostIntegral + BoostArea(amount, dt),
         zeroBoost := car.zeroBoost + If(amount <= 0, dt),
         fullBoost := car.fullBoost + If(amount >= 100, dt))
  }

  function CarBands(car: Car, amount: int, dt: real): Car {
    car.(band0 := car.band0 + If(amount / 25 == 0, dt), band1 := car.band1 + If(amount / 25 == 1, dt),
         band2 := car.band2 + If(amount / 25 == 2, dt), band3 := car.band3 + If(amount / 25 >= 3, dt))
  }

  function CarTimes(car: Car, p: PlayerSample, dt: real): Car {
    CarBands(CarAmounts(CarSurfaces(car, p, dt), Boost(p), dt), Boost(p), dt)
  }

  /** What the change of the boost amount since the last sample was: a respawn grant, a pickup or use. */
  function CarBoost(car: Car, amount: int): Car {
    if car.lastBoost.None? then car.(lastBoost := Some(amount))
    else
      var delta := amount - car.lastBoost.value;
      var pickup := !car.respawning && delta > 0;
      var pads := pickup && !car.padsFromEvents;
      car.(lastBoost := Some(amount),
           respawning := car.respawning && delta == 0,
           boostCollected := if pickup then car.boostCollected + delta else car.boostCollected,
           bigPads := if pads && delta > SMALL_PAD then car.bigPads + 1 else car.bigPads,
           smallPads := if pads && delta <= SMALL_PAD then car.smallPads + 1 else car.smallPads,
           boostUsed := if !car.respawning && delta < 0 then car.boostUsed - delta else car.boostUsed)
  }

  function CarSample(car: Car, p: PlayerSample, dt: real): Car {
    if p.demolished || !p.hasCar then
      car.(demolished := car.demolished + dt, respawning := true, wasPowersliding := false)
    else CarBoost(CarTimes(car, p, dt), Boost(p))
  }

  function CarOf(cars: map<string, Car>, id: string): Car {
    if id in cars then cars[id] else CAR0
  }

  predicate Skipped(p: PlayerSample) {
    (!p.hasCarField && !p.demolished) || p.id == ""
  }

  function SampleCars(cars: map<string, Car>, players: seq<PlayerSample>, dt: real): map<string, Car> {
    if players == [] then cars
    else
      var before := SampleCars(cars, players[..|players| - 1], dt);
      var p := players[|players| - 1];
      if Skipped(p) then before else before[p.id := CarSample(CarOf(before, p.id), p, dt)]
  }

  function CountdownCar(car: Car): Car {
    car.(lastBoost := None, respawning := false, wasPowersliding := false)
  }

  function PickupCar(car: Car, big: bool): Car {
    var fromEvents := if car.padsFromEvents then car else car.(padsFromEvents := true, bigPads := 0, smallPads := 0);
    if big then fromEvents.(bigPads := fromEvents.bigPads + 1) else fromEvents.(smallPads := fromEvents.smallPads + 1)
  }

  // ---------------------------------------------------------------- the tracker

  datatype Tracker = Tracker(clock: Clock, kicks: Kicks, hitters: map<string, Hitter>, cars: map<string, Car>)

  const TRACKER0 := Tracker(CLOCK0, KICKS0, map[], map[])

  function OnUpdateState(t: Tracker, u: Update, now: real): Tracker {
    var seen := ClockSeen(t.clock, u);
    var clock := UpdateClock(t.clock, u, now);
    if !Counts(seen, u, now) then t.(clock := clock)
    else t.(clock := clock, kicks := CloseKickoff(t.kicks, clock),
            cars := SampleCars(t.cars, u.players, SampleSeconds(seen, now)))
  }

  function OnCountdownBegin(t: Tracker): Tracker {
    t.(clock := t.clock.(roundActive := false), kicks := t.kicks.(awaiting := false),
       cars := map id | id in t.cars :: CountdownCar(t.cars[id]))
  }

  function OnRoundStarted(t: Tracker, now: real): Tracker {
    t.(clock := t.clock.(roundActive := !t.clock.paused, lastSampleAt := Some(now), team := -1),
       kicks := Kicks(t.kicks.kickoffs + [Kickoff(t.clock.play, "", -1, -1, -1)], true, true))
  }

  function OnHit(t: Tracker, h: Hit, first: bool, f: Frame): Tracker {
    if h.id == "" then t
    else
      var before := HitterOf(t.hitters, h.id);
      var opens := first && !Merges(before, f.at);
      var after := Touch(before, f);
      var ks := t.kicks.kickoffs;
      t.(clock := t.clock.(team := if IsTeam(h.team) then h.team else t.clock.team),
         hitters := t.hitters[h.id := if opens then after.(firstTouches := after.firstTouches + 1) else after],
         kicks := if opens && ks != [] && Last(ks).firstTouchId == ""
                  then t.kicks.(kickoffs := SetLast(ks, Last(ks).(firstTouchId := h.id, firstTouchTeam := h.team)))
                  else t.kicks)
  }

  function OnHits(t: Tracker, hits: seq<Hit>, first: bool, f: Frame): Tracker {
    if hits == [] then t else OnHit(OnHits(t, hits[..|hits| - 1], first, f), hits[|hits| - 1], first, f)
  }

  /** A hit starts the round unless paused, and ends the wait for a first touch. */
  function InPlay(t: Tracker): Tracker {
    t.(clock := t.clock.(roundActive := t.clock.roundActive || !t.clock.paused), kicks := t.kicks.(awaiting := false))
  }

  function OnBallHit(t: Tracker, e: BallHit, now: real): Tracker {
    if e.hitters == [] then t
    else OnHits(InPlay(t), e.hitters, t.kicks.awaiting, Frame(now, e.speed))
  }

  function OnGoalScored(t: Tracker, echo: bool, team: int): Tracker {
    if echo then t
    else
      var ks := t.kicks.kickoffs;
      var soon := IsTeam(team) && ks != [] && Last(ks).goalTeam == -1 && t.clock.play - Last(ks).play <= KICKOFF_GOAL;
      t.(clock := t.clock.(roundActive := false),
         kicks := t.kicks.(awaiting := false,
                           kickoffs := if soon then SetLast(ks, Last(ks).(goalTeam := team)) else ks))
  }

  function OnBoostPickup(t: Tracker, id: string, replay: bool, big: bool): Tracker {
    if replay || id == "" then t else t.(cars := t.cars[id := PickupCar(CarOf(t.cars, id), big)])
  }

  datatype Event =
    | Updated(update: Update)
    | CountdownBegan
    | RoundStarted
    | BallWasHit(hit: BallHit)
    | GoalScored(echo: bool, team: int)
    | BoostPickedUp(id: string, replay: bool, big: bool)
    | Paused
    | Unpaused
    | MatchEnded

  function Step(t: Tracker, e: Event, now: real): Tracker {
    match e
    case Updated(u) => OnUpdateState(t, u, now)
    case CountdownBegan => OnCountdownBegin(t)
    case RoundStarted => OnRoundStarted(t, now)
    case BallWasHit(hit) => OnBallHit(t, hit, now)
    case GoalScored(echo, team) => OnGoalScored(t, echo, team)
    case BoostPickedUp(id, replay, big) => OnBoostPickup(t, id, replay, big)
    case Paused => t.(clock := PauseClock(t.clock, now))
    case Unpaused => t.(clock := UnpauseClock(t.clock, now))
    case MatchEnded => t.(clock := t.clock.(roundActive := false))
  }

  // ---------------------------------------------------------------- snapshot

  function SnapshotTimeline(c: Clock): seq<Window> {
    if c.window.seconds.blue > 0.0 || c.window.seconds.orange > 0.0
    then c.timeline + [Window(c.play, c.window.seconds)] else c.timeline
  }

  function RawMax(samples: seq<SpeedSample>): real {
    if samples == [] then 0.0 else MaxR(RawMax(samples[..|samples| - 1]), samples[|samples| - 1].raw)
  }

  function Kph(raw: real, uu: bool): real {
    if uu then raw * UU_TO_KPH else raw
  }

  datatype Band = Slow | BoostSpeed | Supersonic

  function BandOf(s: SpeedSample, uu: bool): Band {
    var kph := Kph(s.raw, uu);
    if (if s.supersonic.Some? then s.supersonic.value else kph >= SUPERSONIC) then Supersonic
    else if kph >= BOOST_SPEED then BoostSpeed
    else Slow
  }

  /** Seconds spent in one speed band. */
  function BandSeconds(samples: seq<SpeedSample>, uu: bool, band: Band): real {
    if samples == [] then 0.0
    else
      var s := samples[|samples| - 1];
      BandSeconds(samples[..|samples| - 1], uu, band) + If(BandOf(s, uu) == band, s.seconds)
  }

  function Distance(samples: seq<SpeedSample>, uu: bool): real {
    if samples == [] then 0.0
    else
      var s := samples[|samples| - 1];
      Distance(samples[..|samples| - 1], uu) + Kph(s.raw, uu) / UU_TO_KPH * s.seconds
  }

  datatype Speeds = Speeds(distance: real, maxSpeed: real, slow: real, boostSpeed: real, supersonic: real)

  function SpeedsOf(samples: seq<SpeedSample>): Speeds {
    var uu := RawMax(samples) > RAW_UU_THRESHOLD;
    Speeds(Distance(samples, uu), MaxR(0.0, Kph(RawMax(samples), uu)), BandSeconds(samples, uu, Slow),
           BandSeconds(samples, uu, BoostSpeed), BandSeconds(samples, uu, Supersonic))
  }
}
