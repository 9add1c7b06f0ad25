/**
 The numbers of one match and of a session (src/core/state/SessionTypes.hpp). MMR changes are
 not part of this model.
 */
module SessionTypes {
  function MaxReal(a: real, b: real): real { if a < b then b else a }

  /** What is added up. `Goals` and the like without `Total` are the local player's own. */
  datatype Counter =
    | Goals | OwnGoals | OwnGoalsSelf | Saves | SavesTotal | Shots | ShotsTotal | Demos | DemosTotal | Demoed
    | Crossbars | CrossbarsTotal | Assists | AssistsTotal | BoostPickedUp

  datatype Counters = Counters(
    goals: int, ownGoals: int, ownGoalsSelf: int, saves: int, savesTotal: int, shots: int, shotsTotal: int,
    demos: int, demosTotal: int, demoed: int, crossbars: int, crossbarsTotal: int,
    assists: int, assistsTotal: int, boostPickedUp: int)
  {
    function Of(c: Counter): int {
      match c
      case Goals => goals
      case OwnGoals => ownGoals
      case OwnGoalsSelf => ownGoalsSelf
      case Saves => saves
      case SavesTotal => savesTotal
      case Shots => shots
      case ShotsTotal => shotsTotal
      case Demos => demos
      case DemosTotal => demosTotal
      case Demoed => demoed
      case Crossbars => crossbars
      case CrossbarsTotal => crossbarsTotal
      case Assists => assists
      case AssistsTotal => assistsTotal
      case BoostPickedUp => boostPickedUp
    }

    function Plus(m: Counters): Counters {
      Counters(goals + m.goals, ownGoals + m.ownGoals, ownGoalsSelf + m.ownGoalsSelf,
               saves + m.saves, savesTotal + m.savesTotal, shots + m.shots, shotsTotal + m.shotsTotal,
               demos + m.demos, demosTotal + m.demosTotal, demoed + m.demoed,
               crossbars + m.crossbars, crossbarsTotal + m.crossbarsTotal,
               assists + m.assists, assistsTotal + m.assistsTotal, boostPickedUp + m.boostPickedUp)
    }
  }

  lemma PlusAddsEach(a: Counters, b: Counters, c: Counter)
    ensures a.Plus(b).Of(c) == a.Of(c) + b.Of(c)
  {
    match c
    case Goals => case OwnGoals => case OwnGoalsSelf => case Saves => case SavesTotal => case Shots =>
    case ShotsTotal => case Demos => case DemosTotal => case Demoed => case Crossbars => case CrossbarsTotal =>
    case Assists => case AssistsTotal => case BoostPickedUp =>
  }

  /** What is kept as a maximum. */
  datatype Peak = GoalSpeed | GoalSpeedSelf | BallSpeed | BallSpeedSelf | Impact | ImpactSelf

  datatype Peaks = Peaks(goalSpeed: real, goalSpeedSelf: real, ballSpeed: real, ballSpeedSelf: real,
                         impact: real, impactSelf: real)
  {
    function Of(p: Peak): real {
      match p
      case GoalSpeed => goalSpeed
      case GoalSpeedSelf => goalSpeedSelf
      case BallSpeed => ballSpeed
      case BallSpeedSelf => ballSpeedSelf
      case Impact => impact
      case ImpactSelf => impactSelf
    }

    function Raised(m: Peaks): Peaks {
      Peaks(MaxReal(goalSpeed, m.goalSpeed), MaxReal(goalSpeedSelf, m.goalSpeedSelf),
            MaxReal(ballSpeed, m.ballSpeed), MaxReal(ballSpeedSelf, m.ballSpeedSelf),
            MaxReal(impact, m.impact), MaxReal(impactSelf, m.impactSelf))
    }
  }

  lemma RaisesEach(a: Peaks, b: Peaks, p: Peak)
    ensures a.Raised(b).Of(p) == MaxReal(a.Of(p), b.Of(p))
  {
    match p
    case GoalSpeed => case GoalSpeedSelf => case BallSpeed => case BallSpeedSelf => case Impact => case ImpactSelf =>
  }

  /** The time of the fastest goal, anyone's and the local player's; 0 is none. */
  datatype Fastest = Fastest(goal: real, goalSelf: real) {
    function Of(own: bool): real {
      if own then goalSelf else goal
    }

    function Lowered(m: Fastest): Fastest {
      Fastest(Faster(goal, m.goal), Faster(goalSelf, m.goalSelf))
    }
  }

  function Faster(best: real, time: real): real {
    if time > 0.0 && (best == 0.0 || time < best) then time else best
  }

  datatype Stats = Stats(counters: Counters, peaks: Peaks, fastest: Fastest)

  datatype Totals = Totals(wins: int, losses: int, counters: Counters, peaks: Peaks, fastest: Fastest,
                           teamGoals: int, participations: int)

  const NO_COUNTERS := Counters(0, 0, 0, 0, 0, 0, 0, 0, 0, 0, 0, 0, 0, 0, 0)
  const NO_PEAKS := Peaks(0.0, 0.0, 0.0, 0.0, 0.0, 0.0)
  const NO_FASTEST := Fastest(0.0, 0.0)
  const NO_STATS := Stats(NO_COUNTERS, NO_PEAKS, NO_FASTEST)
  const NO_TOTALS := Totals(0, 0, NO_COUNTERS, NO_PEAKS, NO_FASTEST, 0, 0)
}
