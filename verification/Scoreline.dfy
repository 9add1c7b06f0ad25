/**
 The shape of a match's scoreline (src/core/game/MatchAnalytics.cpp, AnalyzeScoreline):
 one pass over the goals keeps a running score. It is measured against the score after
 every prefix of the goals.
 */
module Scoreline {
  import opened Options
  import opened Teams

  datatype Goal = Goal(team: int, overtime: bool, clockSeconds: Option<real>)

  datatype Summary = Summary(
    maxLead: int, maxDeficit: int, comeback: bool, blownLead: bool, overtime: bool, lateWinner: bool,
    goalsAfterKickoffFor: nat, goalsAfterKickoffAgainst: nat, lastMinuteGoalsFor: nat, lastMinuteGoalsAgainst: nat)

  const EMPTY := Summary(0, 0, false, false, false, false, 0, 0, 0, 0)

  /** Goals of a team; goals of no team count for nobody. */
  function Score(goals: seq<Goal>, team: int): nat {
    if goals == [] then 0
    else Score(goals[..|goals| - 1], team) + (if goals[|goals| - 1].team == team then 1 else 0)
  }

  function Margin(goals: seq<Goal>, team: int): int {
    Score(goals, team) - Score(goals, 1 - team)
  }

  /** The margin of `team` after the first `i` goals. */
  function MarginAfter(goals: seq<Goal>, team: int, i: nat): int
    requires i <= |goals|
  {
    Margin(goals[..i], team)
  }

  lemma MarginStep(goals: seq<Goal>, team: int, i: nat)
    requires i < |goals| && IsTeam(team)
    ensures MarginAfter(goals, team, i + 1) == MarginAfter(goals, team, i)
            + (if goals[i].team == team then 1 else if goals[i].team == 1 - team then -1 else 0)
  {
    assert goals[..i + 1][..i] == goals[..i];
  }

  predicate InLastMinute(g: Goal) {
    !g.overtime && g.clockSeconds.Some? && g.clockSeconds.value <= 60.0
  }

  predicate IsLate(g: Goal) {
    !g.overtime && g.clockSeconds.Some? && g.clockSeconds.value <= 30.0
  }

  function LastMinute(goals: seq<Goal>, team: int): nat {
    if goals == [] then 0
    else
      var g := goals[|goals| - 1];
      LastMinute(goals[..|goals| - 1], team) + (if g.team == team && InLastMinute(g) then 1 else 0)
  }

  function Count(teams: seq<int>, team: int): nat {
    if teams == [] then 0 else Count(teams[..|teams| - 1], team) + (if teams[|teams| - 1] == team then 1 else 0)
  }

  /** The goals of a team, as a set of their positions. */
  ghost function GoalsBy(goals: seq<Goal>, team: int): set<int> {
    set i | 0 <= i < |goals| && goals[i].team == team
  }

  /** Those of its goals that were scored in regulation with at most a minute on the clock. */
  ghost function LastGoalsBy(goals: seq<Goal>, team: int): set<int> {
    set i | 0 <= i < |goals| && goals[i].team == team && !goals[i].overtime
            && goals[i].clockSeconds.Some? && goals[i].clockSeconds.value <= 60.0
  }

  /** The places at which a team stands in a list of teams. */
  ghost function PlacesOf(teams: seq<int>, team: int): set<int> {
    set i | 0 <= i < |teams| && teams[i] == team
  }

  lemma GoalsByStep(goals: seq<Goal>, g: Goal, team: int)
    ensures var n := |goals|; n !in GoalsBy(goals, team) && n !in LastGoalsBy(goals, team)
    ensures GoalsBy(goals + [g], team) == GoalsBy(goals, team) + (if g.team == team then {|goals|} else {})
    ensures LastGoalsBy(goals + [g], team)
         == LastGoalsBy(goals, team) + (if g.team == team && InLastMinute(g) then {|goals|} else {})
  {
    var longer, n := goals + [g], |goals|;
    assert longer[n] == g && forall i | 0 <= i < n :: longer[i] == goals[i];
    assert forall i | i in GoalsBy(longer, team) :: i == n || i in GoalsBy(goals, team);
    assert forall i | i in LastGoalsBy(longer, team) :: i == n || i in LastGoalsBy(goals, team);
  }

  /** The score is the number of goals, and the last minute's that of the goals scored in it. */
  lemma {:induction false} ScoreCounts(goals: seq<Goal>, team: int)
    ensures Score(goals, team) == |GoalsBy(goals, team)|
    ensures LastMinute(goals, team) == |LastGoalsBy(goals, team)|
  {
    if goals == [] {
    } else {
      hide GoalsBy, LastGoalsBy, InLastMinute;
      var init := goals[..|goals| - 1];
      ScoreCounts(init, team);
      GoalsByStep(init, goals[|goals| - 1], team);
      assert init + [goals[|goals| - 1]] == goals;
    }
  }

  lemma {:induction false} KickoffsCount(teams: seq<int>, team: int)
    ensures Count(teams, team) == |PlacesOf(teams, team)|
  {
    if teams == [] {
    } else {
      var init, n := teams[..|teams| - 1], |teams| - 1;
      KickoffsCount(init, team);
      assert PlacesOf(teams, team) == PlacesOf(init, team) + (if teams[n] == team then {n} else {});
    }
  }

  /** Goal `d` broke a level score for `team`. */
  predicate GoesAhead(goals: seq<Goal>, team: int, d: nat) {
    d < |goals| && goals[d].team == team && MarginAfter(goals, team, d) == 0
  }

  /** The goal kept: the last one that put `team` ahead from level. */
  predicate Decisive(goals: seq<Goal>, team: int, d: nat) {
    GoesAhead(goals, team, d) && forall j | d < j < |goals| :: !GoesAhead(goals, team, j)
  }

  predicate StaysAhead(goals: seq<Goal>, team: int, d: nat) {
    d < |goals| && forall j: nat | d < j <= |goals| :: MarginAfter(goals, team, j) > 0
  }

  lemma DecisiveIsUnique(goals: seq<Goal>, team: int, d: nat, e: nat)
    requires Decisive(goals, team, d) && Decisive(goals, team, e)
    ensures d == e
  {}

  /** While `team` never goes ahead from level between two points, a lead at the later one was there all along. */
  lemma {:induction false} LeadWasKept(goals: seq<Goal>, team: int, lo: nat, hi: nat)
    requires IsTeam(team) && lo <= hi <= |goals| && MarginAfter(goals, team, hi) > 0
    requires forall j | lo <= j < hi :: !GoesAhead(goals, team, j)
    ensures forall j: nat | lo <= j <= hi :: MarginAfter(goals, team, j) > 0
    decreases hi
  {
    if lo < hi {
      MarginStep(goals, team, hi - 1);
      assert !GoesAhead(goals, team, hi - 1);
      LeadWasKept(goals, team, lo, hi - 1);
    }
  }

  lemma {:induction false} LeadWasTaken(goals: seq<Goal>, team: int, hi: nat)
    requires IsTeam(team) && hi <= |goals| && MarginAfter(goals, team, hi) > 0
    ensures exists d: nat | d < hi :: GoesAhead(goals, team, d) && forall j | d < j < hi :: !GoesAhead(goals, team, j)
  {
    if hi > 0 {
      MarginStep(goals, team, hi - 1);
      if !GoesAhead(goals, team, hi - 1) {
        LeadWasTaken(goals, team, hi - 1);
      }
    }
  }

  /**
   The goal kept as decisive exists, and its team is never level or behind again after
   it, exactly when the goals end with that team ahead.
   */
  lemma DecisiveHolds(goals: seq<Goal>, team: int)
    requires IsTeam(team)
    ensures (exists d: nat :: Decisive(goals, team, d) && StaysAhead(goals, team, d)) <==> Margin(goals, team) > 0
  {
    assert goals[..|goals|] == goals;
    if Margin(goals, team) > 0 {
      LeadWasTaken(goals, team, |goals|);
      var d: nat :| d < |goals| && GoesAhead(goals, team, d)
                    && forall j | d < j < |goals| :: !GoesAhead(goals, team, j);
      LeadWasKept(goals, team, d + 1, |goals|);
      assert Decisive(goals, team, d) && StaysAhead(goals, team, d);
    } else {
      forall d: nat | Decisive(goals, team, d) ensures !StaysAhead(goals, team, d) {
        assert MarginAfter(goals, team, |goals|) <= 0;
      }
    }
  }

  /** Otherwise the goal kept was equalised: when a match ends level (a forfeit), it is still called the winner. */
  lemma KeptGoalCanBeEqualised(goals: seq<Goal>)
    requires goals == [Goal(0, false, Some(20.0)), Goal(1, false, Some(10.0))]
    ensures Decisive(goals, 0, 0) && IsLate(goals[0]) && Margin(goals, 0) == 0
  {
    assert goals[..0] == [] && goals[..1] == [goals[0]] && goals[..2] == goals;
    MarginStep(goals, 0, 0);
    MarginStep(goals, 0, 1);
  }

  // ---------------------------------------------------------------- the pass

  ghost predicate ExactExtremes(goals: seq<Goal>, n: nat, team: int, lead: int, deficit: int)
    requires n <= |goals|
  {
    && (forall i: nat | i <= n :: -deficit <= MarginAfter(goals, team, i) <= lead)
    && (exists i: nat | i <= n :: MarginAfter(goals, team, i) == lead)
    && (exists i: nat | i <= n :: MarginAfter(goals, team, i) == -deficit)
  }

  predicate LastAhead(goals: seq<Goal>, n: nat, team: int, decisive: Option<nat>)
    requires n <= |goals|
  {
    match decisive
    case None => forall j | 0 <= j < n :: !GoesAhead(goals, team, j)
    case Some(d) => d < n && GoesAhead(goals, team, d) && forall j | d < j < n :: !GoesAhead(goals, team, j)
  }

  predicate HasOvertime(goals: seq<Goal>, n: nat)
    requires n <= |goals|
  {
    exists i | 0 <= i < n :: IsTeam(goals[i].team) && goals[i].overtime
  }

  lemma ExtremesStep(goals: seq<Goal>, n: nat, team: int, lead: int, deficit: int)
    requires n < |goals| && IsTeam(team) && ExactExtremes(goals, n, team, lead, deficit)
    ensures var m := MarginAfter(goals, team, n + 1);
            ExactExtremes(goals, n + 1, team, if m > lead then m else lead, if -m > deficit then -m else deficit)
  {
    hide MarginAfter;
    var i: nat :| i <= n && MarginAfter(goals, team, i) == lead;
    var j: nat :| j <= n && MarginAfter(goals, team, j) == -deficit;
    var m := MarginAfter(goals, team, n + 1);
    assert MarginAfter(goals, team, if m > lead then n + 1 else i) == if m > lead then m else lead;
    assert MarginAfter(goals, team, if -m > deficit then n + 1 else j) == -(if -m > deficit then -m else deficit);
  }

  lemma NoGoals(goals: seq<Goal>, team: int)
    ensures ExactExtremes(goals, 0, team, 0, 0)
  {
    assert goals[..0] == [];
    assert MarginAfter(goals, team, 0) == 0;
  }

  lemma NoMoreThanMargins(goals: seq<Goal>, team: int, lead: int, deficit: int)
    requires ExactExtremes(goals, |goals|, team, lead, deficit)
    ensures lead > 0 <==> exists i: nat | i <= |goals| :: MarginAfter(goals, team, i) > 0
    ensures deficit > 0 <==> exists i: nat | i <= |goals| :: MarginAfter(goals, team, i) < 0
  {}

  lemma AheadStep(goals: seq<Goal>, n: nat, team: int, decisive: Option<nat>)
    requires n < |goals| && LastAhead(goals, n, team, decisive)
    ensures LastAhead(goals, n + 1, team, if GoesAhead(goals, team, n) then Some(n) else decisive)
  {}

  lemma OvertimeStep(goals: seq<Goal>, n: nat)
    requires n < |goals|
    ensures HasOvertime(goals, n + 1) == (HasOvertime(goals, n) || (IsTeam(goals[n].team) && goals[n].overtime))
  {}

  /** The variables of the pass. */
  datatype Tally = Tally(mine: int, theirs: int, maxLead: int, maxDeficit: int, overtime: bool,
                         decisive: Option<nat>, lastFor: nat, lastAgainst: nat)

  ghost predicate CountsScore(goals: seq<Goal>, n: nat, myTeam: int, t: Tally)
    requires n <= |goals|
  {
    t.mine == Score(goals[..n], myTeam) && t.theirs == Score(goals[..n], 1 - myTeam)
  }

  ghost predicate CountsLastMinute(goals: seq<Goal>, n: nat, myTeam: int, t: Tally)
    requires n <= |goals|
  {
    t.lastFor == LastMinute(goals[..n], myTeam) && t.lastAgainst == LastMinute(goals[..n], 1 - myTeam)
  }

  ghost predicate TallyOk(goals: seq<Goal>, n: nat, myTeam: int, winner: int, t: Tally)
    requires n <= |goals|
  {
    && CountsScore(goals, n, myTeam, t) && CountsLastMinute(goals, n, myTeam, t)
    && ExactExtremes(goals, n, myTeam, t.maxLead, t.maxDeficit)
    && LastAhead(goals, n, winner, t.decisive)
    && t.overtime == HasOvertime(goals, n)
  }

  function AddGoal(t: Tally, g: Goal, n: nat, myTeam: int, winner: int): Tally {
    if !IsTeam(g.team) then t
    else
      var before := if winner == myTeam then t.mine - t.theirs else t.theirs - t.mine;
      var mine := if g.team == myTeam then t.mine + 1 else t.mine;
      var theirs := if g.team == myTeam then t.theirs else t.theirs + 1;
      var diff := mine - theirs;
      Tally(mine, theirs, if diff > t.maxLead then diff else t.maxLead,
            if -diff > t.maxDeficit then -diff else t.maxDeficit, t.overtime || g.overtime,
            if g.team == winner && before == 0 then Some(n) else t.decisive,
            if InLastMinute(g) && g.team == myTeam then t.lastFor + 1 else t.lastFor,
            if InLastMinute(g) && g.team != myTeam then t.lastAgainst + 1 else t.lastAgainst)
  }

  lemma CountingStep(goals: seq<Goal>, n: nat, myTeam: int, winner: int, t: Tally)
    requires n < |goals| && IsTeam(myTeam)
    requires CountsScore(goals, n, myTeam, t) && CountsLastMinute(goals, n, myTeam, t)
    ensures var u := AddGoal(t, goals[n], n, myTeam, winner);
      CountsScore(goals, n + 1, myTeam, u) && CountsLastMinute(goals, n + 1, myTeam, u)
  {
    assert goals[..n + 1][..n] == goals[..n];
  }

  lemma ExtremesOfTally(goals: seq<Goal>, n: nat, myTeam: int, winner: int, t: Tally)
    requires n < |goals| && IsTeam(myTeam)
    requires CountsScore(goals, n, myTeam, t) && ExactExtremes(goals, n, myTeam, t.maxLead, t.maxDeficit)
    ensures var u := AddGoal(t, goals[n], n, myTeam, winner);
      ExactExtremes(goals, n + 1, myTeam, u.maxLead, u.maxDeficit)
  {
    MarginStep(goals, myTeam, n);
    ExtremesStep(goals, n, myTeam, t.maxLead, t.maxDeficit);
    assert -t.maxDeficit <= MarginAfter(goals, myTeam, n) <= t.maxLead;
  }

  lemma DecisiveOfTally(goals: seq<Goal>, n: nat, myTeam: int, winner: int, t: Tally)
    requires n < |goals| && IsTeam(myTeam) && IsTeam(winner)
    requires CountsScore(goals, n, myTeam, t) && LastAhead(goals, n, winner, t.decisive)
    ensures LastAhead(goals, n + 1, winner, AddGoal(t, goals[n], n, myTeam, winner).decisive)
  {
    AheadStep(goals, n, winner, t.decisive);
  }

  /** One goal of the pass, as the loop body has it. */
  method PassGoal(t0: Tally, g: Goal, n: nat, myTeam: int, winner: int) returns (t: Tally)
    requires IsTeam(myTeam) && IsTeam(winner)
    ensures t == AddGoal(t0, g, n, myTeam, winner)
  {
    t := t0;
    if g.team != 0 && g.team != 1 {
      return;
    }
    var winnerMarginBefore := if winner == myTeam then t.mine - t.theirs else t.theirs - t.mine;
    if g.team == myTeam { t := t.(mine := t.mine + 1); } else { t := t.(theirs := t.theirs + 1); }
    var diff := t.mine - t.theirs;
    if diff > t.maxLead { t := t.(maxLead := diff); }
    if -diff > t.maxDeficit { t := t.(maxDeficit := -diff); }
    if g.overtime {
      t := t.(overtime := true);
    }
    if g.team == winner && winnerMarginBefore == 0 {
      t := t.(decisive := Some(n));
    }
    if !g.overtime && g.clockSeconds.Some? && g.clockSeconds.value <= 60.0 {
      if g.team == myTeam {
        t := t.(lastFor := t.lastFor + 1);
      } else {
        t := t.(lastAgainst := t.lastAgainst + 1);
      }
    }
  }

  method PassGoals(goals: seq<Goal>, myTeam: int, winner: int) returns (t: Tally)
    requires IsTeam(myTeam) && IsTeam(winner)
    ensures TallyOk(goals, |goals|, myTeam, winner, t)
  {
    t := Tally(0, 0, 0, 0, false, None, 0, 0);
    NoGoals(goals, myTeam);
    assert goals[..0] == [];
    for n := 0 to |goals|
      invariant TallyOk(goals, n, myTeam, winner, t)
    {
      CountingStep(goals, n, myTeam, winner, t);
      ExtremesOfTally(goals, n, myTeam, winner, t);
      DecisiveOfTally(goals, n, myTeam, winner, t);
      OvertimeStep(goals, n);
      t := PassGoal(t, goals[n], n, myTeam, winner);
    }
  }

  method AnalyzeScoreline(goals: seq<Goal>, kickoffGoalTeams: seq<int>, endedInOvertime: bool, myTeam: int, won: bool)
    returns (s: Summary)
    ensures !IsTeam(myTeam) ==> s == EMPTY
    ensures IsTeam(myTeam) ==>
      var winner := if won then myTeam else 1 - myTeam;
      && ExactExtremes(goals, |goals|, myTeam, s.maxLead, s.maxDeficit)
      && (s.comeback <==> won && exists i: nat | i <= |goals| :: MarginAfter(goals, myTeam, i) < 0)
      && (s.blownLead <==> !won && exists i: nat | i <= |goals| :: MarginAfter(goals, myTeam, i) > 0)
      && (s.overtime <==> endedInOvertime || HasOvertime(goals, |goals|))
      && (s.lateWinner <==> exists d: nat :: Decisive(goals, winner, d) && !goals[d].overtime
                                             && goals[d].clockSeconds.Some? && goals[d].clockSeconds.value <= 30.0)
      && s.lastMinuteGoalsFor == |LastGoalsBy(goals, myTeam)|
      && s.lastMinuteGoalsAgainst == |LastGoalsBy(goals, 1 - myTeam)|
      && s.goalsAfterKickoffFor == |PlacesOf(kickoffGoalTeams, myTeam)|
      && s.goalsAfterKickoffAgainst == |PlacesOf(kickoffGoalTeams, 1 - myTeam)|
  {
    s := EMPTY;
    if myTeam != 0 && myTeam != 1 {
      return;
    }
    var winner := if won then myTeam else 1 - myTeam;
    var t := PassGoals(goals, myTeam, winner);
    assert goals[..|goals|] == goals;
    NoMoreThanMargins(goals, myTeam, t.maxLead, t.maxDeficit);
    ScoreCounts(goals, myTeam);
    ScoreCounts(goals, 1 - myTeam);
    KickoffsCount(kickoffGoalTeams, myTeam);
    KickoffsCount(kickoffGoalTeams, 1 - myTeam);
    assert t.decisive.Some? ==> Decisive(goals, winner, t.decisive.value);
    var kickFor, kickAgainst := CountKickoffGoals(kickoffGoalTeams, myTeam);
    s := Summary(t.maxLead, t.maxDeficit, won && t.maxDeficit > 0, !won && t.maxLead > 0,
                 t.overtime || endedInOvertime, t.decisive.Some? && IsLate(goals[t.decisive.value]),
                 kickFor, kickAgainst, t.lastFor, t.lastAgainst);
  }

  method CountKickoffGoals(goalTeams: seq<int>, myTeam: int) returns (forUs: nat, against: nat)
    ensures forUs == Count(goalTeams, myTeam) && against == Count(goalTeams, 1 - myTeam)
  {
    forUs, against := 0, 0;
    for n := 0 to |goalTeams|
      invariant forUs == Count(goalTeams[..n], myTeam) && against == Count(goalTeams[..n], 1 - myTeam)
    {
      assert goalTeams[..n + 1][..n] == goalTeams[..n];
      if goalTeams[n] == myTeam { forUs := forUs + 1; }
      if goalTeams[n] == 1 - myTeam { against := against + 1; }
    }
    assert goalTeams[..|goalTeams|] == goalTeams;
  }

  /**
   The match story's own pass for its late-winner line (src/core/game/MatchStory.cpp:91-99).
   `Decisive` names one goal at most, so it is the goal `AnalyzeScoreline` judged.
   */
  method StoryDecisive(goals: seq<Goal>, winner: int) returns (decisive: Option<nat>)
    requires IsTeam(winner)
    ensures match decisive
      case None => forall d: nat :: !Decisive(goals, winner, d)
      case Some(d) => Decisive(goals, winner, d)
  {
    var us, them := 0, 0;
    decisive := None;
    assert goals[..0] == [];
    for n := 0 to |goals|
      invariant us == Score(goals[..n], winner) && them == Score(goals[..n], 1 - winner)
      invariant LastAhead(goals, n, winner, decisive)
    {
      var g := goals[n];
      assert goals[..n + 1][..n] == goals[..n];
      if g.team != 0 && g.team != 1 {
        continue;
      }
      var winnerMarginBefore := us - them;
      if g.team == winner { us := us + 1; } else { them := them + 1; }
      if g.team == winner && winnerMarginBefore == 0 {
        decisive := Some(n);
      }
    }
    assert goals[..|goals|] == goals;
  }
}
