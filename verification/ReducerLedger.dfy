/**
 The session ledger. Whatever the order of events, the running totals are those of
 the saved matches of the current session, counted from scratch; the recap of the
 previous counted session keeps absorbing its late results.
 */
module ReducerLedger {
  import opened Options
  import opened Teams
  import opened Gamemodes
  import opened Playlists
  import opened SessionTypes
  import opened ReducerSpec
  import opened ReducerSafety
  import opened ReducerRuns
  import opened ReducerScenes

  // ---------------------------------------------------------------- counting from scratch

  /** The saved matches that were captured in one session. */
  ghost function Of(log: seq<Saved>, generation: nat): seq<Saved> {
    if log == [] then []
    else
      var last := log[|log| - 1];
      Of(log[..|log| - 1], generation) + (if last.match_.sessionGeneration == generation then [last] else [])
  }

  lemma OfSnoc(log: seq<Saved>, e: Saved, generation: nat)
    ensures Of(log + [e], generation)
         == if e.match_.sessionGeneration == generation then Of(log, generation) + [e] else Of(log, generation)
  {
    assert (log + [e])[..|log|] == log;
  }

  lemma {:induction false} OfNone(log: seq<Saved>, generation: nat)
    requires forall i | 0 <= i < |log| :: log[i].match_.sessionGeneration < generation
    ensures Of(log, generation) == []
  {
    if log != [] { OfNone(log[..|log| - 1], generation); }
  }

  lemma {:induction false} OfMembers(log: seq<Saved>, generation: nat, e: Saved)
    ensures e in Of(log, generation) <==> e in log && e.match_.sessionGeneration == generation
  {
    if log != [] {
      var init := log[..|log| - 1];
      OfMembers(init, generation, e);
      assert log == init + [log[|log| - 1]];
    }
  }

  ghost function BookOf(es: seq<Saved>): Book {
    if es == [] then NO_BOOK
    else AddMatch(BookOf(es[..|es| - 1]), es[|es| - 1].match_, es[|es| - 1].iWon)
  }

  lemma BookSnoc(es: seq<Saved>, e: Saved)
    ensures BookOf(es + [e]) == AddMatch(BookOf(es), e.match_, e.iWon)
  {
    assert (es + [e])[..|es|] == es;
  }

  /** The GUIDs of saved matches, in the order they were saved. */
  ghost function GuidsOf(es: seq<Saved>): seq<string> {
    if es == [] then []
    else
      var guid := es[|es| - 1].match_.guid;
      GuidsOf(es[..|es| - 1]) + (if guid == "" then [] else [guid])
  }

  lemma GuidsSnoc(es: seq<Saved>, e: Saved)
    ensures GuidsOf(es + [e]) == if e.match_.guid == "" then GuidsOf(es) else GuidsOf(es) + [e.match_.guid]
  {
    assert (es + [e])[..|es|] == es;
  }

  lemma {:induction false} GuidsMembers(es: seq<Saved>, guid: string)
    ensures guid in GuidsOf(es) <==> guid != "" && exists e :: e in es && e.match_.guid == guid
  {
    if es != [] {
      var init := es[..|es| - 1];
      var last := es[|es| - 1];
      GuidsMembers(init, guid);
      assert es == init + [last];
      assert last in es;
    }
  }

  // ---------------------------------------------------------------- what the book counts

  ghost function Count(es: seq<Saved>, p: Saved -> bool): nat {
    if es == [] then 0 else Count(es[..|es| - 1], p) + (if p(es[|es| - 1]) then 1 else 0)
  }

  ghost function Sum(es: seq<Saved>, f: Saved -> int): int {
    if es == [] then 0 else Sum(es[..|es| - 1], f) + f(es[|es| - 1])
  }

  ghost predicate Won(e: Saved) { e.iWon }
  ghost predicate Lost(e: Saved) { !e.iWon }
  ghost function CounterIn(c: Counter): Saved -> int { (e: Saved) => e.match_.play.stats.counters.Of(c) }
  ghost function TeamGoalsIn(e: Saved): int { CountedTeamGoals(e.match_) }
  ghost function ParticipationsIn(e: Saved): int { CountedParticipations(e.match_) }
  ghost function InMode(mode: Mode, won: bool): Saved -> bool {
    (e: Saved) => CountsForMode(e.match_) && e.match_.mode == mode && e.iWon == won
  }

  function PeakIn(e: Saved, p: Peak): real { e.match_.play.stats.peaks.Of(p) }
  function FastestIn(e: Saved, own: bool): real { e.match_.play.stats.fastest.Of(own) }

  /** `v` is the largest of the values, or 0 when none is positive. */
  ghost predicate IsPeak(es: seq<Saved>, p: Peak, v: real) {
    && v >= 0.0 && (forall e | e in es :: PeakIn(e, p) <= v)
    && (v > 0.0 ==> exists e :: e in es && PeakIn(e, p) == v)
  }

  /** `v` is the least of the positive values, or 0 when there is none. */
  ghost predicate IsFastest(es: seq<Saved>, own: bool, v: real) {
    && v >= 0.0 && (forall e | e in es && FastestIn(e, own) > 0.0 :: 0.0 < v <= FastestIn(e, own))
    && (v > 0.0 ==> exists e :: e in es && FastestIn(e, own) == v)
  }

  /** The totals are those of these matches. */
  ghost predicate TotalsOf(t: Totals, es: seq<Saved>) {
    && t.wins == Count(es, Won) && t.losses == Count(es, Lost) && t.wins + t.losses == |es|
    && (forall c :: t.counters.Of(c) == Sum(es, CounterIn(c)))
    && t.teamGoals == Sum(es, TeamGoalsIn) && t.participations == Sum(es, ParticipationsIn)
    && 0 <= t.participations <= t.teamGoals
    && (forall p :: IsPeak(es, p, t.peaks.Of(p)))
    && (forall own :: IsFastest(es, own, t.fastest.Of(own)))
  }

  lemma CounterGrows(t: Totals, init: seq<Saved>, last: Saved, c: Counter)
    requires t.counters.Of(c) == Sum(init, CounterIn(c))
    ensures t.counters.Plus(last.match_.play.stats.counters).Of(c) == Sum(init + [last], CounterIn(c))
  {
    PlusAddsEach(t.counters, last.match_.play.stats.counters, c);
    assert (init + [last])[..|init|] == init;
  }

  lemma PeakGrows(t: Totals, init: seq<Saved>, last: Saved, p: Peak)
    requires IsPeak(init, p, t.peaks.Of(p))
    ensures IsPeak(init + [last], p, t.peaks.Raised(last.match_.play.stats.peaks).Of(p))
  {
    RaisesEach(t.peaks, last.match_.play.stats.peaks, p);
    assert last in init + [last];
    assert forall e | e in init :: e in init + [last];
  }

  lemma FastestGrows(t: Totals, init: seq<Saved>, last: Saved, own: bool)
    requires IsFastest(init, own, t.fastest.Of(own))
    ensures IsFastest(init + [last], own, t.fastest.Lowered(last.match_.play.stats.fastest).Of(own))
  {
    assert last in init + [last];
    assert forall e | e in init :: e in init + [last];
  }

  lemma CountsGrow(init: seq<Saved>, last: Saved)
    ensures Count(init + [last], Won) == Count(init, Won) + (if last.iWon then 1 else 0)
    ensures Count(init + [last], Lost) == Count(init, Lost) + (if last.iWon then 0 else 1)
    ensures Sum(init + [last], TeamGoalsIn) == Sum(init, TeamGoalsIn) + CountedTeamGoals(last.match_)
    ensures Sum(init + [last], ParticipationsIn) == Sum(init, ParticipationsIn) + CountedParticipations(last.match_)
  {
    hide CountedTeamGoals, CountedParticipations;
    assert (init + [last])[..|init|] == init;
  }

  lemma ParticipationsBounded(m: Captured)
    ensures 0 <= CountedParticipations(m) <= CountedTeamGoals(m)
  {
    hide TeamGoals;
  }

  lemma AddMatchGrows(book: Book, init: seq<Saved>, last: Saved)
    requires TotalsOf(book.totals, init)
    ensures TotalsOf(AddMatch(book, last.match_, last.iWon).totals, init + [last])
  {
    hide Count, Sum, CounterIn, IsPeak, IsFastest, CountedTeamGoals, CountedParticipations, CountsForMode;
    var t := book.totals;
    CountsGrow(init, last);
    ParticipationsBounded(last.match_);
    forall c ensures t.counters.Plus(last.match_.play.stats.counters).Of(c) == Sum(init + [last], CounterIn(c)) {
      CounterGrows(t, init, last, c);
    }
    forall p ensures IsPeak(init + [last], p, t.peaks.Raised(last.match_.play.stats.peaks).Of(p)) {
      PeakGrows(t, init, last, p);
    }
    forall own ensures IsFastest(init + [last], own, t.fastest.Lowered(last.match_.play.stats.fastest).Of(own)) {
      FastestGrows(t, init, last, own);
    }
  }

  lemma NothingCounted(c: Counter)
    ensures NO_TOTALS.counters.Of(c) == Sum([], CounterIn(c))
  {}

  lemma NothingPeaked(p: Peak)
    ensures IsPeak([], p, NO_TOTALS.peaks.Of(p))
  {}

  lemma NothingScored(own: bool)
    ensures IsFastest([], own, NO_TOTALS.fastest.Of(own))
  {}

  lemma NothingAdded()
    ensures Count([], Won) == 0 == Count([], Lost) && Sum([], TeamGoalsIn) == 0 == Sum([], ParticipationsIn)
  {}

  lemma NoMatchesNoTotals()
    ensures TotalsOf(NO_TOTALS, [])
  {
    hide Count, Sum, CounterIn, IsPeak, IsFastest;
    NothingAdded();
    forall c ensures NO_TOTALS.counters.Of(c) == Sum([], CounterIn(c)) {
      NothingCounted(c);
    }
    forall p ensures IsPeak([], p, NO_TOTALS.peaks.Of(p)) {
      NothingPeaked(p);
    }
    forall own ensures IsFastest([], own, NO_TOTALS.fastest.Of(own)) {
      NothingScored(own);
    }
  }

  /** Added up one by one, the totals are those of the matches. */
  lemma {:induction false} BookCounts(es: seq<Saved>)
    ensures TotalsOf(BookOf(es).totals, es)
  {
    hide TotalsOf, AddMatch;
    if es == [] {
      NoMatchesNoTotals();
    } else {
      var init, last := es[..|es| - 1], es[|es| - 1];
      BookCounts(init);
      AddMatchGrows(BookOf(init), init, last);
      assert es == init + [last];
    }
  }

  lemma AddMatchModes(book: Book, m: Captured, iWon: bool, mode: Mode)
    ensures StatOf(AddMatch(book, m, iWon), mode)
         == if CountsForMode(m) && m.mode == mode then Scored(StatOf(book, mode), iWon) else StatOf(book, mode)
  {
  }

  lemma {:induction false} BookCountsModes(es: seq<Saved>, mode: Mode)
    ensures var stat := StatOf(BookOf(es), mode);
      && stat.wins == Count(es, InMode(mode, true)) && stat.losses == Count(es, InMode(mode, false))
      && stat.total == stat.wins + stat.losses
  {
    if es != [] {
      BookCountsModes(es[..|es| - 1], mode);
      var last := es[|es| - 1];
      AddMatchModes(BookOf(es[..|es| - 1]), last.match_, last.iWon, mode);
    }
  }

  function ModeTotal(book: Book, mode: Mode): int {
    StatOf(book, mode).total
  }

  ghost function ModeTotals(book: Book): int {
    ModeTotal(book, Duel) + ModeTotal(book, Doubles) + ModeTotal(book, Standard)
    + ModeTotal(book, Hoops) + ModeTotal(book, Rumble) + ModeTotal(book, Dropshot)
    + ModeTotal(book, SnowDay) + ModeTotal(book, Heatseeker) + ModeTotal(book, TournamentMode)
  }

  lemma ModeTotalStep(book: Book, m: Captured, iWon: bool, mode: Mode)
    ensures ModeTotal(AddMatch(book, m, iWon), mode)
         == ModeTotal(book, mode) + (if CountsForMode(m) && m.mode == mode then 1 else 0)
  {
    AddMatchModes(book, m, iWon, mode);
  }

  ghost predicate CountsTowardsMode(e: Saved) { CountsForMode(e.match_) }

  lemma TotalsShift(before: Book, after: Book, mode: Mode, counts: bool)
    requires counts ==> IsTrackedCompetitive(mode)
    requires forall x :: ModeTotal(after, x) == ModeTotal(before, x) + (if counts && mode == x then 1 else 0)
    ensures ModeTotals(after) == ModeTotals(before) + (if counts then 1 else 0)
  {}

  lemma ModeTotalsStep(book: Book, m: Captured, iWon: bool)
    ensures ModeTotals(AddMatch(book, m, iWon)) == ModeTotals(book) + (if CountsForMode(m) then 1 else 0)
  {
    var after := AddMatch(book, m, iWon);
    forall x ensures ModeTotal(after, x) == ModeTotal(book, x) + (if CountsForMode(m) && m.mode == x then 1 else 0) {
      ModeTotalStep(book, m, iWon, x);
    }
    TotalsShift(book, after, m.mode, CountsForMode(m));
  }

  lemma OnlyTrackedModes(book: Book, m: Captured, iWon: bool, mode: Mode)
    requires mode in AddMatch(book, m, iWon).modes
    ensures mode in book.modes || IsTrackedCompetitive(mode)
  {
    hide CountedTeamGoals, CountedParticipations, HasAuthoritativeId;
  }

  lemma NoModes()
    ensures ModeTotals(NO_BOOK) == 0 && NO_BOOK.modes == map[]
  {}

  /** No match counts for two modes, and only tracked modes have an entry. */
  lemma {:induction false} ModesPartition(es: seq<Saved>)
    ensures ModeTotals(BookOf(es)) == Count(es, CountsTowardsMode) <= |es|
    ensures forall mode | mode in BookOf(es).modes :: IsTrackedCompetitive(mode)
  {
    hide AddMatch, ModeTotals, CountsForMode, IsTrackedCompetitive;
    if es == [] {
      NoModes();
    } else {
      var init, last := es[..|es| - 1], es[|es| - 1];
      ModesPartition(init);
      ModeTotalsStep(BookOf(init), last.match_, last.iWon);
      forall mode | mode in BookOf(es).modes ensures IsTrackedCompetitive(mode) {
        OnlyTrackedModes(BookOf(init), last.match_, last.iWon, mode);
      }
    }
  }

  // ---------------------------------------------------------------- the invariant

  ghost predicate RecapOk(recap: Recap, log: seq<Saved>) {
    var es := Of(log, recap.generation);
    recap.book == BookOf(es) && forall guid | guid in GuidsOf(es) :: guid in recap.guids
  }

  /** When a saved match ended, in whole seconds; 0 when unknown. */
  function EndedAt(e: Saved): int {
    if e.match_.endedAtMs > 0 then e.match_.endedAtMs / 1000 else 0
  }

  /** A session lasts from the earliest known end of its matches to the latest; 0 when none is known. */
  ghost predicate Lasts(es: seq<Saved>, first: int, last: int) {
    && first >= 0 && last >= 0
    && (forall e | e in es && EndedAt(e) > 0 :: 0 < first <= EndedAt(e) <= last)
    && (first > 0 ==> exists e :: e in es && EndedAt(e) == first)
    && (last > 0 ==> exists e :: e in es && EndedAt(e) == last)
  }

  ghost predicate Booked(st: State, log: seq<Saved>) {
    var current := Of(log, st.session.generation);
    && st.session.book == BookOf(current) && st.session.guids == GuidsOf(current)
    && Lasts(current, st.session.startedAt, st.session.lastEndedAt)
    && (forall i | 0 <= i < |log| :: log[i].match_.sessionGeneration <= st.session.generation)
    && (forall guid | guid in st.pending :: st.pending[guid].sessionGeneration <= st.session.generation)
    && (st.recap.Some? ==> st.recap.value.generation < st.session.generation && RecapOk(st.recap.value, log))
  }

  /** A step that leaves the books alone; what it parks belongs to the current session. */
  ghost predicate KeepsBooks(st: State, next: State) {
    && next.session == st.session && next.recap == st.recap
    && forall guid | guid in next.pending ::
         (guid in st.pending && next.pending[guid] == st.pending[guid])
         || next.pending[guid].sessionGeneration == st.session.generation
  }

  lemma SessionLasts(session: Session, m: Captured, e: Saved, es: seq<Saved>)
    requires e.match_ == m && Lasts(es, session.startedAt, session.lastEndedAt)
    ensures var next := AddToSession(session, m, e.iWon); Lasts(es + [e], next.startedAt, next.lastEndedAt)
  {
    hide AddMatch, WithGuid;
    var next := AddToSession(session, m, e.iWon);
    assert e in es + [e];
    assert forall x | x in es :: x in es + [e];
    assert EndedAt(e) == if m.endedAtMs > 0 then m.endedAtMs / 1000 else 0;
    hide EndedAt;
    if session.startedAt > 0 {
      var x :| x in es && EndedAt(x) == session.startedAt;
      assert x in es + [e];
    }
    if session.lastEndedAt > 0 {
      var x :| x in es && EndedAt(x) == session.lastEndedAt;
      assert x in es + [e];
    }
  }

  lemma SessionAbsorbs(session: Session, m: Captured, e: Saved, log: seq<Saved>)
    requires e.match_ == m && m.sessionGeneration == session.generation
    requires var es := Of(log, session.generation);
             && session.book == BookOf(es) && session.guids == GuidsOf(es)
             && Lasts(es, session.startedAt, session.lastEndedAt)
    requires m.guid != "" ==> m.guid !in GuidsOf(Of(log, session.generation))
    ensures var es := Of(log + [e], session.generation); var next := AddToSession(session, m, e.iWon);
      && next.book == BookOf(es) && next.guids == GuidsOf(es) && next.generation == session.generation
      && Lasts(es, next.startedAt, next.lastEndedAt)
  {
    OfSnoc(log, e, session.generation);
    SessionLasts(session, m, e, Of(log, session.generation));
    hide Lasts;
    BookSnoc(Of(log, session.generation), e);
    GuidsSnoc(Of(log, session.generation), e);
  }

  lemma RecapAbsorbs(recap: Recap, m: Captured, e: Saved, log: seq<Saved>)
    requires e.match_ == m && m.sessionGeneration == recap.generation && RecapOk(recap, log)
    ensures RecapOk(AddToRecap(recap, m, e.iWon), log + [e])
    ensures AddToRecap(recap, m, e.iWon).generation == recap.generation
  {
    OfSnoc(log, e, recap.generation);
    BookSnoc(Of(log, recap.generation), e);
    GuidsSnoc(Of(log, recap.generation), e);
  }

  lemma FinalizeIsBooked(st: State, m: Captured, winner: int, source: Source, enqueue: bool, fx: Effects,
                         log: seq<Saved>)
    requires Booked(st, log) && m.sessionGeneration <= st.session.generation && fx.save.None?
    requires forall i | 0 <= i < |log| :: Terminal(st.finalized, log[i].match_.guid)
    ensures var out := FinalizeCaptured(st, m, winner, source, enqueue, fx); Booked(out.st, Log(log, out.fx))
  {
    hide ClassifyMatchEnd, BuildRefresh, ResultShown, AddToSession, AddToRecap, GuidsOf, BookOf, Lasts;
    var out := FinalizeCaptured(st, m, winner, source, enqueue, fx);
    if out.fx.save.Some? {
      var e := out.fx.save.value;
      OfSnoc(log, e, st.session.generation);
      if m.sessionGeneration == st.session.generation {
        FreshGuid(log, m.sessionGeneration, m.guid, st.finalized);
        SessionAbsorbs(st.session, m, e, log);
      }
      if st.recap.Some? {
        OfSnoc(log, e, st.recap.value.generation);
        if CountsForRecap(st, m) { RecapAbsorbs(st.recap.value, m, e, log); }
      }
    }
  }

  /** A GUID that is not terminal is not among the saved ones. */
  lemma FreshGuid(log: seq<Saved>, generation: nat, guid: string, finalized: set<string>)
    requires forall i | 0 <= i < |log| :: Terminal(finalized, log[i].match_.guid)
    ensures guid != "" && guid !in finalized ==> guid !in GuidsOf(Of(log, generation))
  {
    GuidsMembers(Of(log, generation), guid);
    forall e | e in Of(log, generation) ensures e in log { OfMembers(log, generation, e); }
  }

  // ---------------------------------------------------------------- each step keeps it

  lemma KeepsBooksIsBooked(st: State, next: State, log: seq<Saved>)
    requires Booked(st, log) && KeepsBooks(st, next)
    ensures Booked(next, log)
  {
  }

  lemma FinalizeMatchIsBooked(st: State, winner: int, source: Source, nowUnixMs: int, log: seq<Saved>)
    requires Booked(st, log) && AllTerminal(st.finalized, log)
    ensures var out := FinalizeMatch(st, winner, source, nowUnixMs, NO_EFFECTS); Booked(out.st, Log(log, out.fx))
  {
    FinalizeIsBooked(st, Capture(st, nowUnixMs), winner, source, true, NO_EFFECTS, log);
  }

  ghost predicate AllTerminal(finalized: set<string>, log: seq<Saved>) {
    forall i | 0 <= i < |log| :: Terminal(finalized, log[i].match_.guid)
  }

  lemma ResolveByEndIsBooked(st: State, e: EndEvent, log: seq<Saved>)
    requires Booked(st, log) && AllTerminal(st.finalized, log) && e.guid in st.pending
    ensures var out := ResolveByEnd(st, e); Booked(out.st, Log(log, out.fx))
  {
    var parked := st.pending[e.guid];
    var m := parked.(play := WithScore(parked.play, e.scores));
    var forfeit := ForfeitSignal(e.forfeits, m.me.team) && e.winner != m.me.team;
    var rest := st.(pending := st.pending - {e.guid});
    KeepsBooksIsBooked(st, rest, log);
    FinalizeIsBooked(rest, m, e.winner, if forfeit then FromLocalForfeit else FromMatchEnded, false, NO_EFFECTS, log);
  }

  lemma MatchEndedIsBooked(st: State, e: EndEvent, nowUnixMs: int, log: seq<Saved>)
    requires Booked(st, log) && AllTerminal(st.finalized, log)
    ensures var out := MatchEnded(st, e, nowUnixMs); Booked(out.st, Log(log, out.fx))
  {
    hide FinalizeMatch, ResolveByEnd, Booked, AllTerminal, ForfeitSignal;
    if e.guid != "" && e.guid in st.pending {
      ResolveByEndIsBooked(st, e, log);
    } else {
      var st1 := AttachTerminalGuid(st, e.guid);
      var st2 := st1.(live := st1.live.(play := WithScore(st1.live.play, e.scores)));
      var forfeit := ForfeitSignal(e.forfeits, st2.live.me.team) && e.winner != st2.live.me.team;
      KeepsBooksIsBooked(st, st1, log);
      KeepsBooksIsBooked(st, st2, log);
      FinalizeMatchIsBooked(st2, e.winner, if forfeit then FromLocalForfeit else FromMatchEnded, nowUnixMs, log);
    }
  }

  lemma ConfirmIsBooked(st: State, guid: string, won: bool, log: seq<Saved>)
    requires Booked(st, log) && AllTerminal(st.finalized, log)
    ensures var out := Confirm(st, guid, won); Booked(out.st, Log(log, out.fx))
  {
    hide FinalizeCaptured;
    if guid in st.pending {
      var m := st.pending[guid];
      var winner := if IsTeam(m.me.team) then (if won then m.me.team else 1 - m.me.team) else -1;
      var rest := st.(pending := st.pending - {guid});
      KeepsBooksIsBooked(st, rest, log);
      FinalizeIsBooked(rest, m, winner, FromTracker, false, NO_EFFECTS, log);
    }
  }

  lemma ResolveWithoutWinnerIsBooked(st: State, nowUnixMs: int, log: seq<Saved>)
    requires Booked(st, log) && AllTerminal(st.finalized, log)
    ensures var out := ResolveWithoutWinner(st, nowUnixMs, NO_EFFECTS); Booked(out.st, Log(log, out.fx))
  {
    hide FinalizeMatch, MarkVoid, Park, Capture, BuildRefresh, EarlyExit, Booked, AllTerminal, ResolveWithoutWinner;
    var out := ResolveWithoutWinner(st, nowUnixMs, NO_EFFECTS);
    if EarlyExit(st.live).ValidExit? && st.live.me.forfeit {
      var winner := 1 - st.live.me.team;
      ForfeitIsFinalized(st, nowUnixMs);
      FinalizeMatchIsBooked(st, winner, FromLocalForfeit, nowUnixMs, log);
    } else {
      VoidOrParkKeepsBooks(st, nowUnixMs);
      VoidOrParkIsBooked(st, out, log);
    }
  }

  lemma ForfeitIsFinalized(st: State, nowUnixMs: int)
    requires EarlyExit(st.live).ValidExit? && st.live.me.forfeit
    ensures ResolveWithoutWinner(st, nowUnixMs, NO_EFFECTS)
         == FinalizeMatch(st, 1 - st.live.me.team, FromLocalForfeit, nowUnixMs, NO_EFFECTS)
  {
  }

  lemma VoidOrParkIsBooked(st: State, out: Out, log: seq<Saved>)
    requires Booked(st, log) && KeepsBooks(st, out.st) && out.fx.save.None?
    ensures Booked(out.st, Log(log, out.fx))
  {
    KeepsBooksIsBooked(st, out.st, log);
  }

  lemma VoidOrParkKeepsBooks(st: State, nowUnixMs: int)
    requires EarlyExit(st.live).InvalidExit? || !st.live.me.forfeit
    ensures var out := ResolveWithoutWinner(st, nowUnixMs, NO_EFFECTS); KeepsBooks(st, out.st) && out.fx.save.None?
  {
  }

  lemma MatchDestroyedIsBooked(st: State, e: DestroyEvent, nowUnixMs: int, log: seq<Saved>)
    requires Booked(st, log) && AllTerminal(st.finalized, log)
    ensures var out := MatchDestroyed(st, e, nowUnixMs); Booked(out.st, Log(log, out.fx))
  {
    hide Lasts, Of, BookOf, GuidsOf, RecapOk, EarlyExit, Capture, BuildRefresh, ForfeitSignal, Booked, AllTerminal;
    var st1 := AttachTerminalGuid(st, e.guid);
    KeepsBooksIsBooked(st, st1, log);
    var st2 := st1.(live := DestroySeen(st1.live, e));
    KeepsBooksIsBooked(st1, st2, log);
    if !DestroyIgnored(st1, e.guid) && st2.live.inMatch {
      var winner := e.winner.GetOr(-1);
      var out := ResolveDestroyed(st2, winner, nowUnixMs, NO_EFFECTS);
      if IsTeam(winner) {
        FinalizeMatchIsBooked(st2, winner, if st2.live.me.forfeit && winner != st2.live.me.team then FromLocalForfeit
                                           else FromMatchDestroyed, nowUnixMs, log);
      } else {
        ResolveWithoutWinnerIsBooked(st2, nowUnixMs, log);
      }
      KeepsBooksIsBooked(out.st, out.st.(live := LeaveMatch(out.st.live)), Log(log, out.fx));
    }
  }

  lemma ArenaKeepsBooks(st: State, name: string, asset: string, keepPlaylist: bool)
    ensures KeepsBooks(st, ArenaSeen(st, name, asset, keepPlaylist))
  {
  }

  lemma PlaylistKeepsBooks(st: State, id: int)
    ensures KeepsBooks(st, PlaylistSeen(st, id))
  {
  }

  lemma UpdateIsBooked(st: State, e: UpdateEvent, log: seq<Saved>)
    requires Booked(st, log)
    ensures Booked(UpdateSeen(st, e), log)
  {
    var st0 := UpdateFlags(st, e);
    var st1 := UpdateArena(st0, e);
    var st2 := UpdatePlaylist(st1, e);
    if e.arena.Some? {
      ArenaKeepsBooks(st0, e.arena.value.0, e.arena.value.1, e.playlistId.None?);
    }
    if e.playlistId.Some? {
      PlaylistKeepsBooks(st1, e.playlistId.value);
    }
    assert KeepsBooks(st0, st1) && KeepsBooks(st1, st2);
    KeepsBooksIsBooked(st, UpdateSeen(st, e), log);
  }

  lemma ClosedIsRecapped(st: State, historyGuids: seq<string>, account: string, log: seq<Saved>)
    requires Booked(st, log)
    ensures var s := st.session;
            RecapOk(Recap(s.book, WithGuids(s.guids, historyGuids), s.generation, account), log)
  {
    hide WithGuids, BookOf, GuidsOf, Of;
    WithGuidsKeeps(st.session.guids, historyGuids);
  }

  /** A new session starts from zero; what it replaces becomes the recap if anything was counted. */
  lemma NewSessionIsBooked(st: State, historyGuids: seq<string>, log: seq<Saved>)
    requires Booked(st, log)
    ensures Booked(StartNewSession(st, historyGuids), log)
  {
    hide WithGuids, RecapOk, Of;
    OfNone(log, st.session.generation + 1);
    ClosedIsRecapped(st, historyGuids, st.live.me.primaryId, log);
  }

  lemma {:induction false} WithGuidsKeeps(guids: seq<string>, more: seq<string>)
    ensures forall guid | guid in guids :: guid in WithGuids(guids, more)
    decreases |more|
  {
    if more != [] { WithGuidsKeeps(WithGuid(guids, more[0]), more[1..]); }
  }

  lemma StepIsBooked(st: State, e: Event, nowUnixMs: int, log: seq<Saved>)
    requires Booked(st, log) && AllTerminal(st.finalized, log)
    ensures var out := Step(st, e, nowUnixMs); Booked(out.st, Log(log, out.fx))
  {
    hide MatchEnded, MatchDestroyed, Confirm, UpdateSeen, StartNewSession, MatchCreated, ClearActive;
    hide Booked, AllTerminal;
    match e
    case OnMatchEnded(end) => MatchEndedIsBooked(st, end, nowUnixMs, log);
    case OnMatchDestroyed(destroy) => MatchDestroyedIsBooked(st, destroy, nowUnixMs, log);
    case ConfirmDestroyed(guid, won) => ConfirmIsBooked(st, guid, won, log);
    case OnUpdate(update) => UpdateIsBooked(st, update, log);
    case NewSession(historyGuids) => NewSessionIsBooked(st, historyGuids, log);
    case _ =>
      OtherEventsKeepBooks(st, e, nowUnixMs);
      KeepsBooksIsBooked(st, Step(st, e, nowUnixMs).st, log);
  }

  lemma OtherEventsKeepBooks(st: State, e: Event, nowUnixMs: int)
    requires !e.OnMatchEnded? && !e.OnMatchDestroyed? && !e.ConfirmDestroyed? && !e.OnUpdate? && !e.NewSession?
    ensures KeepsBooks(st, Step(st, e, nowUnixMs).st) && Step(st, e, nowUnixMs).fx.save.None?
  {
  }

  // ---------------------------------------------------------------- over whole runs

  lemma {:induction false} RunIsBooked(events: seq<Timed>)
    ensures var t := Run(events); Booked(t.st, t.log)
  {
    if events != [] {
      var before := Run(events[..|events| - 1]);
      RunIsBooked(events[..|events| - 1]);
      RunIsSafe(events[..|events| - 1]);
      forall i | 0 <= i < |before.log| ensures Terminal(before.st.finalized, before.log[i].match_.guid) {
        assert SavedOk(before.st, before.log[i].match_);
      }
      StepIsBooked(before.st, events[|events| - 1].event, events[|events| - 1].nowUnixMs, before.log);
    }
  }

  lemma {:induction false} GuidsDistinct(log: seq<Saved>, generation: nat)
    requires forall i, j | 0 <= i < j < |log| :: DifferentMatches(log[i].match_, log[j].match_)
    ensures var guids := GuidsOf(Of(log, generation));
            forall i, j | 0 <= i < j < |guids| :: guids[i] != guids[j]
  {
    if log != [] {
      var init := log[..|log| - 1];
      var last := log[|log| - 1];
      GuidsDistinct(init, generation);
      assert log == init + [last];
      OfSnoc(init, last, generation);
      var es := Of(init, generation);
      GuidsSnoc(es, last);
      GuidsMembers(es, last.match_.guid);
      forall e | e in es && e.match_.guid != "" ensures e.match_.guid != last.match_.guid {
        OfMembers(init, generation, e);
        var i :| 0 <= i < |init| && init[i] == e;
        assert DifferentMatches(log[i].match_, log[|log| - 1].match_);
      }
    }
  }

  /**
   The session shown to the player, in every reachable state: each total is the count, sum, maximum or
   minimum over the saved matches captured in this session, wins and losses add up to their number, no match
   counts for two modes, the session lasts from the earliest to the latest end of a match, and its GUIDs are
   those matches' GUIDs, each once.
   */
  lemma SessionIsExact(events: seq<Timed>)
    ensures var t := Run(events); var s := t.st.session; var es := Of(t.log, s.generation); var totals := s.book.totals;
      && TotalsOf(totals, es) && Lasts(es, s.startedAt, s.lastEndedAt)
      && ModeTotals(s.book) == Count(es, CountsTowardsMode) <= totals.wins + totals.losses
      && s.guids == GuidsOf(es) && (forall i, j | 0 <= i < j < |s.guids| :: s.guids[i] != s.guids[j])
      && (forall guid | guid in s.guids :: guid in t.st.finalized)
  {
    RunIsSafe(events);
    RunIsBooked(events);
    hide Run, Lasts, ModeTotals, BookOf, GuidsOf, CountsTowardsMode;
    var t := Run(events);
    var es := Of(t.log, t.st.session.generation);
    BookCounts(es);
    assert t.st.session.book.totals.wins + t.st.session.book.totals.losses == |es|;
    hide TotalsOf, Count;
    ModesPartition(es);
    GuidsDistinct(t.log, t.st.session.generation);
    forall guid | guid in t.st.session.guids ensures guid in t.st.finalized {
      GuidsMembers(es, guid);
      var e :| e in es && e.match_.guid == guid;
      OfMembers(t.log, t.st.session.generation, e);
      var i :| 0 <= i < |t.log| && t.log[i] == e;
      assert SavedOk(t.st, t.log[i].match_);
    }
  }

  lemma ModesAreExact(events: seq<Timed>, mode: Mode)
    ensures var t := Run(events); var es := Of(t.log, t.st.session.generation);
            var stat := StatOf(t.st.session.book, mode);
      && stat.wins == Count(es, InMode(mode, true)) && stat.losses == Count(es, InMode(mode, false))
      && stat.total == stat.wins + stat.losses
      && (mode in t.st.session.book.modes ==> IsTrackedCompetitive(mode))
  {
    RunIsBooked(events);
    var t := Run(events);
    BookCountsModes(Of(t.log, t.st.session.generation), mode);
    ModesPartition(Of(t.log, t.st.session.generation));
  }

  lemma RecapMeans(recap: Recap, log: seq<Saved>)
    requires RecapOk(recap, log)
    ensures var es := Of(log, recap.generation);
      TotalsOf(recap.book.totals, es) && forall e | e in es && e.match_.guid != "" :: e.match_.guid in recap.guids
  {
    hide TotalsOf, BookOf, GuidsOf, Of;
    var es := Of(log, recap.generation);
    BookCounts(es);
    forall e | e in es && e.match_.guid != "" ensures e.match_.guid in recap.guids {
      GuidsMembers(es, e.match_.guid);
    }
  }

  /** The recap is an earlier session, and counts every match of it saved so far, however late. */
  lemma RecapIsExact(events: seq<Timed>)
    requires Run(events).st.recap.Some?
    ensures var t := Run(events); var r := t.st.recap.value; var es := Of(t.log, r.generation);
      && r.generation < t.st.session.generation
      && TotalsOf(r.book.totals, es)
      && forall e | e in es && e.match_.guid != "" :: e.match_.guid in r.guids
  {
    RunIsBooked(events);
    hide Run, TotalsOf, RecapOk;
    var t := Run(events);
    RecapMeans(t.st.recap.value, t.log);
  }

  // ---------------------------------------------------------------- matches that enter no totals

  /** The session `m` was captured in is neither the current one nor the one the recap is of. */
  predicate Uncounted(st: State, m: Captured) {
    && m.sessionGeneration != st.session.generation
    && (st.recap.None? || st.recap.value.generation != m.sessionGeneration)
  }

  predicate KeepsTotals(st: State, next: State) {
    next.session.book == st.session.book && next.recap == st.recap
  }

  lemma AddMatchCounts(book: Book, m: Captured, iWon: bool)
    ensures AddMatch(book, m, iWon) != book
  {
    hide CountedTeamGoals, CountedParticipations, CountsForMode;
    var next := AddMatch(book, m, iWon).totals;
    assert next.wins + next.losses == book.totals.wins + book.totals.losses + 1;
  }

  lemma FinalizeCounts(st: State, m: Captured, winner: int, source: Source, enqueue: bool)
    ensures var out := FinalizeCaptured(st, m, winner, source, enqueue, NO_EFFECTS);
      out.fx.save.Some? ==>
        && out.fx.save.value.match_ == m
        && (KeepsTotals(st, out.st) <==> Uncounted(st, m))
  {
    hide ClassifyMatchEnd, AddMatch, BuildRefresh, ResultShown;
    var d := ClassifyMatchEnd(m, winner);
    AddMatchCounts(st.session.book, m, d.iWon);
    if st.recap.Some? { AddMatchCounts(st.recap.value.book, m, d.iWon); }
  }

  /** What a step that saves does to the totals, and whether the saved match was the live one. */
  ghost predicate SaveCounts(st: State, out: Out) {
    out.fx.save.Some? ==>
      var m := out.fx.save.value.match_;
      && (KeepsTotals(st, out.st) <==> Uncounted(st, m))
      && (m.sessionGeneration == st.session.generation
          || (m.guid in st.pending && st.pending[m.guid].sessionGeneration == m.sessionGeneration))
  }

  lemma FinalizeMatchCounts(st: State, winner: int, source: Source, nowUnixMs: int)
    ensures SaveCounts(st, FinalizeMatch(st, winner, source, nowUnixMs, NO_EFFECTS))
  {
    hide FinalizeCaptured, LiveMode;
    FinalizeCounts(st, Capture(st, nowUnixMs), winner, source, true);
  }

  lemma EndCounts(st: State, e: EndEvent, nowUnixMs: int)
    requires OwnGuids(st)
    ensures SaveCounts(st, MatchEnded(st, e, nowUnixMs))
  {
    hide FinalizeCaptured, FinalizeMatch, ForfeitSignal;
    if e.guid != "" && e.guid in st.pending {
      var parked := st.pending[e.guid];
      var m := parked.(play := WithScore(parked.play, e.scores));
      var forfeit := ForfeitSignal(e.forfeits, m.me.team) && e.winner != m.me.team;
      FinalizeCounts(st.(pending := st.pending - {e.guid}), m, e.winner,
                     if forfeit then FromLocalForfeit else FromMatchEnded, false);
    } else {
      var st1 := AttachTerminalGuid(st, e.guid);
      var st2 := st1.(live := st1.live.(play := WithScore(st1.live.play, e.scores)));
      var forfeit := ForfeitSignal(e.forfeits, st2.live.me.team) && e.winner != st2.live.me.team;
      FinalizeMatchCounts(st2, e.winner, if forfeit then FromLocalForfeit else FromMatchEnded, nowUnixMs);
    }
  }

  lemma DestroyCounts(st: State, e: DestroyEvent, nowUnixMs: int)
    ensures SaveCounts(st, MatchDestroyed(st, e, nowUnixMs))
  {
    hide FinalizeMatch, EarlyExit, Capture, BuildRefresh, ProvisionalSave, DestroySeen, DestroyIgnored, LeaveMatch;
    var st1 := AttachTerminalGuid(st, e.guid);
    var st2 := st1.(live := DestroySeen(st1.live, e));
    var winner := e.winner.GetOr(-1);
    if IsTeam(winner) {
      FinalizeMatchCounts(st2, winner, if st2.live.me.forfeit && winner != st2.live.me.team then FromLocalForfeit
                                       else FromMatchDestroyed, nowUnixMs);
    } else {
      FinalizeMatchCounts(st2, 1 - st2.live.me.team, FromLocalForfeit, nowUnixMs);
    }
  }

  lemma ConfirmCounts(st: State, guid: string, won: bool)
    requires OwnGuids(st)
    ensures SaveCounts(st, Confirm(st, guid, won))
  {
    hide FinalizeCaptured;
    if guid in st.pending {
      var m := st.pending[guid];
      var winner := if IsTeam(m.me.team) then (if won then m.me.team else 1 - m.me.team) else -1;
      FinalizeCounts(st.(pending := st.pending - {guid}), m, winner, FromTracker, false);
    }
  }

  lemma PendingIsOlder(events: seq<Timed>)
    ensures var st := Run(events).st;
            forall guid | guid in st.pending :: st.pending[guid].sessionGeneration <= st.session.generation
  {
    RunIsBooked(events);
  }

  /**
   In every reachable state: a match that is saved enters no totals if and only if the session it was
   captured in is over and the recap is not of it. Only a match that was parked can meet that.
   */
  lemma SavedIsCountedIff(events: seq<Timed>, e: Event, nowUnixMs: int)
    ensures var st := Run(events).st; var out := Step(st, e, nowUnixMs);
      out.fx.save.Some? ==>
        var m := out.fx.save.value.match_;
        && (KeepsTotals(st, out.st) <==> Uncounted(st, m))
        && (Uncounted(st, m) ==> m.guid in st.pending && m.sessionGeneration < st.session.generation)
  {
    hide MatchEnded, MatchDestroyed, Confirm, UpdateSeen, Run, OwnGuids;
    var st := Run(events).st;
    PendingIsOlder(events);
    RunOwnsGuids(events);
    match e
    case OnMatchEnded(end) => EndCounts(st, end, nowUnixMs);
    case OnMatchDestroyed(destroy) => DestroyCounts(st, destroy, nowUnixMs);
    case ConfirmDestroyed(guid, won) => ConfirmCounts(st, guid, won);
    case _ => OtherEventsKeepSets(st, e, nowUnixMs);
  }

  /**
   What closing a session does to the matches still parked: with results it gives up those of earlier
   sessions, whose recap it replaces; without results it gives up its own, for which it leaves no recap.
   */
  lemma NewSessionUncountsIff(events: seq<Timed>, historyGuids: seq<string>, guid: string)
    requires guid in Run(events).st.pending
    ensures var st := Run(events).st; var m := st.pending[guid]; var totals := st.session.book.totals;
      Uncounted(StartNewSession(st, historyGuids), m)
      <==> if totals.wins + totals.losses > 0 then m.sessionGeneration < st.session.generation
           else m.sessionGeneration == st.session.generation || Uncounted(st, m)
  {
    hide Run, WithGuids;
    PendingIsOlder(events);
    RecapIsOlder(events);
  }

  lemma RecapIsOlder(events: seq<Timed>)
    ensures var st := Run(events).st; st.recap.Some? ==> st.recap.value.generation < st.session.generation
  {
    RunIsBooked(events);
  }

  lemma ReachesNewSession(t: Trace)
    requires Reaches(t)
    ensures Reaches(t.(st := StartNewSession(t.st, [])))
  {
    hide StartNewSession, Reaches;
    ReachesNext(t, NewSession([]), 1);
  }

  /** A reachable state from which confirming the parked match `guid` saves it into no totals. */
  ghost predicate SavesUncounted(st: State, guid: string) {
    var out := Confirm(st, guid, true);
    out.fx.save.Some? && KeepsTotals(st, out.st)
  }

  lemma ConfirmingParkedIsUncounted(t: Trace, guid: string)
    requires Reaches(t) && guid in t.st.pending && guid !in t.st.finalized && Uncounted(t.st, t.st.pending[guid])
    ensures SavesUncounted(t.st, guid)
  {
    hide Confirm, Run, OwnGuids;
    var events :| Run(events) == t;
    ConfirmationSaves(events, guid, true);
    RunOwnsGuids(events);
    ConfirmCounts(t.st, guid, true);
  }

  /** One way: the match is parked, its session is closed without results, so without a recap, and it is confirmed. */
  lemma NoRecapLosesTheTotals()
    ensures exists t :: Reaches(t) && t.st.recap.None? && SavesUncounted(t.st, "a")
  {
    ReachesStart();
    var parked := SceneParked(START, "a");
    var t := parked.(st := StartNewSession(parked.st, []));
    ReachesNewSession(parked);
    ConfirmingParkedIsUncounted(t, "a");
  }

  /** The other: its session did leave a recap, but a later session with results has replaced that. */
  lemma ReplacedRecapLosesTheTotals()
    ensures exists t :: Reaches(t) && t.st.recap.Some? && SavesUncounted(t.st, "a")
  {
    var first := FirstSessionOver();
    var second := SceneWon(first, "c");
    var t := second.(st := StartNewSession(second.st, []));
    ReachesNewSession(second);
    ConfirmingParkedIsUncounted(t, "a");
  }

  /** "a" is parked, "b" is won, and the session is closed. */
  lemma FirstSessionOver() returns (t: Trace)
    ensures Reaches(t) && Idle(t.st) && t.st.session.generation == 1
    ensures t.st.session.book.totals.wins == 0 == t.st.session.book.totals.losses
    ensures t.st.recap.Some? && t.st.recap.value.generation == 0
    ensures t.st.pending.Keys == {"a"} && t.st.pending["a"].sessionGeneration == 0 && t.st.finalized == {"b"}
  {
    hide WithGuids;
    ReachesStart();
    var parked := SceneParked(START, "a");
    var won := SceneWon(parked, "b");
    ReachesNewSession(won);
    t := won.(st := StartNewSession(won.st, []));
  }
}
