/**
 What becomes of a match, field by field: when it is saved, for which winner and with which
 numbers, when it is voided or parked instead, and what is shown. Stated on the state before
 the event and on what the event says, for every state and event.
 */
module ReducerResults {
  import opened Options
  import opened Teams
  import opened Gamemodes
  import opened Playlists
  import opened SessionTypes
  import opened ReducerSpec
  import opened ReducerSafety
  import Reducer

  // ---------------------------------------------------------------- what allows a match to be saved

  /** The playlist, or without one what was told about the context, is recorded. */
  predicate ContextAllows(ctx: Context) {
    if ctx.playlistId == -1 then !ctx.nonRec
    else
      || InClass(ctx.playlistId, Casual) || InClass(ctx.playlistId, Ranked)
      || InClass(ctx.playlistId, Tournament) || InClass(ctx.playlistId, Other)
  }

  /** Without a playlist, both teams must once have been complete. */
  predicate LobbyAllows(ctx: Context, lobby: Lobby, mode: Mode) {
    var size := ExpectedTeamSize(mode);
    || ctx.playlistId != -1 || size == 0 || lobby.wasFull
    || (lobby.maxTeams.blue >= size && lobby.maxTeams.orange >= size)
  }

  predicate PlayAllows(me: LocalPlayer, roundEverStarted: bool, nonLiveReplay: bool) {
    (me.team == 0 || me.team == 1) && me.wasActive && roundEverStarted && !nonLiveReplay
  }

  predicate Recordable(live: Live) {
    && PlayAllows(live.me, live.roundEverStarted, live.nonLiveReplay)
    && ContextAllows(live.ctx) && LobbyAllows(live.ctx, live.lobby, LiveMode(live))
  }

  lemma ContextMeans(id: int)
    requires id != -1
    ensures HasAuthoritativeId(id)
    ensures IsKnown(id) && NonRecordableReason(id).None?
       <==> InClass(id, Casual) || InClass(id, Ranked) || InClass(id, Tournament) || InClass(id, Other)
    ensures NonRecordableReason(id).Some? ==> NonRecordableReason(id).value != NoReason
  {
    hide InClass;
    PlaylistClasses(id, Casual);
    PlaylistClasses(id, Ranked);
    PlaylistClasses(id, Tournament);
    PlaylistClasses(id, Other);
  }

  /** A match is saved exactly when a team won and nothing about it speaks against; the local team's win is ours. */
  lemma ClassifyMeans(m: Captured, winner: int)
    ensures var d := ClassifyMatchEnd(m, winner);
      && (d.persist <==> (winner == 0 || winner == 1) && PlayAllows(m.me, m.roundEverStarted, m.nonLiveReplay)
                         && ContextAllows(m.ctx) && LobbyAllows(m.ctx, m.lobby, m.mode))
      && (d.iWon <==> d.persist && winner == m.me.team)
      && (d.reason == NoReason <==> d.persist)
  {
    if m.ctx.playlistId != -1 { ContextMeans(m.ctx.playlistId); }
    hide Find, InClass, IsKnown, NonRecordableReason, ExpectedTeamSize;
  }

  /** Which of several objections is the reason shown: the first of these; none when nothing speaks against. */
  ghost predicate IsVoidReason(live: Live, mode: Mode, winner: int, r: Reason) {
    var team, id := live.me.team == 0 || live.me.team == 1, live.ctx.playlistId;
    if live.nonLiveReplay then r == NonLiveReplay
    else if !ContextAllows(live.ctx) then
      if id != -1 then
        Some(r) == (if InClass(id, NonRecordable) then NonRecordableReason(id) else Some(UnknownPlaylistId))
      else r == (if live.ctx.nonRecReason == NoReason then ExplicitNonCompetitiveContext else live.ctx.nonRecReason)
    else if winner != 0 && winner != 1 then r == InvalidWinner
    else if live.me.wasSpectator && (!team || (live.roundEverStarted && !live.me.wasActive)) then r == SpectatorBug
    else if !team then r == TeamUnknown
    else if !live.roundEverStarted then r == RoundNeverStarted
    else if !live.me.wasActive then r == NeverActive
    else r == if LobbyAllows(live.ctx, live.lobby, mode) then NoReason else LobbyNeverFull
  }

  lemma VoidReasons(m: Captured, live: Live, winner: int)
    requires m.nonLiveReplay == live.nonLiveReplay && m.roundEverStarted == live.roundEverStarted
    requires m.ctx == live.ctx && m.lobby == live.lobby && SameButForfeit(m.me, live.me)
    ensures IsVoidReason(live, m.mode, winner, ClassifyMatchEnd(m, winner).reason)
  {
    if m.ctx.playlistId != -1 {
      ContextMeans(m.ctx.playlistId);
      PlaylistClasses(m.ctx.playlistId, NonRecordable);
      PlaylistTable(m.ctx.playlistId);
    }
    hide Find, InClass, ExpectedTeamSize;
  }

  // ---------------------------------------------------------------- forfeits

  /** Said outright, or the local team is named as giving up, or, no team being named, the other one as the winner. */
  predicate SaysLocalGaveUp(scope: ForfeitScope, team: int) {
    || scope.local
    || (scope.forfeit && (team == 0 || team == 1) && scope.forfeitTeam == Some(team))
    || (scope.forfeit && scope.forfeitTeam != Some(0) && scope.forfeitTeam != Some(1)
        && ((team == 0 && scope.winner == Some(1)) || (team == 1 && scope.winner == Some(0))))
  }

  predicate GaveUp(live: Live, scopes: seq<ForfeitScope>) {
    live.me.forfeit || exists scope | scope in scopes :: SaysLocalGaveUp(scope, live.me.team)
  }

  lemma ForfeitMeans(live: Live, scopes: seq<ForfeitScope>)
    ensures ForfeitSignal(scopes, live.me.team)
       <==> exists scope | scope in scopes :: SaysLocalGaveUp(scope, live.me.team)
    ensures WithForfeit(live.me, scopes).forfeit <==> GaveUp(live, scopes)
  {
    forall scope ensures ScopeSignals(scope, live.me.team) <==> SaysLocalGaveUp(scope, live.me.team) {}
    hide ScopeSignals, SaysLocalGaveUp;
  }

  // ---------------------------------------------------------------- what is frozen of a match

  predicate SameButForfeit(me: LocalPlayer, before: LocalPlayer) {
    && me.primaryId == before.primaryId && me.team == before.team && me.wasActive == before.wasActive
    && me.wasSpectator == before.wasSpectator && me.observed == before.observed && me.present == before.present
  }

  /** The score told by the event, or else the last one seen, each team's its own. */
  predicate ScoreTaken(score: Score, before: Score, told: Option<Score>) {
    && (told.Some? ==> score.blue == told.value.blue && score.orange == told.value.orange)
    && (told.None? ==> score.blue == before.blue && score.orange == before.orange)
  }

  /** Everyone seen, as last seen: in the current roster or else in that of the whole match. */
  ghost predicate RosterTaken(roster: Roster, current: Roster, whole: Roster) {
    && roster.Keys == current.Keys + whole.Keys
    && (forall id | id in current :: roster[id] == current[id])
    && (forall id | id in whole && id !in current :: roster[id] == whole[id])
  }

  ghost predicate FrozenFrom(m: Captured, st: State, guid: string, told: Option<Score>, nowUnixMs: int) {
    && m.guid == guid && m.generation == st.live.generation && m.sessionGeneration == st.session.generation
    && m.roundEverStarted == st.live.roundEverStarted && m.nonLiveReplay == st.live.nonLiveReplay
    && (m.disappeared <==> st.live.me.observed && !st.live.me.present)
    && m.ctx == st.live.ctx && m.lobby == st.live.lobby && SameButForfeit(m.me, st.live.me)
    && ScoreTaken(m.play.score, st.live.play.score, told) && m.play.stats == st.live.play.stats
    && RosterTaken(m.play.roster, st.live.play.roster, st.live.play.matchRoster)
    && m.play.matchRoster == st.live.play.matchRoster
    && m.mode == LiveMode(st.live) && m.endedAtMs == nowUnixMs
  }

  lemma CaptureFreezes(st: State, nowUnixMs: int)
    ensures var m := Capture(st, nowUnixMs);
      && FrozenFrom(m, st, st.live.guid, None, nowUnixMs) && m.me == st.live.me
      && m.overtime == (if st.live.overtime.Some? then st.live.overtime.value else 0.0)
  {}

  /** `told` reaches the live match just before it is frozen, and changes no more than this. */
  ghost predicate Told(st: State, next: State, guid: string, told: Option<Score>) {
    && next.session == st.session && next.live.guid == guid
    && next.live.generation == st.live.generation && next.live.roundEverStarted == st.live.roundEverStarted
    && next.live.nonLiveReplay == st.live.nonLiveReplay && SameButForfeit(next.live.me, st.live.me)
    && next.live.ctx == st.live.ctx && next.live.lobby == st.live.lobby
    && ScoreTaken(next.live.play.score, st.live.play.score, told)
    && next.live.play.stats == st.live.play.stats && next.live.play.roster == st.live.play.roster
    && next.live.play.matchRoster == st.live.play.matchRoster
    && next.live.inMatch == st.live.inMatch && next.live.matchFinalized == st.live.matchFinalized
    && next.finalized == st.finalized && next.pending == st.pending
  }

  lemma ToldIsFrozen(st: State, next: State, guid: string, told: Option<Score>, nowUnixMs: int)
    requires Told(st, next, guid, told)
    ensures FrozenFrom(Capture(next, nowUnixMs), st, guid, told, nowUnixMs)
    ensures Recordable(next.live) <==> Recordable(st.live)
  {
    CaptureFreezes(next, nowUnixMs);
    assert LiveMode(next.live) == LiveMode(st.live);
    hide LiveMode, Capture, ContextAllows, LobbyAllows;
  }

  // ---------------------------------------------------------------- ending the live match

  /**
   Does an event that names `guid`, or none, decide about the match being played? It must name it, or be
   the first to name it after no reconnect, or name nothing while nothing else could be meant.
   */
  predicate DecidesLive(st: State, guid: string) {
    && st.live.inMatch && !st.live.matchFinalized
    && (|| (guid != "" && st.live.guid == guid)
        || (guid != "" && st.live.guid == "" && !st.live.blocked && guid !in st.finalized && guid !in st.pending)
        || (guid == "" && st.live.guid == "" && !st.live.blocked && st.pending == map[]))
  }

  predicate IsTerminal(st: State, guid: string) {
    guid != "" && guid in st.finalized
  }

  /** What the program shows about the match that just ended. */
  predicate Shows(result: Result, m: Captured, winner: int, persist: bool) {
    && (result.wasVoid <==> !persist) && (persist ==> result.reason == NoReason)
    && result.summary.score == m.play.score && result.summary.myTeam == m.me.team
    && result.summary.winner == winner && result.summary.overtime == m.overtime
  }

  /** The outcome of ending the live match `m` with `winner`; `persist` says whether it is saved. */
  ghost predicate Ends(out: Out, m: Captured, winner: int, persist: bool) {
    && (out.fx.save.Some? <==> persist)
    && (persist ==> out.fx.save.value.match_ == m && out.fx.save.value.winner == winner
                    && (out.fx.save.value.iWon <==> winner == m.me.team))
    && out.fx.parked.None? && out.fx.provisional.None? && out.fx.resolved.None?
    && Shows(out.st.live.result, m, winner, persist) && out.st.live.matchFinalized
    && (m.guid != "" ==> m.guid in out.st.finalized)
  }

  lemma FinalizeFollows(st: State, winner: int, source: Source, nowUnixMs: int)
    requires !st.live.matchFinalized && !IsTerminal(st, st.live.guid)
    ensures FinalizeMatch(st, winner, source, nowUnixMs, NO_EFFECTS)
         == FinalizeCaptured(st, Capture(st, nowUnixMs), winner, source, true, NO_EFFECTS)
  {
    hide FinalizeCaptured, Capture;
  }

  lemma CapturedEnds(st: State, m: Captured, winner: int, source: Source)
    requires !IsTerminal(st, m.guid) && IsCurrent(st.live, m)
    requires ClassifyMatchEnd(m, winner).persist ==>
               && ClassifyMatchEnd(m, winner).reason == NoReason
               && (ClassifyMatchEnd(m, winner).iWon <==> winner == m.me.team)
    ensures var out := FinalizeCaptured(st, m, winner, source, true, NO_EFFECTS);
      && Ends(out, m, winner, ClassifyMatchEnd(m, winner).persist)
      && out.st.live.result.reason == ClassifyMatchEnd(m, winner).reason
  {
    hide ClassifyMatchEnd, BuildRefresh, AddToSession, AddToRecap, CountsForRecap;
  }

  lemma FinalizeEnds(st: State, winner: int, source: Source, nowUnixMs: int)
    requires !st.live.matchFinalized && !IsTerminal(st, st.live.guid)
    ensures var out := FinalizeMatch(st, winner, source, nowUnixMs, NO_EFFECTS);
      && Ends(out, Capture(st, nowUnixMs), winner, (winner == 0 || winner == 1) && Recordable(st.live))
      && out.st.live.result.reason == ClassifyMatchEnd(Capture(st, nowUnixMs), winner).reason
  {
    hide FinalizeMatch, FinalizeCaptured, ClassifyMatchEnd, Ends, LiveMode;
    FinalizeFollows(st, winner, source, nowUnixMs);
    ClassifyMeans(Capture(st, nowUnixMs), winner);
    CapturedEnds(st, Capture(st, nowUnixMs), winner, source);
  }

  lemma FinalizeReason(st: State, winner: int, source: Source, nowUnixMs: int)
    requires !st.live.matchFinalized && !IsTerminal(st, st.live.guid)
    ensures var out := FinalizeMatch(st, winner, source, nowUnixMs, NO_EFFECTS);
            IsVoidReason(st.live, LiveMode(st.live), winner, out.st.live.result.reason)
  {
    hide FinalizeMatch, ClassifyMatchEnd, LiveMode, IsVoidReason, Ends;
    var m := Capture(st, nowUnixMs);
    FinalizeEnds(st, winner, source, nowUnixMs);
    VoidReasons(m, st.live, winner);
  }

  lemma FinalizeRefreshes(st: State, winner: int, source: Source, nowUnixMs: int)
    requires !st.live.matchFinalized && !IsTerminal(st, st.live.guid)
    ensures var out := FinalizeMatch(st, winner, source, nowUnixMs, NO_EFFECTS); var m := Capture(st, nowUnixMs);
      && (out.fx.refresh.Some? <==> out.fx.save.Some? && Refreshes(m))
      && (out.fx.refresh.Some? ==> RefreshOf(out.fx.refresh.value, m, winner == st.live.me.team)
                                   && (out.fx.refresh.value.immediate <==> source == FromLocalForfeit))
  {
    hide ClassifyMatchEnd, BuildRefresh, LiveMode, AddToSession, AddToRecap, ContextAllows, LobbyAllows, PlayAllows,
         Refreshes;
    var m := Capture(st, nowUnixMs);
    ClassifyMeans(m, winner);
    RefreshMeans(m, winner == m.me.team);
  }

  // ---------------------------------------------------------------- asking the tracker

  /** Can the tracker be asked what the match did to the local player's rating? */
  predicate Refreshes(m: Captured) {
    && m.guid != "" && m.me.primaryId != "" && m.me.primaryId in m.play.roster
    && (if m.ctx.playlistId == -1 then !m.ctx.casual && !m.ctx.nonRec && IsTrackedCompetitive(m.mode)
        else || InClass(m.ctx.playlistId, Casual)
             || ((InClass(m.ctx.playlistId, Ranked) || InClass(m.ctx.playlistId, Tournament))
                 && IsTrackedCompetitive(m.mode)))
  }

  predicate RefreshOf(r: Refresh, m: Captured, won: bool) {
    && r.primaryId == m.me.primaryId && r.guid == m.guid && r.won == won
    && (m.ctx.playlistId == -1 ==> r.playlist == m.mode)
    && (m.ctx.playlistId != -1 ==> Some(r.playlist) == CanonicalMode(m.ctx.playlistId))
  }

  lemma RefreshMeans(m: Captured, won: bool)
    ensures BuildRefresh(m, won).Some? <==> Refreshes(m)
    ensures BuildRefresh(m, won).Some? ==> RefreshOf(BuildRefresh(m, won).value, m, won)
                                           && !BuildRefresh(m, won).value.immediate
  {
    var id := m.ctx.playlistId;
    PlaylistTable(id);
    PlaylistClasses(id, Casual);
    PlaylistClasses(id, Ranked);
    PlaylistClasses(id, Tournament);
    PlaylistClasses(id, Other);
    PlaylistClasses(id, NonRecordable);
    assert MmrKey(id).Some? ==> MmrKey(id) == CanonicalMode(id);
    assert MmrKey(id).Some? <==> InClass(id, Casual) || InClass(id, Ranked) || InClass(id, Tournament);
    assert IsCasual(id) <==> InClass(id, Casual);
    hide InClass, Find, MmrKey, CanonicalMode, IsTrackedCompetitive, IsKnown, IsCasual;
  }

  // ---------------------------------------------------------------- the outcome in terms of the state before

  /**
   Saved exactly when a team won and nothing speaks against: for that winner, as our win if it is the live
   team, with the live match as it stood and the score the event told.
   */
  ghost predicate SavedAs(fx: Effects, st: State, guid: string, told: Option<Score>, winner: int, nowUnixMs: int) {
    && (fx.save.Some? <==> (winner == 0 || winner == 1) && Recordable(st.live))
    && (fx.save.Some? ==>
          && fx.save.value.winner == winner && (fx.save.value.iWon <==> winner == st.live.me.team)
          && FrozenFrom(fx.save.value.match_, st, guid, told, nowUnixMs))
    && fx.parked.None? && fx.provisional.None? && fx.resolved.None?
  }

  /** Over, its GUID terminal, and shown with its score and winner; void, and why, if it was not saved. */
  ghost predicate ShownAs(out: Out, st: State, guid: string, told: Option<Score>, winner: int) {
    && (out.st.live.result.wasVoid <==> out.fx.save.None?)
    && IsVoidReason(st.live, LiveMode(st.live), winner, out.st.live.result.reason)
    && ScoreTaken(out.st.live.result.summary.score, st.live.play.score, told)
    && out.st.live.result.summary.myTeam == st.live.me.team && out.st.live.result.summary.winner == winner
    && out.st.live.matchFinalized && (guid != "" ==> guid in out.st.finalized)
  }

  /** The tracker is asked about a saved match where it can be, at once if the local player gave a lost match up. */
  ghost predicate RefreshedAs(fx: Effects, winner: int, gaveUp: bool) {
    && (fx.refresh.Some? <==> fx.save.Some? && Refreshes(fx.save.value.match_))
    && (fx.refresh.Some? ==>
          && RefreshOf(fx.refresh.value, fx.save.value.match_, fx.save.value.iWon)
          && (fx.refresh.value.immediate <==> gaveUp && winner != fx.save.value.match_.me.team))
  }

  lemma ToldVoidReason(st: State, next: State, guid: string, told: Option<Score>, winner: int, reason: Reason)
    requires Told(st, next, guid, told) && IsVoidReason(next.live, LiveMode(next.live), winner, reason)
    ensures IsVoidReason(st.live, LiveMode(st.live), winner, reason)
  {
    hide ContextAllows, LobbyAllows, InClass, NonRecordableReason, ScoreTaken, InferMode;
    assert LiveMode(next.live) == LiveMode(st.live);
  }

  lemma FinalizeTold(st: State, next: State, guid: string, told: Option<Score>, winner: int, source: Source,
                     nowUnixMs: int)
    requires Told(st, next, guid, told) && !st.live.matchFinalized && !IsTerminal(st, guid)
    ensures var out := FinalizeMatch(next, winner, source, nowUnixMs, NO_EFFECTS);
      && SavedAs(out.fx, st, guid, told, winner, nowUnixMs) && ShownAs(out, st, guid, told, winner)
      && (out.fx.save.Some? ==> out.fx.save.value.match_ == Capture(next, nowUnixMs))
      && (winner != st.live.me.team || source != FromLocalForfeit ==>
            RefreshedAs(out.fx, winner, source == FromLocalForfeit))
  {
    hide IsVoidReason, LiveMode, FinalizeMatch, Capture, ClassifyMatchEnd, Recordable, Refreshes, RefreshOf,
         RosterTaken;
    ToldIsFrozen(st, next, guid, told, nowUnixMs);
    CaptureFreezes(next, nowUnixMs);
    FinalizeEnds(next, winner, source, nowUnixMs);
    FinalizeRefreshes(next, winner, source, nowUnixMs);
    FinalizeReason(next, winner, source, nowUnixMs);
    ToldVoidReason(st, next, guid, told, winner,
                   FinalizeMatch(next, winner, source, nowUnixMs, NO_EFFECTS).st.live.result.reason);
  }

  // ---------------------------------------------------------------- MatchEnded

  /** An event that decides about the match leaves it with its GUID. */
  lemma AttachNames(st: State, guid: string)
    requires DecidesLive(st, guid)
    ensures AttachTerminalGuid(st, guid) == st.(live := st.live.(guid := guid)) && st.live.inMatch
    ensures !DestroyIgnored(AttachTerminalGuid(st, guid), guid)
  {}

  /** Attaching a GUID the event names first, and reading its score, change nothing else that is frozen. */
  lemma EndIsTold(st: State, e: EndEvent)
    requires DecidesLive(st, e.guid)
    ensures var st1 := AttachTerminalGuid(st, e.guid);
      && EndsCurrent(st1, e)
      && Told(st, st1.(live := st1.live.(play := WithScore(st1.live.play, e.scores))), e.guid, e.scores)
  {}

  /** A MatchEnded that decides about the match in play ends it with the winner and the score it tells. */
  lemma EndedResult(st: State, e: EndEvent, nowUnixMs: int)
    requires DecidesLive(st, e.guid) && e.guid !in st.pending && !IsTerminal(st, e.guid)
    ensures var out := MatchEnded(st, e, nowUnixMs);
      && SavedAs(out.fx, st, e.guid, e.scores, e.winner, nowUnixMs) && ShownAs(out, st, e.guid, e.scores, e.winner)
      && RefreshedAs(out.fx, e.winner, exists scope | scope in e.forfeits :: SaysLocalGaveUp(scope, st.live.me.team))
      && (out.fx.save.Some? ==>
            && out.fx.save.value.match_.me == st.live.me
            && out.fx.save.value.match_.overtime
               == (if st.live.overtime.Some? then st.live.overtime.value else 0.0))
  {
    EndIsTold(st, e);
    var st1 := AttachTerminalGuid(st, e.guid);
    var next := st1.(live := st1.live.(play := WithScore(st1.live.play, e.scores)));
    assert next.live.me == st.live.me && next.live.overtime == st.live.overtime;
    CaptureFreezes(next, nowUnixMs);
    ForfeitMeans(st.live, e.forfeits);
    var forfeit := ForfeitSignal(e.forfeits, next.live.me.team) && e.winner != next.live.me.team;
    var source := if forfeit then FromLocalForfeit else FromMatchEnded;
    FinalizeTold(st, next, e.guid, e.scores, e.winner, source, nowUnixMs);
    assert MatchEnded(st, e, nowUnixMs) == FinalizeMatch(next, e.winner, source, nowUnixMs, NO_EFFECTS) by {
      hide FinalizeMatch, ForfeitSignal, WithScore;
    }
    hide MatchEnded, FinalizeMatch, Capture, Recordable, ForfeitSignal, AttachTerminalGuid, WithScore, Refreshes,
         RefreshOf;
  }

  /** One that decides about nothing changes nothing. */
  lemma EndIgnored(st: State, e: EndEvent, nowUnixMs: int)
    requires !DecidesLive(st, e.guid) && (e.guid == "" || e.guid !in st.pending)
    ensures MatchEnded(st, e, nowUnixMs) == Out(st, NO_EFFECTS)
  {
    hide FinalizeMatch;
  }

  // ---------------------------------------------------------------- MatchDestroyed

  lemma DestroyIsTold(st: State, e: DestroyEvent)
    requires DecidesLive(st, e.guid)
    ensures var st1 := AttachTerminalGuid(st, e.guid); var next := st1.(live := DestroySeen(st1.live, e));
      && !DestroyIgnored(st1, e.guid) && Told(st, next, e.guid, e.scores)
      && (next.live.me.forfeit <==> GaveUp(st.live, e.forfeits)) && next.live.overtime == None
  {
    hide AttachTerminalGuid, DecidesLive, DestroyIgnored, ForfeitSignal, GaveUp, SaysLocalGaveUp;
    ForfeitMeans(st.live, e.forfeits);
    AttachNames(st, e.guid);
  }

  /** Back in the menu: no match, arena or team, the result still shown. */
  predicate Leaves(live: Live, before: Live) {
    && !live.inMatch && !live.inReplay && !live.nonLiveReplay
    && live.ctx.arenaName == "" && live.ctx.arenaAsset == "" && live.me.team == -1
    && live.result == before.result && live.matchFinalized == before.matchFinalized
    && live.guid == before.guid && live.generation == before.generation
  }

  /** The state in which a destroyed match is resolved, before it is left. */
  ghost function Resolving(st: State, e: DestroyEvent): State {
    var st1 := AttachTerminalGuid(st, e.guid);
    st1.(live := DestroySeen(st1.live, e))
  }

  lemma DestroyResolves(st: State, e: DestroyEvent, nowUnixMs: int)
    requires DecidesLive(st, e.guid)
    ensures Told(st, Resolving(st, e), e.guid, e.scores)
    ensures Resolving(st, e).live.overtime == None && Resolving(st, e).recap == st.recap
    ensures Resolving(st, e).live.me.forfeit <==> GaveUp(st.live, e.forfeits)
    ensures var out := ResolveDestroyed(Resolving(st, e), e.winner.GetOr(-1), nowUnixMs, NO_EFFECTS);
            var left := MatchDestroyed(st, e, nowUnixMs);
      && left.fx == out.fx.(pushDiscord := true) && left.st == out.st.(live := left.st.live)
      && Leaves(left.st.live, out.st.live)
  {
    DestroyIsTold(st, e);
    hide ResolveDestroyed, DestroySeen, AttachTerminalGuid;
  }

  lemma WinnerFinalizes(st: State, w: int, nowUnixMs: int)
    requires !st.live.matchFinalized && (w == 0 || w == 1)
    ensures ResolveDestroyed(st, w, nowUnixMs, NO_EFFECTS)
         == FinalizeMatch(st, w, if st.live.me.forfeit && w != st.live.me.team then FromLocalForfeit
                                 else FromMatchDestroyed, nowUnixMs, NO_EFFECTS)
  {
    hide FinalizeMatch;
  }

  /** Destroyed with a winner: saved for that winner, exactly when nothing speaks against it. */
  lemma DestroyedWithWinner(st: State, e: DestroyEvent, w: int, nowUnixMs: int)
    requires DecidesLive(st, e.guid) && !IsTerminal(st, e.guid) && e.winner == Some(w) && (w == 0 || w == 1)
    ensures var out := MatchDestroyed(st, e, nowUnixMs);
      && SavedAs(out.fx, st, e.guid, e.scores, w, nowUnixMs) && ShownAs(out, st, e.guid, e.scores, w)
      && RefreshedAs(out.fx, w, GaveUp(st.live, e.forfeits))
      && (out.fx.save.Some? ==>
            && out.fx.save.value.match_.overtime == 0.0
            && (out.fx.save.value.match_.me.forfeit <==> GaveUp(st.live, e.forfeits)))
  {
    hide MatchDestroyed, ResolveDestroyed, FinalizeMatch, Capture, Recordable, Resolving, Refreshes, RefreshOf,
         FrozenFrom, GaveUp, ScoreTaken, IsVoidReason, LiveMode;
    DestroyResolves(st, e, nowUnixMs);
    var next := Resolving(st, e);
    CaptureFreezes(next, nowUnixMs);
    var source := if next.live.me.forfeit && w != next.live.me.team then FromLocalForfeit else FromMatchDestroyed;
    FinalizeTold(st, next, e.guid, e.scores, w, source, nowUnixMs);
    WinnerFinalizes(next, w, nowUnixMs);
  }

  /** What leaving a match early must not be held against it: the extra demands when no winner is known. */
  predicate ExitCounts(live: Live, guid: string) {
    && Recordable(live) && !live.me.wasSpectator && guid != "" && !live.ctx.excluded
    && IsTrackedRankedEarlyExit(LiveMode(live))
  }

  lemma ExitMeans(st: State, nowUnixMs: int)
    requires st.live.inMatch && !st.live.matchFinalized
    ensures EarlyExit(st.live).ValidExit? <==> ExitCounts(st.live, st.live.guid)
    ensures EarlyExit(st.live).ValidExit? ==> EarlyExit(st.live).mode == LiveMode(st.live)
  {
    hide ClassifyMatchEnd, LiveMode, ContextAllows, LobbyAllows, IsTrackedRankedEarlyExit, Capture;
    var team := if st.live.me.team == 1 then 1 else 0;
    ValidatorsAgree(st, nowUnixMs, team);
    ClassifyMeans(Capture(st, nowUnixMs), team);
    CaptureFreezes(st, nowUnixMs);
  }

  lemma ResolvingExit(st: State, next: State, guid: string, told: Option<Score>, nowUnixMs: int)
    requires Told(st, next, guid, told) && st.live.inMatch && !st.live.matchFinalized
    ensures EarlyExit(next.live).ValidExit? <==> ExitCounts(st.live, guid)
    ensures EarlyExit(next.live).ValidExit? ==> EarlyExit(next.live).mode == LiveMode(st.live)
  {
    ExitMeans(next, nowUnixMs);
    ToldIsFrozen(st, next, guid, told, nowUnixMs);
    assert LiveMode(next.live) == LiveMode(st.live);
    hide EarlyExit, Recordable, LiveMode, IsTrackedRankedEarlyExit, FrozenFrom, RosterTaken;
  }

  /** Why leaving the match does not count: the first of these that holds. */
  predicate IsReason(live: Live, guid: string, reason: Reason) {
    if live.nonLiveReplay then reason == NonLiveReplay
    else if live.me.wasSpectator then reason == SpectatorBug
    else if !live.roundEverStarted then reason == RoundNeverStarted
    else if !live.me.wasActive then reason == NeverActive
    else if live.me.team != 0 && live.me.team != 1 then reason == TeamUnknown
    else if guid == "" then reason == MissingGuid
    else if live.ctx.excluded && live.ctx.exclusionReason == NoReason then reason == ExplicitNonCompetitiveContext
    else if live.ctx.excluded then reason == live.ctx.exclusionReason
    else if !IsTrackedRankedEarlyExit(LiveMode(live)) then reason == Untracked
    else reason == LobbyNeverFull
  }

  lemma ExitReasons(live: Live)
    requires live.inMatch && !live.matchFinalized && EarlyExit(live).InvalidExit?
    ensures IsReason(live, live.guid, EarlyExit(live).reason)
  {
    if IsTrackedRankedEarlyExit(LiveMode(live)) {
      TrackedModeIsRecordable(live.ctx, live.lobby.maxPlayers, |live.play.roster|, live.ctx.category);
    }
    hide LiveMode, IsTrackedRankedEarlyExit, ExpectedTeamSize;
  }

  lemma ToldReason(st: State, next: State, guid: string, told: Option<Score>, reason: Reason)
    requires Told(st, next, guid, told) && IsReason(next.live, next.live.guid, reason)
    ensures IsReason(st.live, guid, reason)
  {
    assert LiveMode(next.live) == LiveMode(st.live);
    hide LiveMode, IsTrackedRankedEarlyExit, ScoreTaken;
  }

  predicate NoTeam(winner: Option<int>) {
    winner != Some(0) && winner != Some(1)
  }

  /** Destroyed without a winner after the local player gave up: the other team wins. */
  lemma DestroyedByForfeit(st: State, e: DestroyEvent, nowUnixMs: int)
    requires DecidesLive(st, e.guid) && !IsTerminal(st, e.guid) && NoTeam(e.winner)
    requires ExitCounts(st.live, e.guid) && GaveUp(st.live, e.forfeits)
    ensures var out := MatchDestroyed(st, e, nowUnixMs); var winner := if st.live.me.team == 0 then 1 else 0;
      && out.fx.save.Some? && !out.fx.save.value.iWon
      && SavedAs(out.fx, st, e.guid, e.scores, winner, nowUnixMs) && ShownAs(out, st, e.guid, e.scores, winner)
      && RefreshedAs(out.fx, winner, true)
  {
    hide MatchDestroyed, ResolveDestroyed, FinalizeMatch, Capture, Resolving, Refreshes, RefreshOf,
         FrozenFrom, GaveUp, ScoreTaken, EarlyExit, IsVoidReason, LiveMode, IsTrackedRankedEarlyExit;
    DestroyResolves(st, e, nowUnixMs);
    var next := Resolving(st, e);
    ResolvingExit(st, next, e.guid, e.scores, nowUnixMs);
    ForfeitFinalizes(next, e.winner, nowUnixMs);
    FinalizeTold(st, next, e.guid, e.scores, 1 - st.live.me.team, FromLocalForfeit, nowUnixMs);
  }

  lemma ForfeitFinalizes(st: State, winner: Option<int>, nowUnixMs: int)
    requires !st.live.matchFinalized && NoTeam(winner) && st.live.me.forfeit && EarlyExit(st.live).ValidExit?
    ensures ResolveDestroyed(st, winner.GetOr(-1), nowUnixMs, NO_EFFECTS)
         == FinalizeMatch(st, 1 - st.live.me.team, FromLocalForfeit, nowUnixMs, NO_EFFECTS)
  {
    hide FinalizeMatch, EarlyExit;
  }

  /** Nothing is saved, parked or asked; the match is over, terminal, and shown as void with the score told. */
  ghost predicate VoidedAs(out: Out, st: State, guid: string, told: Option<Score>) {
    && out.fx.save.None? && out.fx.parked.None? && out.fx.provisional.None? && out.fx.refresh.None?
    && out.st.pending == st.pending && out.st.session == st.session && out.st.recap == st.recap
    && out.st.finalized == (if guid == "" then st.finalized else st.finalized + {guid})
    && out.st.live.matchFinalized && out.st.live.result.wasVoid
    && ScoreTaken(out.st.live.result.summary.score, st.live.play.score, told)
    && out.st.live.result.summary.myTeam == st.live.me.team
    && out.st.live.result.summary.winner == -1 && out.st.live.result.summary.overtime == 0.0
  }

  lemma MarkVoidShows(st: State, next: State, guid: string, told: Option<Score>, reason: Reason)
    requires Told(st, next, guid, told) && next.recap == st.recap
    ensures VoidedAs(MarkVoid(next, reason, NO_EFFECTS), st, guid, told)
    ensures MarkVoid(next, reason, NO_EFFECTS).st.live.result.reason == reason
  {}

  /** Destroyed without a winner when the exit does not count: void. */
  lemma DestroyedIsVoid(st: State, e: DestroyEvent, nowUnixMs: int)
    requires DecidesLive(st, e.guid) && NoTeam(e.winner) && !ExitCounts(st.live, e.guid)
    ensures var out := MatchDestroyed(st, e, nowUnixMs);
            VoidedAs(out, st, e.guid, e.scores) && IsReason(st.live, e.guid, out.st.live.result.reason)
  {
    DestroyResolves(st, e, nowUnixMs);
    var next := Resolving(st, e);
    ResolvingExit(st, next, e.guid, e.scores, nowUnixMs);
    ExitReasons(next.live);
    ToldReason(st, next, e.guid, e.scores, EarlyExit(next.live).reason);
    MarkVoidShows(st, next, e.guid, e.scores, EarlyExit(next.live).reason);
    assert ResolveDestroyed(next, e.winner.GetOr(-1), nowUnixMs, NO_EFFECTS)
        == MarkVoid(next, EarlyExit(next.live).reason, NO_EFFECTS) by {
      hide MarkVoid, EarlyExit;
    }
    hide MatchDestroyed, ResolveDestroyed, MarkVoid, Resolving, EarlyExit, GaveUp, ScoreTaken, ExitCounts, IsReason;
  }

  /** The match kept for the tracker is the live one, and what is asked and shown meanwhile is about it. */
  ghost predicate ParkedAs(out: Out, st: State, e: DestroyEvent, nowUnixMs: int) {
    && out.fx.save.None? && out.fx.refresh.None? && out.fx.parked.Some?
    && out.st.finalized == st.finalized && out.st.session == st.session && out.st.recap == st.recap
    && e.guid in out.st.pending && (e.guid in st.pending ==> out.st.pending == st.pending)
    && (e.guid !in st.pending ==>
          && out.st.pending - {e.guid} == st.pending && out.st.pending[e.guid].overtime == 0.0
          && FrozenFrom(out.st.pending[e.guid], st, e.guid, e.scores, nowUnixMs))
    && out.fx.parked.value.primaryId == st.live.me.primaryId && out.fx.parked.value.guid == e.guid
    && out.fx.parked.value.playlist == LiveMode(st.live)
    && out.st.live.result.wasVoid && out.st.live.result.reason == PendingTracker
    && ScoreTaken(out.st.live.result.summary.score, st.live.play.score, e.scores)
    && out.st.live.result.summary.myTeam == st.live.me.team && out.st.live.result.summary.winner == -1
  }

  /** Until the tracker answers the match shows as won only if the local team leads and its player stayed. */
  ghost predicate ProvisionalAs(fx: Effects, st: State, e: DestroyEvent, nowUnixMs: int) {
    var live := st.live;
    var score := if e.scores.Some? then e.scores.value else live.play.score;
    var gone := live.me.observed && !live.me.present;
    var leads := if live.me.team == 0 then score.blue > score.orange else score.orange > score.blue;
    && (fx.provisional.Some? <==> gone || score.blue != score.orange)
    && (fx.provisional.Some? ==>
          && (fx.provisional.value.iWon <==> leads && !gone)
          && (fx.provisional.value.winner == live.me.team <==> leads && !gone)
          && IsTeam(fx.provisional.value.winner)
          && FrozenFrom(fx.provisional.value.match_, st, e.guid, e.scores, nowUnixMs))
  }

  /** The tracker can be asked about the local player of a match that counts when it is left. */
  predicate TrackerKnows(live: Live) {
    live.me.primaryId != "" && (live.me.primaryId in live.play.roster || live.me.primaryId in live.play.matchRoster)
  }

  lemma ExitIsTracked(live: Live)
    requires IsTrackedRankedEarlyExit(LiveMode(live))
    ensures IsTrackedCompetitive(LiveMode(live))
    ensures if live.ctx.playlistId == -1 then !live.ctx.casual && !live.ctx.nonRec
            else InClass(live.ctx.playlistId, Ranked)
  {
    var id := live.ctx.playlistId;
    TrackedModeIsRecordable(live.ctx, live.lobby.maxPlayers, |live.play.roster|, live.ctx.category);
    if id != -1 {
      assert LiveMode(live) == CanonicalMode(id).value;
      PlaylistTable(id);
      PlaylistClasses(id, Ranked);
    }
    hide Find, InClass, InferMode, CanonicalMode;
  }

  lemma ParkAsks(st: State, next: State, guid: string, told: Option<Score>, nowUnixMs: int)
    requires Told(st, next, guid, told)
    requires guid != "" && TrackerKnows(st.live) && IsTrackedRankedEarlyExit(LiveMode(st.live))
    ensures var refresh := BuildRefresh(Capture(next, nowUnixMs), false);
      && refresh.Some? && refresh.value.playlist == LiveMode(st.live)
      && refresh.value.primaryId == st.live.me.primaryId && refresh.value.guid == guid
  {
    var m := Capture(next, nowUnixMs);
    ToldIsFrozen(st, next, guid, told, nowUnixMs);
    RefreshMeans(m, false);
    ExitIsTracked(st.live);
    assert st.live.ctx.playlistId != -1 ==> Some(LiveMode(st.live)) == CanonicalMode(st.live.ctx.playlistId);
    hide Capture, BuildRefresh, LiveMode, InClass, IsTrackedCompetitive, IsTrackedRankedEarlyExit, CanonicalMode,
         Recordable;
  }

  lemma ToldMode(st: State, next: State, guid: string, told: Option<Score>)
    requires Told(st, next, guid, told)
    ensures LiveMode(next.live) == LiveMode(st.live)
  {
    hide InferMode;
  }

  lemma ParkEffects(st: State, m: Captured, refresh: Refresh)
    ensures var out := Park(st, m, refresh, NO_EFFECTS);
            out.fx.provisional == ProvisionalSave(m) && out.fx.parked == Some(refresh)
  {
    hide ProvisionalSave;
  }

  lemma ParkShows(st: State, next: State, e: DestroyEvent, m: Captured, refresh: Refresh, nowUnixMs: int)
    requires Told(st, next, e.guid, e.scores) && next.recap == st.recap
    requires FrozenFrom(m, st, e.guid, e.scores, nowUnixMs) && m.overtime == 0.0
    requires refresh.primaryId == st.live.me.primaryId && refresh.guid == e.guid
    requires refresh.playlist == LiveMode(st.live)
    ensures ParkedAs(Park(next, m, refresh, NO_EFFECTS), st, e, nowUnixMs)
  {
    hide ProvisionalSave, RosterTaken, LiveMode;
  }

  lemma ParkedIsLeft(out: Out, left: Out, st: State, e: DestroyEvent, nowUnixMs: int)
    requires ParkedAs(out, st, e, nowUnixMs)
    requires left.fx == out.fx.(pushDiscord := true) && left.st == out.st.(live := left.st.live)
    requires left.st.live.result == out.st.live.result
    ensures ParkedAs(left, st, e, nowUnixMs)
  {
    hide FrozenFrom, ScoreTaken;
  }

  /** Shown meanwhile: who would win by the score told, the local team losing if its player is gone. */
  lemma ParkIsProvisional(st: State, next: State, e: DestroyEvent, nowUnixMs: int)
    requires Told(st, next, e.guid, e.scores) && Recordable(st.live)
    ensures ProvisionalAs(NO_EFFECTS.(provisional := ProvisionalSave(Capture(next, nowUnixMs))), st, e, nowUnixMs)
  {
    hide Capture, ClassifyMatchEnd, LiveMode, ContextAllows, LobbyAllows, RosterTaken;
    var m := Capture(next, nowUnixMs);
    ToldIsFrozen(st, next, e.guid, e.scores, nowUnixMs);
    CaptureFreezes(next, nowUnixMs);
    ClassifyMeans(m, 0);
    ClassifyMeans(m, 1);
  }

  lemma ResolvingParks(st: State, next: State, e: DestroyEvent, nowUnixMs: int)
    requires Told(st, next, e.guid, e.scores) && !st.live.matchFinalized && NoTeam(e.winner) && !next.live.me.forfeit
    requires EarlyExit(next.live) == ValidExit(LiveMode(next.live))
    requires BuildRefresh(Capture(next, nowUnixMs), false).Some?
    ensures ResolveDestroyed(next, e.winner.GetOr(-1), nowUnixMs, NO_EFFECTS)
         == Park(next, Capture(next, nowUnixMs), BuildRefresh(Capture(next, nowUnixMs), false).value, NO_EFFECTS)
  {
    assert Capture(next, nowUnixMs).(mode := LiveMode(next.live)) == Capture(next, nowUnixMs);
    hide Park, EarlyExit, Capture, BuildRefresh, LiveMode;
  }

  lemma ResolvedParks(st: State, next: State, e: DestroyEvent, nowUnixMs: int)
    requires Told(st, next, e.guid, e.scores) && DecidesLive(st, e.guid) && NoTeam(e.winner)
    requires next.recap == st.recap && next.live.overtime == None && !next.live.me.forfeit
    requires ExitCounts(st.live, e.guid) && TrackerKnows(st.live)
    ensures var out := ResolveDestroyed(next, e.winner.GetOr(-1), nowUnixMs, NO_EFFECTS);
      && ParkedAs(out, st, e, nowUnixMs) && ProvisionalAs(out.fx, st, e, nowUnixMs)
  {
    hide ResolveDestroyed, Park, EarlyExit, ScoreTaken, Capture, BuildRefresh, ProvisionalSave, FrozenFrom, LiveMode,
         TrackerKnows, ParkedAs, Recordable;
    var m := Capture(next, nowUnixMs);
    ResolvingExit(st, next, e.guid, e.scores, nowUnixMs);
    CaptureFreezes(next, nowUnixMs);
    ToldIsFrozen(st, next, e.guid, e.scores, nowUnixMs);
    ParkAsks(st, next, e.guid, e.scores, nowUnixMs);
    ParkIsProvisional(st, next, e, nowUnixMs);
    ToldMode(st, next, e.guid, e.scores);
    ResolvingParks(st, next, e, nowUnixMs);
    var refresh := BuildRefresh(m, false).value;
    ParkShows(st, next, e, m, refresh, nowUnixMs);
    ParkEffects(next, m, refresh);
  }

  /** Destroyed without a winner when the exit counts and nobody gave up: parked, if the tracker can be asked. */
  lemma DestroyedIsParked(st: State, e: DestroyEvent, nowUnixMs: int)
    requires DecidesLive(st, e.guid) && NoTeam(e.winner) && ExitCounts(st.live, e.guid)
    requires !GaveUp(st.live, e.forfeits) && TrackerKnows(st.live)
    ensures var out := MatchDestroyed(st, e, nowUnixMs);
      && ParkedAs(out, st, e, nowUnixMs) && ProvisionalAs(out.fx, st, e, nowUnixMs)
  {
    hide MatchDestroyed, ResolveDestroyed, Resolving, GaveUp, ScoreTaken, ExitCounts, FrozenFrom, LiveMode,
         TrackerKnows, ParkedAs, Told, DecidesLive;
    DestroyResolves(st, e, nowUnixMs);
    var next := Resolving(st, e);
    ResolvedParks(st, next, e, nowUnixMs);
    var out := ResolveDestroyed(next, e.winner.GetOr(-1), nowUnixMs, NO_EFFECTS);
    ParkedIsLeft(out, MatchDestroyed(st, e, nowUnixMs), st, e, nowUnixMs);
  }

  /** Or else void for want of an identity. */
  lemma DestroyedWithoutIdentity(st: State, e: DestroyEvent, nowUnixMs: int)
    requires DecidesLive(st, e.guid) && NoTeam(e.winner) && ExitCounts(st.live, e.guid)
    requires !GaveUp(st.live, e.forfeits) && !TrackerKnows(st.live)
    ensures var out := MatchDestroyed(st, e, nowUnixMs);
            VoidedAs(out, st, e.guid, e.scores) && out.st.live.result.reason == MissingTrackerIdentity
  {
    DestroyResolves(st, e, nowUnixMs);
    var next := Resolving(st, e);
    ResolvingExit(st, next, e.guid, e.scores, nowUnixMs);
    var m := Capture(next, nowUnixMs).(mode := LiveMode(st.live));
    CaptureFreezes(next, nowUnixMs);
    ToldIsFrozen(st, next, e.guid, e.scores, nowUnixMs);
    RefreshMeans(m, false);
    assert m.me.primaryId == "" || m.me.primaryId !in m.play.roster;
    assert BuildRefresh(m, false).None?;
    MarkVoidShows(st, next, e.guid, e.scores, MissingTrackerIdentity);
    assert ResolveDestroyed(next, e.winner.GetOr(-1), nowUnixMs, NO_EFFECTS)
        == MarkVoid(next, MissingTrackerIdentity, NO_EFFECTS) by {
      hide MarkVoid, EarlyExit, Capture, BuildRefresh, LiveMode, Resolving;
    }
    hide MatchDestroyed, ResolveDestroyed, MarkVoid, Resolving, EarlyExit, GaveUp, ScoreTaken, ExitCounts, Capture,
         BuildRefresh, FrozenFrom, LiveMode, TrackerKnows, Refreshes;
  }

  /** One that does not decide about an open match changes nothing; a match that is over is only left. */
  lemma DestroyedOtherwise(st: State, e: DestroyEvent, nowUnixMs: int)
    requires st.live.inMatch
    ensures var out := MatchDestroyed(st, e, nowUnixMs);
      && (!st.live.matchFinalized && !DecidesLive(st, e.guid) ==> out == Out(st, NO_EFFECTS))
      && (st.live.matchFinalized ==>
            && out.fx == NO_EFFECTS.(pushDiscord := out.fx.pushDiscord)
            && out.st == st.(live := out.st.live) && out.st.live.result == st.live.result
            && (!out.st.live.inMatch <==> if e.guid != "" then e.guid == st.live.guid
                                          else st.live.guid == "" && !st.live.blocked && st.pending == map[]))
  {
    hide ForfeitSignal, FinalizeMatch, ResolveWithoutWinner;
  }

  // ---------------------------------------------------------------- what a saved match adds to the totals

  /** `ids` lists the players of a roster, each once. */
  ghost predicate Lists(ids: seq<string>, roster: Roster) {
    && (forall id :: id in ids <==> id in roster)
    && forall i, j | 0 <= i < j < |ids| :: ids[i] != ids[j]
  }

  /** The goals the listed players of a team scored. */
  function GoalsOf(ids: seq<string>, roster: Roster, team: int): int {
    if ids == [] then 0
    else
      var own := ids[0] in roster && roster[ids[0]].team == team;
      (if own then roster[ids[0]].goals else 0) + GoalsOf(ids[1..], roster, team)
  }

  lemma {:induction false} GoalsWithout(ids: seq<string>, roster: Roster, team: int, id: string)
    requires id !in ids
    ensures GoalsOf(ids, roster, team) == GoalsOf(ids, roster - {id}, team)
  {
    if ids != [] { GoalsWithout(ids[1..], roster, team, id); }
  }

  lemma {:induction false} RosterGoalsAdd(ids: seq<string>, roster: Roster, team: int)
    requires Lists(ids, roster)
    ensures RosterGoals(roster, team) == GoalsOf(ids, roster, team)
  {
    if ids == [] {
      assert roster == map[];
    } else {
      var first, others, rest := ids[0], ids[1..], roster - {ids[0]};
      assert ids == [first] + others;
      assert forall id :: id in others <==> id in rest;
      Reducer.RosterGoalsAnyKey(roster, team, first);
      RosterGoalsAdd(others, rest, team);
      GoalsWithout(others, roster, team, first);
    }
  }

  /** The score of the local team, and when that is not positive also what the roster says its players scored. */
  lemma TeamGoalsMeans(m: Captured, ids: seq<string>)
    requires Lists(ids, m.play.roster)
    ensures m.me.team == 0 ==>
      TeamGoals(m) == m.play.score.blue + if m.play.score.blue > 0 then 0 else GoalsOf(ids, m.play.roster, 0)
    ensures m.me.team == 1 ==>
      TeamGoals(m) == m.play.score.orange + if m.play.score.orange > 0 then 0 else GoalsOf(ids, m.play.roster, 1)
    ensures m.me.team != 0 && m.me.team != 1 ==> TeamGoals(m) == GoalsOf(ids, m.play.roster, m.me.team)
  {
    hide RosterGoals, GoalsOf;
    RosterGoalsAdd(ids, m.play.roster, m.me.team);
  }

  /** A duel has no team; else these goals count, and the player's own goals and assists as far as they reach. */
  lemma TeamPlayMeans(m: Captured)
    ensures var team := TeamGoals(m); var own := m.play.stats.counters.goals + m.play.stats.counters.assists;
      && (m.mode == Duel ==> CountedTeamGoals(m) == 0 == CountedParticipations(m))
      && (m.mode != Duel ==>
            && (team >= 0 ==> CountedTeamGoals(m) == team) && (team < 0 ==> CountedTeamGoals(m) == 0)
            && (own <= 0 || team <= 0 ==> CountedParticipations(m) == 0)
            && (0 < own <= team ==> CountedParticipations(m) == own)
            && (0 < team < own ==> CountedParticipations(m) == team))
  {
    hide TeamGoals;
  }

  /** A match counts for its mode if the mode is tracked and the match neither casual nor told to be unrecorded. */
  lemma CountsForModeMeans(m: Captured)
    ensures CountsForMode(m) <==>
      && IsTrackedCompetitive(m.mode)
      && (if m.ctx.playlistId == -1 then !m.ctx.casual && !m.ctx.nonRec else !InClass(m.ctx.playlistId, Casual))
  {
    PlaylistClasses(m.ctx.playlistId, Casual);
    assert !InClass(-1, Casual);
    hide Find, InClass, IsTrackedCompetitive;
  }
}
