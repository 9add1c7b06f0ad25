/**
 The values the match reducer works on (src/core/state/MatchState.hpp) and, as
 functions on those values, what each of its handlers computes. The class in
 Reducer.dfy is the imperative form and is proved to agree with these functions;
 the lemmas of the other reducer files are about them.
 */
module ReducerSpec {
  import opened Options
  import opened Teams
  import opened Gamemodes
  import opened Playlists
  import opened SessionTypes

  datatype Score = Score(blue: int, orange: int) {
    function Of(team: int): int {
      if team == 0 then blue else orange
    }
  }

  datatype Player = Player(team: int, goals: int)
  type Roster = map<string, Player>

  datatype ForfeitScope = ForfeitScope(local: bool, forfeit: bool, forfeitTeam: Option<int>, winner: Option<int>)

  datatype Summary = Summary(score: Score, myTeam: int, winner: int, overtime: real)

  // The fields of the match state, grouped by what they are about.

  datatype Context = Context(arenaName: string, arenaAsset: string, playlistId: int, category: Category,
                             casual: bool, nonRec: bool, nonRecReason: Reason,
                             excluded: bool, exclusionReason: Reason)

  datatype LocalPlayer = LocalPlayer(primaryId: string, team: int, wasActive: bool, wasSpectator: bool,
                                     observed: bool, present: bool, forfeit: bool)

  datatype Lobby = Lobby(maxPlayers: int, maxTeams: Score, wasFull: bool)

  datatype Play = Play(score: Score, stats: Stats, roster: Roster, matchRoster: Roster)

  datatype Result = Result(wasVoid: bool, reason: Reason, summary: Summary)

  /** The match being played, or last played. */
  datatype Live = Live(
    inMatch: bool, inReplay: bool, nonLiveReplay: bool, guid: string, generation: nat,
    matchFinalized: bool, blocked: bool, roundEverStarted: bool,
    ctx: Context, me: LocalPlayer, lobby: Lobby, play: Play, result: Result, overtime: Option<real>)

  /** A match frozen at the moment it ended or was destroyed. `play.roster` is the merged roster. */
  datatype Captured = Captured(
    guid: string, generation: nat, sessionGeneration: nat, roundEverStarted: bool, nonLiveReplay: bool,
    disappeared: bool, ctx: Context, me: LocalPlayer, lobby: Lobby, play: Play,
    mode: Mode, overtime: real, endedAtMs: int)

  datatype ModeStat = ModeStat(wins: int, losses: int, total: int)

  datatype Book = Book(totals: Totals, modes: map<Mode, ModeStat>)

  datatype Session = Session(book: Book, guids: seq<string>, generation: nat, startedAt: int, lastEndedAt: int)

  datatype Recap = Recap(book: Book, guids: seq<string>, generation: nat, account: string)

  datatype State = State(live: Live, session: Session, recap: Option<Recap>,
                         pending: map<string, Captured>, finalized: set<string>, nextGeneration: nat)

  datatype Decision = Decision(persist: bool, iWon: bool, reason: Reason)

  datatype Saved = Saved(match_: Captured, winner: int, iWon: bool)

  datatype Source = FromMatchEnded | FromMatchDestroyed | FromLocalForfeit | FromTracker

  datatype Refresh = Refresh(primaryId: string, guid: string, playlist: Mode, won: bool, immediate: bool)

  datatype Resolved = Resolved(guid: string, won: bool)

  datatype Effects = Effects(save: Option<Saved>, provisional: Option<Saved>, parked: Option<Refresh>,
                             refresh: Option<Refresh>, resolved: Option<Resolved>,
                             updateSession: Option<Recap>, pushDiscord: bool)

  datatype Out = Out(st: State, fx: Effects)

  const NO_EFFECTS := Effects(None, None, None, None, None, None, false)
  const NO_BOOK := Book(NO_TOTALS, map[])
  const NO_LOBBY := Lobby(0, Score(0, 0), false)
  const NO_PLAY := Play(Score(0, 0), NO_STATS, map[], map[])
  const NO_RESULT := Result(false, NoReason, Summary(Score(0, 0), -1, -1, 0.0))

  function NewContext(arenaName: string, arenaAsset: string, category: Category): Context {
    Context(arenaName, arenaAsset, -1, category, false, false, NoReason, false, NoReason)
  }

  function NewLocalPlayer(primaryId: string): LocalPlayer {
    LocalPlayer(primaryId, -1, false, false, false, false, false)
  }

  const IDLE := Live(false, false, false, "", 0, false, false, false,
                     NewContext("", "", CatBest), NewLocalPlayer(""), NO_LOBBY, NO_PLAY, NO_RESULT, None)

  const INITIAL := State(IDLE, Session(NO_BOOK, [], 0, 0, 0), None, map[], {}, 0)

  function Max(a: int, b: int): int { if a < b then b else a }

  // ---------------------------------------------------------------- helpers of the handlers

  predicate ScopeSignals(scope: ForfeitScope, localTeam: int) {
    || scope.local
    || (scope.forfeit &&
        if scope.forfeitTeam.Some? && IsTeam(scope.forfeitTeam.value) then scope.forfeitTeam.value == localTeam
        else scope.winner.Some? && IsTeam(scope.winner.value) && IsTeam(localTeam) && scope.winner.value != localTeam)
  }

  predicate ForfeitSignal(scopes: seq<ForfeitScope>, localTeam: int) {
    exists scope | scope in scopes :: ScopeSignals(scope, localTeam)
  }

  function InferMode(ctx: Context, maxPlayers: int, rosterSize: nat, category: Category): Mode {
    if HasAuthoritativeId(ctx.playlistId) then CanonicalMode(ctx.playlistId).GetOr(UnknownMode)
    else if ctx.casual then CasualMode
    else if ctx.nonRec then UnknownMode
    else InferFromSnapshot(maxPlayers, rosterSize, category,
                           InferFromArenaName(if ctx.arenaAsset != "" then ctx.arenaAsset else ctx.arenaName))
  }

  function LiveMode(live: Live): Mode {
    InferMode(live.ctx, live.lobby.maxPlayers, |live.play.roster|, live.ctx.category)
  }

  predicate TeamsFull(seen: Score, size: nat) {
    seen.blue >= size && seen.orange >= size
  }

  function ResetMatch(live: Live, arenaName: string, arenaAsset: string): Live {
    live.(inMatch := true, inReplay := false, matchFinalized := false, roundEverStarted := false,
          ctx := NewContext(arenaName, arenaAsset, live.ctx.category), me := NewLocalPlayer(live.me.primaryId),
          lobby := NO_LOBBY, play := NO_PLAY, result := NO_RESULT)
  }

  /** What a new lifecycle does beyond resetting: a fresh generation, no reconnect block, no timing. */
  function StartLifecycle(live: Live, generation: nat, guid: string): Live {
    live.(generation := generation, guid := guid, blocked := false,
          ctx := live.ctx.(category := CatBest), overtime := None)
  }

  function Capture(st: State, nowUnixMs: int): Captured {
    var live := st.live;
    Captured(live.guid, live.generation, st.session.generation, live.roundEverStarted, live.nonLiveReplay,
             live.me.observed && !live.me.present, live.ctx, live.me, live.lobby,
             live.play.(roster := live.play.matchRoster + live.play.roster),
             LiveMode(live), live.overtime.GetOr(0.0), nowUnixMs)
  }

  // ---------------------------------------------------------------- the two validators

  function Void(reason: Reason): Decision {
    Decision(false, false, reason)
  }

  function ClassifyMatchEnd(m: Captured, winner: int): Decision {
    var id := m.ctx.playlistId;
    if m.nonLiveReplay then Void(NonLiveReplay)
    else if HasAuthoritativeId(id) && !IsKnown(id) then Void(UnknownPlaylistId)
    else if NonRecordableReason(id).Some? then Void(NonRecordableReason(id).value)
    else if !HasAuthoritativeId(id) && m.ctx.nonRec then
      Void(if m.ctx.nonRecReason == NoReason then ExplicitNonCompetitiveContext else m.ctx.nonRecReason)
    else if !IsTeam(winner) then Void(InvalidWinner)
    else if !IsTeam(m.me.team) then Void(if m.me.wasSpectator then SpectatorBug else TeamUnknown)
    else if !m.roundEverStarted then Void(RoundNeverStarted)
    else if !m.me.wasActive then Void(if m.me.wasSpectator then SpectatorBug else NeverActive)
    else if !HasAuthoritativeId(id) && ExpectedTeamSize(m.mode) > 0 &&
            !m.lobby.wasFull && !TeamsFull(m.lobby.maxTeams, ExpectedTeamSize(m.mode)) then Void(LobbyNeverFull)
    else Decision(true, winner == m.me.team, NoReason)
  }

  datatype ExitCheck = ValidExit(mode: Mode) | InvalidExit(reason: Reason)

  function EarlyExit(live: Live): ExitCheck {
    var mode := LiveMode(live);
    if !live.inMatch then InvalidExit(NotActive)
    else if live.matchFinalized then InvalidExit(AlreadyFinalized)
    else if live.nonLiveReplay then InvalidExit(NonLiveReplay)
    else if live.me.wasSpectator then InvalidExit(SpectatorBug)
    else if !live.roundEverStarted then InvalidExit(RoundNeverStarted)
    else if !live.me.wasActive then InvalidExit(NeverActive)
    else if !IsTeam(live.me.team) then InvalidExit(TeamUnknown)
    else if live.guid == "" then InvalidExit(MissingGuid)
    else if live.ctx.excluded then
      InvalidExit(if live.ctx.exclusionReason == NoReason then ExplicitNonCompetitiveContext
                  else live.ctx.exclusionReason)
    else if !IsTrackedRankedEarlyExit(mode) then InvalidExit(Untracked)
    else if HasAuthoritativeId(live.ctx.playlistId) then ValidExit(mode)
    else if ExpectedTeamSize(mode) <= 0 then InvalidExit(UnknownTeamSize)
    else if !live.lobby.wasFull && !TeamsFull(live.lobby.maxTeams, ExpectedTeamSize(mode)) then
      InvalidExit(LobbyNeverFull)
    else ValidExit(mode)
  }

  function BuildRefresh(m: Captured, won: bool): Option<Refresh> {
    var id := m.ctx.playlistId;
    var hasId := HasAuthoritativeId(id);
    if (!hasId && (m.ctx.casual || m.ctx.nonRec)) || (hasId && !IsKnown(id))
       || m.guid == "" || m.me.primaryId == ""
       || (!(hasId && IsCasual(id)) && !IsTrackedCompetitive(m.mode)) then None
    else
      var key := if hasId then MmrKey(id) else Some(m.mode);
      if key.None? || m.me.primaryId !in m.play.roster then None
      else Some(Refresh(m.me.primaryId, m.guid, key.value, won, false))
  }

  // ---------------------------------------------------------------- session totals

  /** Goals of one team over a roster. The choice of key does not matter (lemma RosterGoalsAnyKey). */
  ghost function RosterGoals(roster: Roster, team: int): int {
    if roster == map[] then 0
    else
      var id :| id in roster;
      RosterGoals(roster - {id}, team) + (if roster[id].team == team then roster[id].goals else 0)
  }

  ghost function TeamGoals(m: Captured): int {
    var scored := if IsTeam(m.me.team) then m.play.score.Of(m.me.team) else 0;
    if scored <= 0 then scored + RosterGoals(m.play.roster, m.me.team) else scored
  }

  function Clamp(x: int, low: int, high: int): int {
    if x < low then low else if x > high then high else x
  }

  ghost function CountedTeamGoals(m: Captured): int {
    if m.mode == Duel then 0 else Max(0, TeamGoals(m))
  }

  ghost function CountedParticipations(m: Captured): int {
    var own := m.play.stats.counters;
    if m.mode == Duel then 0 else Clamp(own.goals + own.assists, 0, Max(0, TeamGoals(m)))
  }

  predicate CountsForMode(m: Captured) {
    && !IsCasual(m.ctx.playlistId)
    && !(!HasAuthoritativeId(m.ctx.playlistId) && (m.ctx.casual || m.ctx.nonRec))
    && IsTrackedCompetitive(m.mode)
  }

  function StatOf(book: Book, mode: Mode): ModeStat {
    if mode in book.modes then book.modes[mode] else ModeStat(0, 0, 0)
  }

  function Scored(stat: ModeStat, iWon: bool): ModeStat {
    ModeStat(stat.wins + (if iWon then 1 else 0), stat.losses + (if iWon then 0 else 1), stat.total + 1)
  }

  ghost function AddMatch(book: Book, m: Captured, iWon: bool): Book {
    var t := book.totals;
    Book(Totals(t.wins + (if iWon then 1 else 0), t.losses + (if iWon then 0 else 1),
                t.counters.Plus(m.play.stats.counters), t.peaks.Raised(m.play.stats.peaks),
                t.fastest.Lowered(m.play.stats.fastest),
                t.teamGoals + CountedTeamGoals(m), t.participations + CountedParticipations(m)),
         if CountsForMode(m) then book.modes[m.mode := Scored(StatOf(book, m.mode), iWon)] else book.modes)
  }

  function WithGuid(guids: seq<string>, guid: string): seq<string> {
    if guid != "" && guid !in guids then guids + [guid] else guids
  }

  function WithGuids(guids: seq<string>, more: seq<string>): seq<string>
    decreases |more|
  {
    if more == [] then guids else WithGuids(WithGuid(guids, more[0]), more[1..])
  }

  ghost function AddToSession(session: Session, m: Captured, iWon: bool): Session {
    var ended := if m.endedAtMs > 0 then m.endedAtMs / 1000 else 0;
    Session(AddMatch(session.book, m, iWon), WithGuid(session.guids, m.guid), session.generation,
            if ended > 0 && (session.startedAt <= 0 || ended < session.startedAt) then ended else session.startedAt,
            if ended > 0 then Max(session.lastEndedAt, ended) else session.lastEndedAt)
  }

  ghost function AddToRecap(recap: Recap, m: Captured, iWon: bool): Recap {
    Recap(AddMatch(recap.book, m, iWon), WithGuid(recap.guids, m.guid), recap.generation,
          if recap.account == "" then m.me.primaryId else recap.account)
  }

  // ---------------------------------------------------------------- finalizing

  predicate IsCurrent(live: Live, m: Captured) {
    m.generation == live.generation && m.guid == live.guid
  }

  function RecordTerminal(finalized: set<string>, guid: string): set<string> {
    if guid == "" then finalized else finalized + {guid}
  }

  function ResultShown(live: Live, m: Captured, winner: int, d: Decision): Live {
    live.(matchFinalized := live.matchFinalized || IsCurrent(live, m),
          result := if IsCurrent(live, m)
                    then Result(!d.persist, d.reason, Summary(m.play.score, m.me.team, winner, m.overtime))
                    else live.result,
          overtime := None)
  }

  predicate CountsForRecap(st: State, m: Captured) {
    m.sessionGeneration != st.session.generation && st.recap.Some? && st.recap.value.generation == m.sessionGeneration
  }

  ghost function FinalizeCaptured(st: State, m: Captured, winner: int, source: Source, enqueue: bool,
                                  fx: Effects): Out
  {
    if m.guid != "" && m.guid in st.finalized then Out(st, fx)
    else
      var d := ClassifyMatchEnd(m, winner);
      var refresh := if enqueue && d.persist then BuildRefresh(m, d.iWon) else None;
      var session := if d.persist && m.sessionGeneration == st.session.generation
                     then AddToSession(st.session, m, d.iWon) else st.session;
      var recap := if d.persist && CountsForRecap(st, m)
                   then Some(AddToRecap(st.recap.value, m, d.iWon)) else st.recap;
      Out(State(ResultShown(st.live, m, winner, d), session, recap,
                st.pending, RecordTerminal(st.finalized, m.guid), st.nextGeneration),
          Effects(if d.persist then Some(Saved(m, winner, d.iWon)) else fx.save,
                  fx.provisional, fx.parked,
                  if refresh.Some? then Some(refresh.value.(immediate := source == FromLocalForfeit)) else fx.refresh,
                  fx.resolved,
                  if d.persist && CountsForRecap(st, m) then recap else fx.updateSession,
                  fx.pushDiscord || IsCurrent(st.live, m)))
  }

  ghost function FinalizeMatch(st: State, winner: int, source: Source, nowUnixMs: int, fx: Effects): Out {
    if st.live.matchFinalized || (st.live.guid != "" && st.live.guid in st.finalized) then Out(st, fx)
    else FinalizeCaptured(st, Capture(st, nowUnixMs), winner, source, true, fx)
  }

  predicate AttachesTerminalGuid(st: State, guid: string) {
    && guid != "" && st.live.inMatch && !st.live.matchFinalized && st.live.guid == "" && !st.live.blocked
    && guid !in st.finalized && guid !in st.pending
  }

  function AttachTerminalGuid(st: State, guid: string): State {
    if AttachesTerminalGuid(st, guid) then st.(live := st.live.(guid := guid)) else st
  }

  /** An event without a GUID is only believed when nothing else could own it. */
  predicate GuidlessIsCurrent(st: State) {
    |st.pending| == 0 && st.live.guid == "" && !st.live.blocked
  }

  // ---------------------------------------------------------------- MatchEnded

  datatype EndEvent = EndEvent(guid: string, winner: int, scores: Option<Score>, forfeits: seq<ForfeitScope>)

  function WithScore(play: Play, scores: Option<Score>): Play {
    if scores.Some? then play.(score := scores.value) else play
  }

  ghost function ResolveByEnd(st: State, e: EndEvent): Out
    requires e.guid in st.pending
  {
    if !IsTeam(e.winner) then Out(st, NO_EFFECTS)
    else
      var parked := st.pending[e.guid];
      var m := parked.(play := WithScore(parked.play, e.scores));
      var forfeit := ForfeitSignal(e.forfeits, m.me.team) && e.winner != m.me.team;
      var out := FinalizeCaptured(st.(pending := st.pending - {e.guid}), m, e.winner,
                                  if forfeit then FromLocalForfeit else FromMatchEnded, false, NO_EFFECTS);
      Out(out.st, out.fx.(resolved := Some(Resolved(m.guid, e.winner == m.me.team))))
  }

  predicate EndsCurrent(st: State, e: EndEvent) {
    && st.live.inMatch && !st.live.matchFinalized
    && (if e.guid == "" then GuidlessIsCurrent(st) else e.guid == st.live.guid)
  }

  ghost function MatchEnded(st: State, e: EndEvent, nowUnixMs: int): Out {
    if e.guid != "" && e.guid in st.pending then ResolveByEnd(st, e)
    else
      var st1 := AttachTerminalGuid(st, e.guid);
      if !EndsCurrent(st1, e) then Out(st1, NO_EFFECTS)
      else
        var st2 := st1.(live := st1.live.(play := WithScore(st1.live.play, e.scores)));
        var forfeit := ForfeitSignal(e.forfeits, st2.live.me.team) && e.winner != st2.live.me.team;
        FinalizeMatch(st2, e.winner, if forfeit then FromLocalForfeit else FromMatchEnded, nowUnixMs, NO_EFFECTS)
  }

  // ---------------------------------------------------------------- MatchDestroyed

  datatype DestroyEvent = DestroyEvent(guid: string, winner: Option<int>, scores: Option<Score>,
                                       forfeits: seq<ForfeitScope>)

  function MarkVoid(st: State, reason: Reason, fx: Effects): Out {
    Out(st.(live := st.live.(result := Result(true, reason, Summary(st.live.play.score, st.live.me.team, -1, 0.0)),
                             matchFinalized := true),
            finalized := RecordTerminal(st.finalized, st.live.guid)),
        fx.(pushDiscord := true))
  }

  /** The row shown for a parked match while its result is unknown. */
  function ProvisionalSave(m: Captured): Option<Saved> {
    var team := m.me.team;
    if IsTeam(team) && (m.disappeared || m.play.score.blue != m.play.score.orange) then
      var won := !m.disappeared && m.play.score.Of(team) > m.play.score.Of(1 - team);
      var winner := if won then team else 1 - team;
      var d := ClassifyMatchEnd(m, winner);
      if d.persist then Some(Saved(m, winner, d.iWon)) else None
    else None
  }

  function Park(st: State, m: Captured, refresh: Refresh, fx: Effects): Out {
    Out(st.(pending := if m.guid in st.pending then st.pending else st.pending[m.guid := m],
            live := st.live.(result := Result(true, PendingTracker,
                                              Summary(st.live.play.score, st.live.me.team, -1,
                                                      st.live.result.summary.overtime)))),
        fx.(parked := Some(refresh), provisional := ProvisionalSave(m)))
  }

  /** A destroyed match without an authoritative winner: void, a local forfeit, or parked for the tracker. */
  ghost function ResolveWithoutWinner(st: State, nowUnixMs: int, fx: Effects): Out {
    match EarlyExit(st.live)
    case InvalidExit(reason) => MarkVoid(st, reason, fx)
    case ValidExit(mode) =>
      if st.live.me.forfeit then FinalizeMatch(st, 1 - st.live.me.team, FromLocalForfeit, nowUnixMs, fx)
      else
        var m := Capture(st, nowUnixMs).(mode := mode);
        var refresh := BuildRefresh(m, false);
        if refresh.None? then MarkVoid(st, MissingTrackerIdentity, fx) else Park(st, m, refresh.value, fx)
  }

  ghost function ResolveDestroyed(st: State, winner: int, nowUnixMs: int, fx: Effects): Out {
    if st.live.matchFinalized then Out(st, fx)
    else if IsTeam(winner) then
      FinalizeMatch(st, winner, if st.live.me.forfeit && winner != st.live.me.team then FromLocalForfeit
                                else FromMatchDestroyed, nowUnixMs, fx)
    else ResolveWithoutWinner(st, nowUnixMs, fx)
  }

  /** Back to the menu. */
  function LeaveMatch(live: Live): Live {
    live.(inMatch := false, inReplay := false, nonLiveReplay := false,
          ctx := live.ctx.(arenaName := "", arenaAsset := ""), me := live.me.(team := -1))
  }

  predicate DestroyIgnored(st: State, guid: string) {
    st.live.inMatch && (if guid == "" then !GuidlessIsCurrent(st) else guid != st.live.guid)
  }

  function WithForfeit(me: LocalPlayer, scopes: seq<ForfeitScope>): LocalPlayer {
    me.(forfeit := me.forfeit || ForfeitSignal(scopes, me.team))
  }

  function DestroySeen(live: Live, e: DestroyEvent): Live {
    live.(me := WithForfeit(live.me, e.forfeits), play := WithScore(live.play, e.scores),
          overtime := if live.inMatch then None else live.overtime)
  }

  ghost function MatchDestroyed(st: State, e: DestroyEvent, nowUnixMs: int): Out {
    var st1 := AttachTerminalGuid(st, e.guid);
    if DestroyIgnored(st1, e.guid) then Out(st1, NO_EFFECTS)
    else
      var st2 := st1.(live := DestroySeen(st1.live, e));
      if !st2.live.inMatch then Out(st2, NO_EFFECTS)
      else
        var out := ResolveDestroyed(st2, e.winner.GetOr(-1), nowUnixMs, NO_EFFECTS);
        Out(out.st.(live := LeaveMatch(out.st.live)), out.fx.(pushDiscord := true))
  }

  // ---------------------------------------------------------------- tracker confirmation

  ghost function Confirm(st: State, guid: string, won: bool): Out {
    if guid !in st.pending || guid in st.finalized then Out(st, NO_EFFECTS)
    else
      var m := st.pending[guid];
      var winner := if IsTeam(m.me.team) then (if won then m.me.team else 1 - m.me.team) else -1;
      FinalizeCaptured(st.(pending := st.pending - {guid}), m, winner, FromTracker, false, NO_EFFECTS)
  }

  // ---------------------------------------------------------------- MatchCreated and UpdateState

  predicate NonRecordableContext(live: Live) {
    live.ctx.nonRec || IsNonRecordable(live.ctx.playlistId)
  }

  function MatchCreated(st: State, guid: string): Out {
    var live := st.live;
    var startsNew := !live.inMatch || (guid != "" && NonRecordableContext(live))
                     || (guid != "" && live.guid != "" && guid != live.guid);
    if startsNew then
      var next := st.nextGeneration + 1;
      Out(st.(live := StartLifecycle(ResetMatch(live, live.ctx.arenaName, ""), next, guid), nextGeneration := next),
          NO_EFFECTS.(pushDiscord := true))
    else if guid != "" && live.guid == "" then
      Out(st.(live := live.(guid := guid)), NO_EFFECTS.(pushDiscord := true))
    else Out(st, NO_EFFECTS)
  }

  /** What the roster merge and the identity detection of one update came to; both are inputs of the model. */
  datatype Observed = Observed(roster: Roster, matchRoster: Roster, myPrimaryId: string, myTeam: int,
                               category: Category, shownCategory: Category, stats: Stats, present: bool,
                               teamCounts: Score)

  datatype UpdateEvent = UpdateEvent(arena: Option<(string, string)>, playlistId: Option<int>,
                                     replay: bool, spectator: bool, scores: Option<Score>,
                                     forfeits: seq<ForfeitScope>, nonRecordable: bool, nonRecReason: Reason,
                                     casual: bool, overtime: Option<real>, seen: Observed)

  function ArenaSeen(st: State, name: string, asset: string, keepPlaylist: bool): State {
    var live := st.live;
    if name == live.ctx.arenaName && asset == live.ctx.arenaAsset then st
    else if live.inMatch && live.roundEverStarted && !NonRecordableContext(live) then
      st.(live := live.(ctx := live.ctx.(arenaName := name, arenaAsset := asset)))
    else if !live.inMatch || NonRecordableContext(live) then
      var next := st.nextGeneration + 1;
      st.(live := StartLifecycle(ResetMatch(live, name, asset), next, ""), nextGeneration := next)
    else
      var kept := if keepPlaylist then live.ctx.playlistId else -1;
      st.(live := ResetMatch(live, name, asset).(ctx := NewContext(name, asset, CatBest).(playlistId := kept)))
  }

  predicate PlaylistLatched(live: Live, id: int) {
    && live.inMatch && live.roundEverStarted && !live.matchFinalized
    && IsKnown(live.ctx.playlistId) && !IsNonRecordable(live.ctx.playlistId) && id != live.ctx.playlistId
  }

  function WithPlaylist(live: Live, id: int): Live {
    live.(ctx := live.ctx.(playlistId := id))
  }

  function PlaylistSeen(st: State, id: int): State {
    var live := st.live;
    if PlaylistLatched(live, id) then st
    else if live.inMatch && NonRecordableContext(live) && id != live.ctx.playlistId then
      var next := st.nextGeneration + 1;
      var restarted := StartLifecycle(ResetMatch(live, live.ctx.arenaName, live.ctx.arenaAsset), next, live.guid);
      st.(live := WithPlaylist(restarted, id), nextGeneration := next)
    else st.(live := WithPlaylist(live, id))
  }

  function Excluded(ctx: Context, reason: Reason): Context {
    ctx.(excluded := true, exclusionReason := reason)
  }

  function ContextSignals(ctx: Context, e: UpdateEvent): Context {
    var id := ctx.playlistId;
    if HasAuthoritativeId(id) then
      var cleared := Context(ctx.arenaName, ctx.arenaAsset, id, ctx.category, false, false, NoReason, false, NoReason);
      if !IsKnown(id) then Excluded(cleared, UnknownPlaylistId)
      else if NonRecordableReason(id).Some? then Excluded(cleared, NonRecordableReason(id).value)
      else if IsCasual(id) then Excluded(cleared, CasualPlaylistReason)
      else cleared
    else
      var told := if e.nonRecordable then
                    ctx.(nonRec := true, nonRecReason := if e.nonRecReason == NoReason
                                                         then ExplicitNonCompetitiveContext else e.nonRecReason)
                  else if e.casual then ctx.(casual := true) else ctx;
      if told.nonRec then Excluded(told, told.nonRecReason)
      else if told.casual then Excluded(told, CasualContextReason)
      else told
  }

  function MaxScore(a: Score, b: Score): Score {
    Score(Max(a.blue, b.blue), Max(a.orange, b.orange))
  }

  function LobbySeen(ctx: Context, lobby: Lobby, o: Observed): Lobby {
    if HasAuthoritativeId(ctx.playlistId) then lobby
    else
      var players := Max(lobby.maxPlayers, o.teamCounts.blue + o.teamCounts.orange);
      var size := ExpectedTeamSize(InferMode(ctx, players, |o.roster|, o.shownCategory));
      Lobby(players, MaxScore(lobby.maxTeams, o.teamCounts),
            lobby.wasFull || (size > 0 && TeamsFull(o.teamCounts, size)))
  }

  function LocalSeen(me: LocalPlayer, e: UpdateEvent): LocalPlayer {
    var o := e.seen;
    var id := if e.spectator then me.primaryId else o.myPrimaryId;
    var team := if e.spectator then me.team else o.myTeam;
    var active := !e.spectator && id != "" && id in o.roster && IsTeam(o.roster[id].team);
    LocalPlayer(id, if active then o.roster[id].team else team, me.wasActive || active, me.wasSpectator,
                me.observed || id != "", if id != "" then o.present else me.present, me.forfeit)
  }

  function PlaySeen(play: Play, primaryId: string, o: Observed): Play {
    Play(play.score, if primaryId == "" then play.stats else o.stats, o.roster, o.matchRoster)
  }

  function PlayersSeen(live: Live, e: UpdateEvent): Live {
    var me := LocalSeen(live.me, e);
    live.(lobby := LobbySeen(live.ctx, live.lobby, e.seen), me := me, play := PlaySeen(live.play, me.primaryId, e.seen),
          ctx := if e.spectator then live.ctx else live.ctx.(category := e.seen.category))
  }

  /** The part of an update that reads the scoreboard, the match context and the players. */
  function Readings(live: Live, e: UpdateEvent): Live {
    var me := WithForfeit(live.me, e.forfeits);
    var told := live.(play := WithScore(live.play, e.scores), ctx := ContextSignals(live.ctx, e),
                      me := me.(wasSpectator := me.wasSpectator || (e.spectator && !e.replay)));
    if e.replay then told else PlayersSeen(told, e)
  }

  function UpdateSeen(st: State, e: UpdateEvent): State {
    var st2 := UpdatePlaylist(UpdateArena(UpdateFlags(st, e), e), e);
    st2.(live := Readings(st2.live, e))
  }

  function UpdateFlags(st: State, e: UpdateEvent): State {
    st.(live := st.live.(inReplay := e.replay, overtime := e.overtime))
  }

  function UpdateArena(st: State, e: UpdateEvent): State {
    if e.arena.Some? then ArenaSeen(st, e.arena.value.0, e.arena.value.1, e.playlistId.None?) else st
  }

  function UpdatePlaylist(st: State, e: UpdateEvent): State {
    if e.playlistId.Some? then PlaylistSeen(st, e.playlistId.value) else st
  }

  // ---------------------------------------------------------------- sessions and disconnects

  function StartNewSession(st: State, historyGuids: seq<string>): State {
    var s := st.session;
    st.(recap := if s.book.totals.wins + s.book.totals.losses > 0
                 then Some(Recap(s.book, WithGuids(s.guids, historyGuids), s.generation, st.live.me.primaryId))
                 else st.recap,
        session := Session(NO_BOOK, [], s.generation + 1, 0, 0))
  }

  function Disconnected(st: State): State {
    if st.live.inMatch && !st.live.matchFinalized then st.(live := st.live.(blocked := true)) else st
  }

  function ClearActive(st: State): State {
    var result := st.live.result;
    st.(live := ResetMatch(st.live, "", "")
                  .(inMatch := false, guid := "", overtime := None,
                    result := result.(summary := result.summary.(overtime := 0.0))))
  }

  // ---------------------------------------------------------------- one step of a run

  /** Everything that can happen to the match state: game events, then the calls of the rest of the program. */
  datatype Event =
    | OnReplayCreated
    | OnMatchCreated(guid: string)
    | OnRoundStarted
    | OnCounters(stats: Stats, roster: Roster)     // statfeed, goals, ball hits, crossbars
    | OnOvertimeClock(overtime: Option<real>)      // pauses and clock samples
    | OnUpdate(update: UpdateEvent)
    | OnMatchEnded(end: EndEvent)
    | OnMatchDestroyed(destroy: DestroyEvent)
    | ConfirmDestroyed(confirmed: string, won: bool)
    | TelemetryDisconnected
    | ClearedOnDisconnect
    | NewSession(historyGuids: seq<string>)
    | SelectedAccount(primaryId: string, team: int)

  ghost function Step(st: State, e: Event, nowUnixMs: int): Out {
    match e
    case OnReplayCreated => Out(st.(live := st.live.(nonLiveReplay := true, inReplay := true)), NO_EFFECTS)
    case OnMatchCreated(guid) => MatchCreated(st, guid)
    case OnRoundStarted => Out(st.(live := st.live.(roundEverStarted := true)), NO_EFFECTS)
    case OnCounters(stats, roster) =>
      Out(st.(live := st.live.(play := st.live.play.(stats := stats, roster := roster))), NO_EFFECTS)
    case OnOvertimeClock(overtime) => Out(st.(live := st.live.(overtime := overtime)), NO_EFFECTS)
    case OnUpdate(update) => Out(UpdateSeen(st, update), NO_EFFECTS)
    case OnMatchEnded(end) => MatchEnded(st, end, nowUnixMs)
    case OnMatchDestroyed(destroy) => MatchDestroyed(st, destroy, nowUnixMs)
    case ConfirmDestroyed(guid, won) => Confirm(st, guid, won)
    case TelemetryDisconnected => Out(Disconnected(st), NO_EFFECTS)
    case ClearedOnDisconnect => Out(ClearActive(st), NO_EFFECTS)
    case NewSession(historyGuids) => Out(StartNewSession(st, historyGuids), NO_EFFECTS)
    case SelectedAccount(primaryId, team) =>
      Out(st.(live := st.live.(me := st.live.me.(primaryId := primaryId, team := team))), NO_EFFECTS)
  }
}
