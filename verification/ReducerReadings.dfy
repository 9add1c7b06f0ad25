/**
 What the events before the end of a match leave in the match state, field by field: when a new
 lifecycle starts and what it forgets, what an update changes, and what a new session takes over.
 */
module ReducerReadings {
  import opened Options
  import opened Teams
  import opened Gamemodes
  import opened GamemodeLaws
  import opened Playlists
  import opened SessionTypes
  import opened ReducerSpec
  import opened ReducerSafety
  import opened ReducerResults

  // ---------------------------------------------------------------- a new match

  predicate NothingCounted(stats: Stats) {
    && (forall c: Counter :: stats.counters.Of(c) == 0) && (forall p: Peak :: stats.peaks.Of(p) == 0.0)
    && stats.fastest.goal == 0.0 && stats.fastest.goalSelf == 0.0
  }

  /** Nothing is left of an earlier match but the local player's identity and what is kept of it on purpose. */
  predicate Fresh(live: Live, arenaName: string, arenaAsset: string, primaryId: string) {
    && live.inMatch && !live.inReplay && !live.matchFinalized && !live.roundEverStarted
    && live.ctx.arenaName == arenaName && live.ctx.arenaAsset == arenaAsset
    && !live.ctx.casual && !live.ctx.nonRec && live.ctx.nonRecReason == NoReason
    && !live.ctx.excluded && live.ctx.exclusionReason == NoReason
    && live.me.primaryId == primaryId && live.me.team == -1 && !live.me.wasActive && !live.me.wasSpectator
    && !live.me.observed && !live.me.present && !live.me.forfeit
    && live.lobby.maxPlayers == 0 && live.lobby.maxTeams == Score(0, 0) && !live.lobby.wasFull
    && live.play.score == Score(0, 0) && live.play.roster == map[] && live.play.matchRoster == map[]
    && NothingCounted(live.play.stats)
    && !live.result.wasVoid && live.result.reason == NoReason
    && live.result.summary == Summary(Score(0, 0), -1, -1, 0.0)
  }

  lemma ResetIsFresh(live: Live, arenaName: string, arenaAsset: string)
    ensures var next := ResetMatch(live, arenaName, arenaAsset);
      && Fresh(next, arenaName, arenaAsset, live.me.primaryId) && next.ctx.playlistId == -1
      && next.ctx.category == live.ctx.category
      && next.guid == live.guid && next.generation == live.generation && next.blocked == live.blocked
      && next.nonLiveReplay == live.nonLiveReplay && next.overtime == live.overtime
  {
    forall c: Counter ensures NO_STATS.counters.Of(c) == 0 {}
    forall p: Peak ensures NO_STATS.peaks.Of(p) == 0.0 {}
  }

  /** A lifecycle of its own: the next number, this GUID and playlist, no reconnect or clock held against it. */
  ghost predicate Begins(next: State, st: State, guid: string, playlistId: int) {
    && next.nextGeneration == st.nextGeneration + 1 && next.live.generation == st.nextGeneration + 1
    && next.live.guid == guid && next.live.ctx.playlistId == playlistId && next.live.ctx.category == CatBest
    && !next.live.blocked && next.live.overtime == None && next.live.nonLiveReplay == st.live.nonLiveReplay
    && SameRecords(next, st)
  }

  /** The same sessions, parked matches and terminal GUIDs. */
  ghost predicate SameRecords(next: State, st: State) {
    && next.session == st.session && next.recap == st.recap
    && next.pending == st.pending && next.finalized == st.finalized
  }

  /** In a playlist, or told to be in a context, that is not recorded. */
  predicate Unrecorded(live: Live) {
    live.ctx.nonRec || InClass(live.ctx.playlistId, NonRecordable)
  }

  lemma UnrecordedMeans(live: Live)
    ensures NonRecordableContext(live) <==> Unrecorded(live)
  {
    hide Find, InClass;
    PlaylistClasses(live.ctx.playlistId, NonRecordable);
  }

  /** MatchCreated starts a match when none is played, or when it names another or leaves an unrecorded one. */
  lemma CreatedResult(st: State, guid: string)
    ensures var out := MatchCreated(st, guid); var live := st.live;
      var another := guid != "" && (Unrecorded(live) || (live.guid != "" && live.guid != guid));
      && out.fx == NO_EFFECTS.(pushDiscord := !live.inMatch || another || (guid != "" && live.guid == ""))
      && (!live.inMatch || another ==>
            Begins(out.st, st, guid, -1) && Fresh(out.st.live, live.ctx.arenaName, "", live.me.primaryId))
      && (live.inMatch && !another ==>
            out.st == st.(live := live.(guid := if live.guid == "" then guid else live.guid)))
  {
    hide Unrecorded, NonRecordableContext, NothingCounted;
    UnrecordedMeans(st.live);
    ResetIsFresh(st.live, st.live.ctx.arenaName, "");
  }

  // ---------------------------------------------------------------- what an update changes

  lemma FlagsResult(st: State, e: UpdateEvent)
    ensures var next := UpdateFlags(st, e);
      && next.live.inReplay == e.replay && next.live.overtime == e.overtime
      && next == st.(live := st.live.(inReplay := e.replay, overtime := e.overtime))
  {}

  /**
   Another arena: a match under way only takes its name; a match that had not started is reset, keeping its
   lifecycle and, unless the update tells one, its playlist; anything else begins a new match.
   */
  lemma ArenaResult(st: State, e: UpdateEvent)
    ensures var next := UpdateArena(st, e); var live := st.live;
      if e.arena.None? || e.arena.value == (live.ctx.arenaName, live.ctx.arenaAsset) then next == st
      else
        var (name, asset) := e.arena.value;
        if !live.inMatch || Unrecorded(live) then
          Begins(next, st, "", -1) && Fresh(next.live, name, asset, live.me.primaryId)
        else if live.roundEverStarted then
          next == st.(live := live.(ctx := live.ctx.(arenaName := name, arenaAsset := asset)))
        else
          && Fresh(next.live, name, asset, live.me.primaryId) && next.live.ctx.category == CatBest
          && next.live.ctx.playlistId == (if e.playlistId.None? then live.ctx.playlistId else -1)
          && next.live.generation == live.generation && next.nextGeneration == st.nextGeneration
          && next.live.guid == live.guid && next.live.blocked == live.blocked && next.live.overtime == live.overtime
          && next.live.nonLiveReplay == live.nonLiveReplay && SameRecords(next, st)
  {
    hide Unrecorded, NonRecordableContext, NothingCounted;
    UnrecordedMeans(st.live);
    if e.arena.Some? { ResetIsFresh(st.live, e.arena.value.0, e.arena.value.1); }
  }

  /** In a known, recorded playlist. */
  predicate Recorded(id: int) {
    InClass(id, Casual) || InClass(id, Ranked) || InClass(id, Tournament) || InClass(id, Other)
  }

  lemma RecordedMeans(id: int)
    ensures Recorded(id) <==> IsKnown(id) && !IsNonRecordable(id)
  {
    PlaylistTable(id);
    if id == -1 {
    } else {
      ContextMeans(id);
    }
    hide InClass, Find;
  }

  /** A match under way in a recorded playlist keeps it; leaving an unrecorded one begins a new match. */
  lemma PlaylistResult(st: State, e: UpdateEvent)
    ensures var next := UpdatePlaylist(st, e); var live := st.live; var current := live.ctx.playlistId;
      if e.playlistId.None? || e.playlistId.value == current then next == st
      else if live.inMatch && live.roundEverStarted && !live.matchFinalized && Recorded(current) then next == st
      else if live.inMatch && Unrecorded(live) then
        && Begins(next, st, live.guid, e.playlistId.value)
        && Fresh(next.live, live.ctx.arenaName, live.ctx.arenaAsset, live.me.primaryId)
      else next == st.(live := live.(ctx := live.ctx.(playlistId := e.playlistId.value)))
  {
    hide Unrecorded, Recorded, NonRecordableContext, NothingCounted, IsKnown, IsNonRecordable;
    UnrecordedMeans(st.live);
    RecordedMeans(st.live.ctx.playlistId);
    ResetIsFresh(st.live, st.live.ctx.arenaName, st.live.ctx.arenaAsset);
  }

  /** Which contexts rule out an early exit, and why; a playlist overrules whatever was told before. */
  lemma SignalsResult(ctx: Context, e: UpdateEvent)
    ensures var next := ContextSignals(ctx, e); var id := ctx.playlistId;
      && next.playlistId == id && next.arenaName == ctx.arenaName && next.arenaAsset == ctx.arenaAsset
      && next.category == ctx.category
      && (id != -1 ==>
            && !next.casual && !next.nonRec && next.nonRecReason == NoReason
            && (next.excluded <==> !(InClass(id, Ranked) || InClass(id, Tournament) || InClass(id, Other)))
            && (InClass(id, Casual) ==> next.exclusionReason == CasualPlaylistReason)
            && (InClass(id, NonRecordable) ==> NonRecordableReason(id) == Some(next.exclusionReason))
            && (next.excluded && !InClass(id, Casual) && !InClass(id, NonRecordable) ==>
                  next.exclusionReason == UnknownPlaylistId))
      && (id == -1 ==>
            && (next.nonRec <==> ctx.nonRec || e.nonRecordable)
            && (next.casual <==> ctx.casual || (e.casual && !e.nonRecordable))
            && (e.nonRecordable && e.nonRecReason != NoReason ==> next.nonRecReason == e.nonRecReason)
            && (e.nonRecordable && e.nonRecReason == NoReason ==> next.nonRecReason == ExplicitNonCompetitiveContext)
            && (!e.nonRecordable ==> next.nonRecReason == ctx.nonRecReason)
            && (next.excluded <==> ctx.excluded || next.nonRec || next.casual)
            && (next.nonRec ==> next.exclusionReason == next.nonRecReason)
            && (next.casual && !next.nonRec ==> next.exclusionReason == CasualContextReason))
  {
    var id := ctx.playlistId;
    if id != -1 {
      ContextMeans(id);
      PlaylistTable(id);
      PlaylistClasses(id, Casual);
      PlaylistClasses(id, NonRecordable);
    }
    hide Find, InClass;
  }

  /** Where the local player is seen: on a team it counts as active, and a replay or watching changes no identity. */
  lemma LocalResult(me: LocalPlayer, e: UpdateEvent)
    ensures var next := LocalSeen(me, e); var o := e.seen;
      && next.primaryId == (if e.spectator then me.primaryId else o.myPrimaryId)
      && (var listed := !e.spectator && o.myPrimaryId != "" && o.myPrimaryId in o.roster
                        && (o.roster[o.myPrimaryId].team == 0 || o.roster[o.myPrimaryId].team == 1);
          && (next.wasActive <==> me.wasActive || listed)
          && (listed ==> next.team == o.roster[o.myPrimaryId].team)
          && (!listed && !e.spectator ==> next.team == o.myTeam) && (e.spectator ==> next.team == me.team))
      && (next.observed <==> me.observed || next.primaryId != "")
      && (next.present <==> if next.primaryId == "" then me.present else o.present)
      && next.wasSpectator == me.wasSpectator && next.forfeit == me.forfeit
  {}

  /** The lobby is only watched without a playlist: its sizes only grow, and it was full once both teams were. */
  lemma LobbyResult(ctx: Context, lobby: Lobby, o: Observed)
    ensures var next := LobbySeen(ctx, lobby, o); var seen := o.teamCounts;
      && (ctx.playlistId != -1 ==> next == lobby)
      && (ctx.playlistId == -1 ==>
            && next.maxPlayers == (if lobby.maxPlayers < seen.blue + seen.orange then seen.blue + seen.orange
                                   else lobby.maxPlayers)
            && next.maxTeams.blue == (if lobby.maxTeams.blue < seen.blue then seen.blue else lobby.maxTeams.blue)
            && next.maxTeams.orange
               == (if lobby.maxTeams.orange < seen.orange then seen.orange else lobby.maxTeams.orange)
            && (var size := ExpectedTeamSize(InferMode(ctx, next.maxPlayers, |o.roster|, o.shownCategory));
                next.wasFull <==> lobby.wasFull || (size > 0 && seen.blue >= size && seen.orange >= size)))
  {
    hide InferMode, ExpectedTeamSize;
  }

  /** The mode of a match: its playlist's, or else what was told, the arena, the category and the players say. */
  lemma ModeMeans(ctx: Context, maxPlayers: int, rosterSize: nat, category: Category)
    ensures var mode := InferMode(ctx, maxPlayers, rosterSize, category);
      var arena := InferFromArenaName(if ctx.arenaAsset == "" then ctx.arenaName else ctx.arenaAsset);
      if ctx.playlistId != -1 then Some(mode) == CanonicalMode(ctx.playlistId)
                                   || (CanonicalMode(ctx.playlistId) == None && mode == UnknownMode)
      else if ctx.casual then mode == CasualMode
      else if ctx.nonRec then mode == UnknownMode
      else if arena != Undetermined then mode == arena
      else if category in {CatCasual, CatTournament, CatRumble, CatHeatseeker} then
        && (category == CatCasual <==> mode == CasualMode) && (category == CatTournament <==> mode == TournamentMode)
        && (category == CatRumble <==> mode == Rumble) && (category == CatHeatseeker <==> mode == Heatseeker)
      else mode == InferFromPlayerCount(if maxPlayers > 0 then maxPlayers else rosterSize)
  {
    hide Find, InferFromArenaName;
  }

  /** A replay shows no one; the numbers of a match are only read for a known local player. */
  predicate PlayRead(play: Play, before: Play, e: UpdateEvent, primaryId: string) {
    && ScoreTaken(play.score, before.score, e.scores)
    && play.roster == (if e.replay then before.roster else e.seen.roster)
    && play.matchRoster == (if e.replay then before.matchRoster else e.seen.matchRoster)
    && play.stats == (if e.replay || primaryId == "" then before.stats else e.seen.stats)
  }

  /** Of a replay only the score, the context and who gave up are read. */
  lemma ReplayReadings(live: Live, e: UpdateEvent)
    requires e.replay
    ensures var next := Readings(live, e);
      && next.ctx == ContextSignals(live.ctx, e) && PlayRead(next.play, live.play, e, next.me.primaryId)
      && next.me == live.me.(forfeit := GaveUp(live, e.forfeits))
      && next == live.(ctx := next.ctx, me := next.me, play := next.play)
  {
    hide ContextSignals, ForfeitSignal, GaveUp;
    ForfeitMeans(live, e.forfeits);
  }

  /** Of play, then also the players: who watches is remembered, and the local player and the lobby are as seen. */
  lemma PlayReadings(live: Live, e: UpdateEvent)
    requires !e.replay
    ensures var next := Readings(live, e); var told := ContextSignals(live.ctx, e);
      && next.ctx == told.(category := if e.spectator then told.category else e.seen.category)
      && next.me == LocalSeen(live.me.(forfeit := GaveUp(live, e.forfeits),
                                       wasSpectator := live.me.wasSpectator || e.spectator), e)
      && next.lobby == LobbySeen(told, live.lobby, e.seen) && PlayRead(next.play, live.play, e, next.me.primaryId)
      && next == live.(ctx := next.ctx, me := next.me, lobby := next.lobby, play := next.play)
  {
    hide ContextSignals, LobbySeen, LocalSeen, ForfeitSignal, GaveUp;
    ForfeitMeans(live, e.forfeits);
  }

  /** Seen for the first time, a match is the one the update describes: its arena, playlist, score and players. */
  lemma UpdateOpensMatch(st: State, e: UpdateEvent, id: int)
    requires !st.live.inMatch && e.arena.Some? && e.playlistId == Some(id) && id != -1 && !e.replay
    requires e.arena.value != (st.live.ctx.arenaName, st.live.ctx.arenaAsset)
    ensures var next := UpdateSeen(st, e); var live := next.live;
      && live.inMatch && !live.matchFinalized && !live.roundEverStarted && live.guid == ""
      && live.generation >= st.nextGeneration + 1 == next.nextGeneration && SameRecords(next, st)
      && live.ctx.playlistId == id && (live.ctx.arenaName, live.ctx.arenaAsset) == e.arena.value
      && (live.ctx.excluded <==> !(InClass(id, Ranked) || InClass(id, Tournament) || InClass(id, Other)))
      && ScoreTaken(live.play.score, Score(0, 0), e.scores) && live.play.roster == e.seen.roster
  {
    hide UpdateFlags, UpdateArena, UpdatePlaylist, Readings, InClass, LocalSeen, LobbySeen, ContextSignals, GaveUp,
         NothingCounted;
    var flagged := UpdateFlags(st, e);
    var placed := UpdateArena(flagged, e);
    var listed := UpdatePlaylist(placed, e);
    FlagsResult(st, e);
    ArenaResult(flagged, e);
    NoPlaylistIsRecorded();
    PlaylistResult(placed, e);
    assert listed == placed.(live := placed.live.(ctx := placed.live.ctx.(playlistId := id)));
    PlayReadings(listed.live, e);
    SignalsResult(listed.live.ctx, e);
  }

  lemma NoPlaylistIsRecorded()
    ensures !InClass(-1, NonRecordable) && !Recorded(-1)
  {}

  // ---------------------------------------------------------------- sessions and disconnects

  /** A new session starts from nothing; what it replaces becomes the recap if anything was counted. */
  lemma NewSessionResult(st: State, historyGuids: seq<string>)
    ensures var next := StartNewSession(st, historyGuids); var s := st.session;
      && next.session.generation == s.generation + 1 && next.session.guids == []
      && next.session.startedAt == 0 && next.session.lastEndedAt == 0
      && next.session.book.totals.wins == 0 && next.session.book.totals.losses == 0
      && NothingCounted(Stats(next.session.book.totals.counters, next.session.book.totals.peaks,
                              next.session.book.totals.fastest))
      && next.session.book.totals.teamGoals == 0 && next.session.book.totals.participations == 0
      && next.session.book.modes == map[]
      && (s.book.totals.wins + s.book.totals.losses <= 0 ==> next.recap == st.recap)
      && (s.book.totals.wins + s.book.totals.losses > 0 ==>
            && next.recap.Some? && next.recap.value.book == s.book && next.recap.value.generation == s.generation
            && next.recap.value.account == st.live.me.primaryId
            && next.recap.value.guids == WithGuids(s.guids, historyGuids))
      && next.live == st.live && next.pending == st.pending && next.finalized == st.finalized
      && next.nextGeneration == st.nextGeneration
  {
    hide WithGuids;
    forall c: Counter ensures NO_TOTALS.counters.Of(c) == 0 {}
    forall p: Peak ensures NO_TOTALS.peaks.Of(p) == 0.0 {}
  }

  /** The GUIDs of a recap: its session's, then those of the history that were missing, each once, none unknown. */
  lemma {:induction false} WithGuidsMeans(guids: seq<string>, more: seq<string>)
    ensures var all := WithGuids(guids, more);
      && guids <= all && (forall guid :: guid in all <==> guid in guids || (guid in more && guid != ""))
      && ((forall i, j | 0 <= i < j < |guids| :: guids[i] != guids[j]) ==>
            forall i, j | 0 <= i < j < |all| :: all[i] != all[j])
    decreases |more|
  {
    if more != [] {
      WithGuidsMeans(WithGuid(guids, more[0]), more[1..]);
      assert more == [more[0]] + more[1..];
      assert forall guid :: guid in WithGuid(guids, more[0]) <==> guid in guids || (guid == more[0] && guid != "");
    }
  }

  /** A recap without an account takes that of the first late match saved into it. */
  lemma LateMatchNamesRecap(st: State, guid: string, won: bool)
    requires st.recap.Some? && Confirm(st, guid, won).fx.save.Some? && guid in st.pending
    requires st.pending[guid].sessionGeneration == st.recap.value.generation != st.session.generation
    ensures var next := Confirm(st, guid, won).st; var account := st.recap.value.account;
      && next.recap.Some? && next.recap.value.generation == st.recap.value.generation
      && next.recap.value.account == (if account == "" then st.pending[guid].me.primaryId else account)
      && next.session == st.session
  {
    hide ClassifyMatchEnd, AddMatch, WithGuid;
  }

  /** Losing the connection for good forgets the match, not its lifecycle number or the records. */
  lemma ClearedResult(st: State)
    ensures var next := ClearActive(st);
      && !next.live.inMatch && next.live.guid == "" && next.live.overtime == None
      && next.live.ctx.playlistId == -1 && next.live.ctx.arenaName == "" && next.live.ctx.arenaAsset == ""
      && next.live.play.score == Score(0, 0) && next.live.play.roster == map[] && NothingCounted(next.live.play.stats)
      && next.live.me.team == -1 && next.live.me.primaryId == st.live.me.primaryId && !next.live.matchFinalized
      && next.live.generation == st.live.generation && next.live.blocked == st.live.blocked
      && next.live.result.wasVoid == st.live.result.wasVoid && next.live.result.reason == st.live.result.reason
      && next.live.result.summary.overtime == 0.0 && SameRecords(next, st) && next.nextGeneration == st.nextGeneration
  {
    hide NothingCounted;
    ResetIsFresh(st.live, "", "");
  }

  /** A disconnect during a match blocks it until it is named; nothing else changes. */
  lemma DisconnectResult(st: State)
    ensures var next := Disconnected(st);
      && (next.live.blocked <==> st.live.blocked || (st.live.inMatch && !st.live.matchFinalized))
      && next == st.(live := st.live.(blocked := next.live.blocked))
  {}

  /** What the remaining events change, and that they change nothing else. */
  lemma OtherEventsResult(st: State, nowUnixMs: int, stats: Stats, roster: Roster, overtime: Option<real>,
                          primaryId: string, team: int)
    ensures Step(st, OnReplayCreated, nowUnixMs).st == st.(live := st.live.(nonLiveReplay := true, inReplay := true))
    ensures Step(st, OnRoundStarted, nowUnixMs).st == st.(live := st.live.(roundEverStarted := true))
    ensures Step(st, OnCounters(stats, roster), nowUnixMs).st
         == st.(live := st.live.(play := Play(st.live.play.score, stats, roster, st.live.play.matchRoster)))
    ensures Step(st, OnOvertimeClock(overtime), nowUnixMs).st == st.(live := st.live.(overtime := overtime))
    ensures Step(st, SelectedAccount(primaryId, team), nowUnixMs).st
         == st.(live := st.live.(me := st.live.me.(primaryId := primaryId, team := team)))
  {}
}
