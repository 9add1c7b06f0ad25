/**
 Reachable states, built event by event. The results that need an input to show that
 something does happen start from these.
 */
module ReducerScenes {
  import opened Options
  import opened Teams
  import opened Gamemodes
  import opened Playlists
  import opened SessionTypes
  import opened ReducerSpec
  import opened ReducerSafety
  import opened ReducerRuns

  ghost predicate Reaches(t: Trace) {
    exists events :: Run(events) == t
  }

  lemma ReachesStart()
    ensures Reaches(START)
  {
    assert Run([]) == START;
  }

  lemma ReachesNext(t: Trace, e: Event, nowUnixMs: int)
    requires Reaches(t)
    ensures Reaches(Next(t, Timed(e, nowUnixMs)))
  {
    hide Next;
    var events :| Run(events) == t;
    var longer := events + [Timed(e, nowUnixMs)];
    assert longer[..|longer| - 1] == events;
    assert Run(longer) == Next(t, Timed(e, nowUnixMs));
  }

  // ---------------------------------------------------------------- a ranked match that is being played

  const LOCAL_ID := "Steam|1|0"
  const LOCAL_ROSTER: Roster := map[LOCAL_ID := Player(0, 0)]

  const RANKED_UPDATE := UpdateEvent(None, Some(11), false, false, None, [], false, NoReason, false, None,
    Observed(LOCAL_ROSTER, map[], LOCAL_ID, 0, CatBest, CatBest, NO_PLAY.stats, true, Score(1, 1)))

  function Ended(guid: string): EndEvent {
    EndEvent(guid, 0, None, [])
  }

  function Left(guid: string): DestroyEvent {
    DestroyEvent(guid, None, None, [])
  }

  predicate Idle(st: State) {
    !st.live.inMatch && !st.live.nonLiveReplay
  }

  /** Just created. */
  function Created(st: State, guid: string): State {
    st.(live := Live(true, false, false, guid, st.nextGeneration + 1, false, false, false,
                     NewContext(st.live.ctx.arenaName, "", CatBest), NewLocalPlayer(st.live.me.primaryId),
                     NO_LOBBY, NO_PLAY, NO_RESULT, None),
        nextGeneration := st.nextGeneration + 1)
  }

  function Started(st: State, guid: string): State {
    var created := Created(st, guid);
    created.(live := created.live.(roundEverStarted := true))
  }

  /** Started, and seen in a ranked playlist with the local player on a team. */
  function Open(st: State, guid: string): State {
    st.(live := Live(true, false, false, guid, st.nextGeneration + 1, false, false, true,
                     NewContext(st.live.ctx.arenaName, "", CatBest).(playlistId := 11),
                     LocalPlayer(LOCAL_ID, 0, true, false, true, true, false),
                     NO_LOBBY, NO_PLAY.(roster := LOCAL_ROSTER), NO_RESULT, None),
        nextGeneration := st.nextGeneration + 1)
  }

  lemma CreatingIdle(st: State, guid: string)
    requires Idle(st)
    ensures MatchCreated(st, guid).st == Created(st, guid)
  {}

  lemma UpdateListsPlaylist(st: State, guid: string)
    ensures var started := Started(st, guid);
      UpdatePlaylist(UpdateArena(UpdateFlags(started, RANKED_UPDATE), RANKED_UPDATE), RANKED_UPDATE)
      == started.(live := WithPlaylist(started.live, 11))
  {
    assert !IsKnown(-1) && !IsNonRecordable(-1);
    hide IsKnown, IsNonRecordable;
    var started := Started(st, guid);
    assert UpdateFlags(started, RANKED_UPDATE) == started;
    assert !started.live.ctx.nonRec && started.live.ctx.playlistId == -1;
  }

  lemma RankedReadings(live: Live)
    requires live.ctx.playlistId == 11 && !live.inReplay
    ensures ContextSignals(live.ctx, RANKED_UPDATE)
         == Context(live.ctx.arenaName, live.ctx.arenaAsset, 11, live.ctx.category,
                    false, false, NoReason, false, NoReason)
  {}

  lemma UpdateOpens(st: State, guid: string)
    ensures UpdateSeen(Started(st, guid), RANKED_UPDATE) == Open(st, guid)
  {
    hide UpdatePlaylist, UpdateArena, UpdateFlags, ContextSignals;
    var started := Started(st, guid);
    UpdateListsPlaylist(st, guid);
    var listed := WithPlaylist(started.live, 11);
    RankedReadings(listed);
    assert WithForfeit(listed.me, []) == listed.me;
    assert Readings(listed, RANKED_UPDATE) == Open(st, guid).live;
  }

  lemma ReachesCreated(t: Trace, guid: string)
    requires Reaches(t) && Idle(t.st)
    ensures Reaches(t.(st := Created(t.st, guid)))
  {
    ReachesNext(t, OnMatchCreated(guid), 1);
    CreatingIdle(t.st, guid);
  }

  lemma ReachesStarted(t: Trace, guid: string)
    requires Reaches(t) && Idle(t.st)
    ensures Reaches(t.(st := Started(t.st, guid)))
  {
    ReachesCreated(t, guid);
    ReachesNext(t.(st := Created(t.st, guid)), OnRoundStarted, 1);
  }

  lemma ReachesOpen(t: Trace, guid: string)
    requires Reaches(t) && Idle(t.st)
    ensures Reaches(t.(st := Open(t.st, guid)))
  {
    hide UpdateSeen, Reaches;
    ReachesStarted(t, guid);
    ReachesNext(t.(st := Started(t.st, guid)), OnUpdate(RANKED_UPDATE), 1);
    UpdateOpens(t.st, guid);
  }

  // ---------------------------------------------------------------- leaving it, or ending it

  lemma OpenMayPark(st: State, guid: string)
    requires guid != ""
    ensures MayPark(Open(st, guid), -1, 1) && EarlyExit(Open(st, guid).live) == ValidExit(Doubles)
  {
    var next := Open(st, guid);
    assert LiveMode(next.live) == Doubles;
    assert EarlyExit(next.live) == ValidExit(Doubles);
  }

  /** Two states that differ only in the live match, what is parked and what is terminal. */
  ghost predicate SameBooks(st: State, next: State) {
    next.session == st.session && next.recap == st.recap && next.nextGeneration == st.nextGeneration
  }

  lemma LeavingCurrent(st: State, guid: string)
    requires guid != "" && st.live.inMatch && st.live.guid == guid && st.live.overtime == None
    ensures var out := ResolveDestroyed(st, -1, 1, NO_EFFECTS);
            MatchDestroyed(st, Left(guid), 1)
            == Out(out.st.(live := LeaveMatch(out.st.live)), out.fx.(pushDiscord := true))
  {
    hide ResolveDestroyed, LeaveMatch;
    assert WithForfeit(st.live.me, []) == st.live.me;
    assert st.(live := DestroySeen(st.live, Left(guid))) == st;
  }

  function ParkedOpen(st: State, guid: string): Captured {
    Capture(Open(st, guid), 1).(mode := Doubles)
  }

  lemma ParkOpen(st: State, guid: string)
    requires guid != ""
    ensures var open := Open(st, guid); var out := ResolveDestroyed(open, -1, 1, NO_EFFECTS);
      && out.st.pending == (if guid in st.pending then st.pending else st.pending[guid := ParkedOpen(st, guid)])
      && out.st.finalized == st.finalized && SameBooks(open, out.st) && out.fx.save.None?
      && out.st.live.generation == open.live.generation
  {
    hide EarlyExit, BuildRefresh, ProvisionalSave;
    OpenMayPark(st, guid);
  }

  /** Left without a result: parked for the tracker. */
  lemma LeavingOpenParks(st: State, guid: string)
    requires guid != ""
    ensures var open := Open(st, guid); var out := MatchDestroyed(open, Left(guid), 1);
      && out.st.pending == (if guid in st.pending then st.pending else st.pending[guid := ParkedOpen(st, guid)])
      && out.st.finalized == st.finalized && SameBooks(open, out.st) && out.fx.save.None? && Idle(out.st)
      && out.st.live.generation == open.live.generation
  {
    hide ResolveDestroyed, MatchDestroyed, ParkedOpen;
    LeavingCurrent(Open(st, guid), guid);
    ParkOpen(st, guid);
  }

  /** Left before the round started: void. */
  lemma LeavingCreatedVoids(st: State, guid: string)
    requires guid != ""
    ensures var created := Created(st, guid); var out := MatchDestroyed(created, Left(guid), 1);
      && out.st.pending == st.pending && out.st.finalized == st.finalized + {guid}
      && SameBooks(created, out.st) && out.fx.save.None? && Idle(out.st)
  {
    hide MatchDestroyed;
    var created := Created(st, guid);
    LeavingCurrent(created, guid);
    assert EarlyExit(created.live) == InvalidExit(RoundNeverStarted);
  }

  /** Won. */
  lemma EndingOpenWins(st: State, guid: string)
    requires guid != "" && guid !in st.pending && guid !in st.finalized
    ensures var open := Open(st, guid); var out := MatchEnded(open, Ended(guid), 1); var next := out.st;
      && out.fx.save == Some(Saved(Capture(open, 1), 0, true))
      && next.pending == st.pending && next.finalized == st.finalized + {guid} && next.recap == st.recap
      && next.session.generation == st.session.generation
      && next.session.book.totals.wins == st.session.book.totals.wins + 1
      && next.session.book.totals.losses == st.session.book.totals.losses
      && next.live.inMatch && next.live.matchFinalized && next.live.guid == guid && !next.live.nonLiveReplay
      && next.live.overtime.None?
  {
    hide TeamGoals, CountedTeamGoals, CountedParticipations, CountsForMode, BuildRefresh, LiveMode;
    var open := Open(st, guid);
    var m := Capture(open, 1);
    assert open.(live := open.live.(play := WithScore(open.live.play, None))) == open;
    assert ClassifyMatchEnd(m, 0) == Decision(true, true, NoReason);
  }

  /** Left after it was won: nothing more happens to it. */
  lemma LeavingFinalized(st: State, guid: string)
    requires guid != "" && st.live.inMatch && st.live.matchFinalized && st.live.guid == guid && st.live.overtime.None?
    ensures MatchDestroyed(st, Left(guid), 1)
         == Out(st.(live := LeaveMatch(st.live)), NO_EFFECTS.(pushDiscord := true))
  {
    LeavingCurrent(st, guid);
  }

  // ---------------------------------------------------------------- scenes

  /** A ranked match is opened and left, and waits for the tracker. */
  lemma SceneParked(t: Trace, guid: string) returns (next: Trace)
    requires Reaches(t) && Idle(t.st) && guid != ""
    ensures Reaches(next) && Idle(next.st) && next.log == t.log && SameBooks(Open(t.st, guid), next.st)
    ensures next.st.finalized == t.st.finalized
    ensures next.st.pending
         == (if guid in t.st.pending then t.st.pending else t.st.pending[guid := ParkedOpen(t.st, guid)])
  {
    hide MatchDestroyed, Reaches, ParkedOpen, Open;
    ReachesOpen(t, guid);
    var playing := t.(st := Open(t.st, guid));
    ReachesNext(playing, OnMatchDestroyed(Left(guid)), 1);
    next := Next(playing, Timed(OnMatchDestroyed(Left(guid)), 1));
    LeavingOpenParks(t.st, guid);
  }

  /** A ranked match is opened, won and left. */
  lemma SceneWon(t: Trace, guid: string) returns (next: Trace)
    requires Reaches(t) && Idle(t.st) && guid != "" && guid !in t.st.pending && guid !in t.st.finalized
    ensures Reaches(next) && Idle(next.st) && next.log == t.log + [Saved(Capture(Open(t.st, guid), 1), 0, true)]
    ensures next.st.pending == t.st.pending && next.st.finalized == t.st.finalized + {guid}
    ensures next.st.recap == t.st.recap && next.st.session.generation == t.st.session.generation
    ensures next.st.session.book.totals.wins == t.st.session.book.totals.wins + 1
    ensures next.st.session.book.totals.losses == t.st.session.book.totals.losses
  {
    hide MatchEnded, MatchDestroyed, Reaches, Open, Capture;
    ReachesOpen(t, guid);
    var playing := t.(st := Open(t.st, guid));
    EndingOpenWins(t.st, guid);
    ReachesNext(playing, OnMatchEnded(Ended(guid)), 1);
    var won := Next(playing, Timed(OnMatchEnded(Ended(guid)), 1));
    ReachesNext(won, OnMatchDestroyed(Left(guid)), 1);
    next := Next(won, Timed(OnMatchDestroyed(Left(guid)), 1));
    LeavingFinalized(won.st, guid);
  }

  /** A match is created and left before its round starts. */
  lemma SceneVoided(t: Trace, guid: string) returns (next: Trace)
    requires Reaches(t) && Idle(t.st) && guid != ""
    ensures Reaches(next) && Idle(next.st) && next.log == t.log && SameBooks(Created(t.st, guid), next.st)
    ensures next.st.pending == t.st.pending && next.st.finalized == t.st.finalized + {guid}
  {
    hide MatchDestroyed, Reaches, Created;
    ReachesCreated(t, guid);
    var created := t.(st := Created(t.st, guid));
    ReachesNext(created, OnMatchDestroyed(Left(guid)), 1);
    next := Next(created, Timed(OnMatchDestroyed(Left(guid)), 1));
    LeavingCreatedVoids(t.st, guid);
  }
}
