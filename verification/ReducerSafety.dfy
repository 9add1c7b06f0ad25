/**
 Safety of the match reducer over every run: the two validators agree, a GUID and
 a match lifecycle are saved at most once, a parked match that is not terminal
 always saves when it is resolved, and parked and live matches do not disturb
 each other.
 */
module ReducerSafety {
  import opened Options
  import opened Teams
  import opened Gamemodes
  import opened Playlists
  import opened SessionTypes
  import opened ReducerSpec

  // ---------------------------------------------------------------- the two validators

  /** A mode that allows an early exit rules out every context that would void the match. */
  lemma TrackedModeIsRecordable(ctx: Context, maxPlayers: int, rosterSize: nat, category: Category)
    requires IsTrackedRankedEarlyExit(InferMode(ctx, maxPlayers, rosterSize, category))
    ensures HasAuthoritativeId(ctx.playlistId) ==> IsKnown(ctx.playlistId)
    ensures NonRecordableReason(ctx.playlistId).None?
    ensures !HasAuthoritativeId(ctx.playlistId) ==> !ctx.casual && !ctx.nonRec
    ensures ExpectedTeamSize(InferMode(ctx, maxPlayers, rosterSize, category)) > 0
  {
    PlaylistTable(ctx.playlistId);
  }

  /**
   A live match may exit early exactly when its capture would be saved for either
   winner and the extra demands of an early exit hold.
   */
  lemma ValidatorsAgree(st: State, nowUnixMs: int, winner: int)
    requires IsTeam(winner)
    ensures
      var live := st.live;
      EarlyExit(live).ValidExit? <==>
        && ClassifyMatchEnd(Capture(st, nowUnixMs), winner).persist
        && live.inMatch && !live.matchFinalized && !live.me.wasSpectator && live.guid != "" && !live.ctx.excluded
        && IsTrackedRankedEarlyExit(LiveMode(live))
  {
    hide InferMode, IsKnown, NonRecordableReason, ExpectedTeamSize, IsTrackedRankedEarlyExit;
    var live := st.live;
    if IsTrackedRankedEarlyExit(LiveMode(live)) {
      TrackedModeIsRecordable(live.ctx, live.lobby.maxPlayers, |live.play.roster|, live.ctx.category);
    }
  }

  /** Whoever won, the match would be saved, and the result is the local team's. */
  ghost predicate Parkable(m: Captured) {
    && IsTeam(m.me.team) && m.guid != ""
    && forall winner | IsTeam(winner) :: ClassifyMatchEnd(m, winner) == Decision(true, winner == m.me.team, NoReason)
  }

  lemma ValidExitIsParkable(st: State, nowUnixMs: int)
    requires EarlyExit(st.live).ValidExit?
    ensures Parkable(Capture(st, nowUnixMs).(mode := EarlyExit(st.live).mode))
  {
    ValidatorsAgree(st, nowUnixMs, 0);
    ValidatorsAgree(st, nowUnixMs, 1);
  }

  // ---------------------------------------------------------------- the invariant

  ghost predicate Terminal(finalized: set<string>, guid: string) {
    guid != "" ==> guid in finalized
  }

  /** What holds of every saved match; `log` lists the saves of the run so far. */
  ghost predicate SavedOk(st: State, m: Captured) {
    && Terminal(st.finalized, m.guid)
    && m.generation <= st.live.generation
    && (m.generation == st.live.generation && st.live.inMatch ==>
          st.live.matchFinalized && st.live.roundEverStarted)
  }

  ghost predicate ParkedOk(st: State, guid: string, m: Captured) {
    && m.guid == guid && Parkable(m)
    && m.generation <= st.live.generation
    && (m.generation == st.live.generation ==> !st.live.inMatch)
  }

  ghost predicate NotSaved(log: seq<Saved>, generation: nat) {
    forall i | 0 <= i < |log| :: log[i].match_.generation != generation
  }

  ghost predicate NotParked(pending: map<string, Captured>, generation: nat) {
    forall guid | guid in pending :: pending[guid].generation != generation
  }

  ghost predicate Safe(st: State, log: seq<Saved>) {
    && st.live.generation == st.nextGeneration
    && (forall i | 0 <= i < |log| :: SavedOk(st, log[i].match_))
    && (forall i, j | 0 <= i < j < |log| :: DifferentMatches(log[i].match_, log[j].match_))
    && (forall guid | guid in st.pending ::
          ParkedOk(st, guid, st.pending[guid]) && NotSaved(log, st.pending[guid].generation))
    && (forall g, h | g in st.pending && h in st.pending && g != h ::
          st.pending[g].generation != st.pending[h].generation)
  }

  /** Distinct lifecycles, and distinct GUIDs unless both are unknown. */
  ghost predicate DifferentMatches(m: Captured, n: Captured) {
    m.generation != n.generation && (m.guid != "" ==> m.guid != n.guid)
  }

  ghost function Log(log: seq<Saved>, fx: Effects): seq<Saved> {
    if fx.save.Some? then log + [fx.save.value] else log
  }

  /** A step that saves nothing, parks nothing and only touches the live match and the sessions. */
  ghost predicate LiveStep(st: State, next: State) {
    && next.pending == st.pending && next.finalized == st.finalized
    && next.live.generation == next.nextGeneration
    && (next.live.generation == st.live.generation
        || (next.live.generation == st.live.generation + 1 && next.live.inMatch))
    && (next.live.generation == st.live.generation && next.live.inMatch ==>
          && st.live.inMatch
          && (st.live.matchFinalized && st.live.roundEverStarted ==>
                next.live.matchFinalized && next.live.roundEverStarted))
  }

  lemma LiveStepIsSafe(st: State, next: State, log: seq<Saved>)
    requires Safe(st, log) && LiveStep(st, next)
    ensures Safe(next, log)
  {
    forall i | 0 <= i < |log| ensures SavedOk(next, log[i].match_) {
      assert SavedOk(st, log[i].match_);
    }
    forall guid | guid in next.pending ensures ParkedOk(next, guid, next.pending[guid]) {
      assert ParkedOk(st, guid, st.pending[guid]);
    }
  }

  // ---------------------------------------------------------------- finalizing keeps it

  /** `m` may be finalized: its lifecycle was not saved or parked, and it is the current one if that is still open. */
  ghost predicate Ready(st: State, m: Captured, log: seq<Saved>) {
    && m.generation <= st.live.generation
    && NotSaved(log, m.generation) && NotParked(st.pending, m.generation)
    && (m.generation == st.live.generation && st.live.inMatch ==>
          IsCurrent(st.live, m) && m.roundEverStarted == st.live.roundEverStarted)
  }

  /**
   What finalizing `m` does to the fields the invariant reads. Only a match that was not
   terminal can be saved, and being saved makes it terminal.
   */
  ghost predicate Finalizes(st: State, m: Captured, next: State, saved: bool) {
    && next.pending == st.pending && next.nextGeneration == st.nextGeneration
    && next.live.generation == st.live.generation && next.live.inMatch == st.live.inMatch
    && next.live.guid == st.live.guid && next.live.roundEverStarted == st.live.roundEverStarted
    && st.finalized <= next.finalized
    && (st.live.matchFinalized ==> next.live.matchFinalized)
    && (saved ==>
          && (m.guid != "" ==> m.guid !in st.finalized)
          && Terminal(next.finalized, m.guid) && m.roundEverStarted
          && (IsCurrent(st.live, m) ==> next.live.matchFinalized))
  }

  lemma FinalizeFrame(st: State, m: Captured, winner: int, source: Source, enqueue: bool, fx: Effects)
    ensures var out := FinalizeCaptured(st, m, winner, source, enqueue, fx);
            && (out.fx.save == fx.save || out.fx.save == Some(Saved(m, winner, winner == m.me.team)))
            && Finalizes(st, m, out.st, out.fx.save != fx.save)
  {
  }

  lemma FinalizesIsSafe(st: State, m: Captured, next: State, saved: Option<Saved>, log: seq<Saved>)
    requires Safe(st, log) && Ready(st, m, log)
    requires Finalizes(st, m, next, saved.Some?) && (saved.Some? ==> saved.value.match_ == m)
    ensures Safe(next, if saved.Some? then log + [saved.value] else log)
  {
    var log' := if saved.Some? then log + [saved.value] else log;
    forall i | 0 <= i < |log|
      ensures SavedOk(next, log[i].match_) && (saved.Some? ==> DifferentMatches(log[i].match_, m))
    {
      assert SavedOk(st, log[i].match_);
    }
    forall guid | guid in next.pending
      ensures ParkedOk(next, guid, next.pending[guid]) && NotSaved(log', next.pending[guid].generation)
    {
      assert ParkedOk(st, guid, st.pending[guid]);
    }
  }

  lemma FinalizeIsSafe(st: State, m: Captured, winner: int, source: Source, enqueue: bool, fx: Effects, log: seq<Saved>)
    requires Safe(st, log) && Ready(st, m, log) && fx.save.None?
    ensures var out := FinalizeCaptured(st, m, winner, source, enqueue, fx);
            Safe(out.st, Log(log, out.fx))
  {
    var out := FinalizeCaptured(st, m, winner, source, enqueue, fx);
    FinalizeFrame(st, m, winner, source, enqueue, fx);
    FinalizesIsSafe(st, m, out.st, out.fx.save, log);
  }

  lemma CaptureIsReady(st: State, nowUnixMs: int, log: seq<Saved>)
    requires Safe(st, log) && st.live.inMatch && !st.live.matchFinalized
    ensures Ready(st, Capture(st, nowUnixMs), log)
  {
    forall i | 0 <= i < |log| ensures log[i].match_.generation != st.live.generation {
      assert SavedOk(st, log[i].match_);
    }
    forall guid | guid in st.pending ensures st.pending[guid].generation != st.live.generation {
      assert ParkedOk(st, guid, st.pending[guid]);
    }
  }

  lemma FinalizeMatchIsSafe(st: State, winner: int, source: Source, nowUnixMs: int, fx: Effects, log: seq<Saved>)
    requires Safe(st, log) && st.live.inMatch && fx.save.None?
    ensures var out := FinalizeMatch(st, winner, source, nowUnixMs, fx);
            Safe(out.st, Log(log, out.fx))
  {
    if !st.live.matchFinalized {
      CaptureIsReady(st, nowUnixMs, log);
      FinalizeIsSafe(st, Capture(st, nowUnixMs), winner, source, true, fx, log);
    }
  }

  /** Taking a match out of the parked ones makes it ready to be finalized. */
  lemma UnparkIsReady(st: State, guid: string, play: Play, log: seq<Saved>)
    requires Safe(st, log) && guid in st.pending
    ensures var rest := st.(pending := st.pending - {guid});
            Safe(rest, log) && Ready(rest, st.pending[guid].(play := play), log)
  {
    var rest := st.(pending := st.pending - {guid});
    assert ParkedOk(st, guid, st.pending[guid]);
    forall i | 0 <= i < |log| ensures SavedOk(rest, log[i].match_) {
      assert SavedOk(st, log[i].match_);
    }
    forall g | g in rest.pending ensures ParkedOk(rest, g, rest.pending[g]) {
      assert ParkedOk(st, g, st.pending[g]);
    }
  }

  // ---------------------------------------------------------------- each handler keeps it

  lemma AttachIsSafe(st: State, guid: string, log: seq<Saved>)
    requires Safe(st, log)
    ensures Safe(AttachTerminalGuid(st, guid), log)
  {
    LiveStepIsSafe(st, AttachTerminalGuid(st, guid), log);
  }

  lemma MatchEndedIsSafe(st: State, e: EndEvent, nowUnixMs: int, log: seq<Saved>)
    requires Safe(st, log)
    ensures var out := MatchEnded(st, e, nowUnixMs);
            Safe(out.st, Log(log, out.fx))
  {
    if e.guid != "" && e.guid in st.pending {
      if IsTeam(e.winner) {
        var parked := st.pending[e.guid];
        var m := parked.(play := WithScore(parked.play, e.scores));
        var rest := st.(pending := st.pending - {e.guid});
        UnparkIsReady(st, e.guid, m.play, log);
        var forfeit := ForfeitSignal(e.forfeits, m.me.team) && e.winner != m.me.team;
        FinalizeIsSafe(rest, m, e.winner, if forfeit then FromLocalForfeit else FromMatchEnded, false, NO_EFFECTS, log);
      }
    } else {
      var st1 := AttachTerminalGuid(st, e.guid);
      AttachIsSafe(st, e.guid, log);
      if EndsCurrent(st1, e) {
        var st2 := st1.(live := st1.live.(play := WithScore(st1.live.play, e.scores)));
        LiveStepIsSafe(st1, st2, log);
        var forfeit := ForfeitSignal(e.forfeits, st2.live.me.team) && e.winner != st2.live.me.team;
        FinalizeMatchIsSafe(st2, e.winner, if forfeit then FromLocalForfeit else FromMatchEnded, nowUnixMs,
                            NO_EFFECTS, log);
      }
    }
  }

  lemma ConfirmIsSafe(st: State, guid: string, won: bool, log: seq<Saved>)
    requires Safe(st, log)
    ensures var out := Confirm(st, guid, won);
            Safe(out.st, Log(log, out.fx))
  {
    hide FinalizeCaptured, Safe;
    if guid in st.pending && guid !in st.finalized {
      var m := st.pending[guid];
      var winner := if IsTeam(m.me.team) then (if won then m.me.team else 1 - m.me.team) else -1;
      UnparkIsReady(st, guid, m.play, log);
      FinalizeIsSafe(st.(pending := st.pending - {guid}), m, winner, FromTracker, false, NO_EFFECTS, log);
    }
  }

  lemma MarkVoidIsSafe(st: State, reason: Reason, fx: Effects, log: seq<Saved>)
    requires Safe(st, log) && fx.save.None?
    ensures var out := MarkVoid(st, reason, fx);
            out.fx.save.None? && Safe(out.st, log)
  {
    var out := MarkVoid(st, reason, fx);
    forall i | 0 <= i < |log| ensures SavedOk(out.st, log[i].match_) {
      assert SavedOk(st, log[i].match_);
    }
    forall guid | guid in out.st.pending ensures ParkedOk(out.st, guid, out.st.pending[guid]) {
      assert ParkedOk(st, guid, st.pending[guid]);
    }
  }

  /** Parking and leaving are one step: a parked match is never the one still being played. */
  ghost predicate Parks(st: State, m: Captured, next: State) {
    && next.pending == (if m.guid in st.pending then st.pending else st.pending[m.guid := m])
    && next.finalized == st.finalized && next.nextGeneration == st.nextGeneration
    && next.live.generation == st.live.generation && !next.live.inMatch
  }

  lemma ParksIsSafe(st: State, m: Captured, next: State, log: seq<Saved>)
    requires Safe(st, log) && Ready(st, m, log) && Parkable(m) && Parks(st, m, next)
    ensures Safe(next, log)
  {
    forall i | 0 <= i < |log| ensures SavedOk(next, log[i].match_) {
      assert SavedOk(st, log[i].match_);
    }
    forall guid | guid in next.pending
      ensures ParkedOk(next, guid, next.pending[guid]) && NotSaved(log, next.pending[guid].generation)
    {
      if guid in st.pending { assert ParkedOk(st, guid, st.pending[guid]); }
    }
  }

  lemma LeaveIsSafe(st: State, log: seq<Saved>)
    requires Safe(st, log)
    ensures Safe(st.(live := LeaveMatch(st.live)), log)
  {
    LiveStepIsSafe(st, st.(live := LeaveMatch(st.live)), log);
  }

  lemma ParkAndLeaveIsSafe(st: State, nowUnixMs: int, m: Captured, refresh: Refresh, fx: Effects, log: seq<Saved>)
    requires Safe(st, log) && EarlyExit(st.live).ValidExit?
    requires m == Capture(st, nowUnixMs).(mode := EarlyExit(st.live).mode)
    ensures var next := Park(st, m, refresh, fx).st;
            Safe(next.(live := LeaveMatch(next.live)), log)
  {
    var next := Park(st, m, refresh, fx).st;
    CaptureIsReady(st, nowUnixMs, log);
    ValidExitIsParkable(st, nowUnixMs);
    ParksIsSafe(st, m, next.(live := LeaveMatch(next.live)), log);
  }

  lemma VoidAndLeaveIsSafe(st: State, reason: Reason, log: seq<Saved>)
    requires Safe(st, log) && st.live.inMatch
    ensures var out := MarkVoid(st, reason, NO_EFFECTS);
            Safe(out.st.(live := LeaveMatch(out.st.live)), Log(log, out.fx))
  {
    var out := MarkVoid(st, reason, NO_EFFECTS);
    MarkVoidIsSafe(st, reason, NO_EFFECTS, log);
    LeaveIsSafe(out.st, log);
  }

  lemma FinalizeAndLeaveIsSafe(st: State, winner: int, source: Source, nowUnixMs: int, log: seq<Saved>)
    requires Safe(st, log) && st.live.inMatch
    ensures var out := FinalizeMatch(st, winner, source, nowUnixMs, NO_EFFECTS);
            Safe(out.st.(live := LeaveMatch(out.st.live)), Log(log, out.fx))
  {
    var out := FinalizeMatch(st, winner, source, nowUnixMs, NO_EFFECTS);
    FinalizeMatchIsSafe(st, winner, source, nowUnixMs, NO_EFFECTS, log);
    LeaveIsSafe(out.st, Log(log, out.fx));
  }

  /** Safe once the live match is left and the step's save is logged. */
  ghost predicate SafeAfter(out: Out, log: seq<Saved>) {
    Safe(out.st.(live := LeaveMatch(out.st.live)), Log(log, out.fx))
  }

  lemma ParkOrVoidIsSafe(st: State, nowUnixMs: int, mode: Mode, log: seq<Saved>)
    requires Safe(st, log) && st.live.inMatch && EarlyExit(st.live) == ValidExit(mode)
    ensures var m := Capture(st, nowUnixMs).(mode := mode); var refresh := BuildRefresh(m, false);
      SafeAfter(if refresh.None? then MarkVoid(st, MissingTrackerIdentity, NO_EFFECTS)
                else Park(st, m, refresh.value, NO_EFFECTS), log)
  {
    var m := Capture(st, nowUnixMs).(mode := mode);
    var refresh := BuildRefresh(m, false);
    if refresh.None? {
      VoidAndLeaveIsSafe(st, MissingTrackerIdentity, log);
    } else {
      ParkAndLeaveIsSafe(st, nowUnixMs, m, refresh.value, NO_EFFECTS, log);
    }
  }

  lemma ResolveWithoutWinnerIsSafe(st: State, nowUnixMs: int, log: seq<Saved>)
    requires Safe(st, log) && st.live.inMatch
    ensures SafeAfter(ResolveWithoutWinner(st, nowUnixMs, NO_EFFECTS), log)
  {
    hide Safe, EarlyExit, Capture, BuildRefresh, FinalizeMatch, MarkVoid, Park, LeaveMatch;
    match EarlyExit(st.live)
    case InvalidExit(reason) => VoidAndLeaveIsSafe(st, reason, log);
    case ValidExit(mode) =>
      if st.live.me.forfeit {
        FinalizeAndLeaveIsSafe(st, 1 - st.live.me.team, FromLocalForfeit, nowUnixMs, log);
      } else {
        ParkOrVoidIsSafe(st, nowUnixMs, mode, log);
      }
  }

  lemma ResolveDestroyedIsSafe(st: State, winner: int, nowUnixMs: int, log: seq<Saved>)
    requires Safe(st, log) && st.live.inMatch
    ensures var out := ResolveDestroyed(st, winner, nowUnixMs, NO_EFFECTS);
            Safe(out.st.(live := LeaveMatch(out.st.live)), Log(log, out.fx))
  {
    if st.live.matchFinalized {
      LeaveIsSafe(st, log);
    } else if IsTeam(winner) {
      FinalizeAndLeaveIsSafe(st, winner, if st.live.me.forfeit && winner != st.live.me.team then FromLocalForfeit
                                         else FromMatchDestroyed, nowUnixMs, log);
    } else {
      ResolveWithoutWinnerIsSafe(st, nowUnixMs, log);
    }
  }

  lemma MatchDestroyedIsSafe(st: State, e: DestroyEvent, nowUnixMs: int, log: seq<Saved>)
    requires Safe(st, log)
    ensures var out := MatchDestroyed(st, e, nowUnixMs);
            Safe(out.st, Log(log, out.fx))
  {
    var st1 := AttachTerminalGuid(st, e.guid);
    AttachIsSafe(st, e.guid, log);
    if !DestroyIgnored(st1, e.guid) {
      var st2 := st1.(live := DestroySeen(st1.live, e));
      LiveStepIsSafe(st1, st2, log);
      if st2.live.inMatch {
        ResolveDestroyedIsSafe(st2, e.winner.GetOr(-1), nowUnixMs, log);
      }
    }
  }

  lemma ArenaIsLiveStep(st: State, name: string, asset: string, keepPlaylist: bool)
    requires st.live.generation == st.nextGeneration
    ensures LiveStep(st, ArenaSeen(st, name, asset, keepPlaylist))
  {
  }

  lemma PlaylistIsLiveStep(st: State, id: int)
    requires st.live.generation == st.nextGeneration
    ensures LiveStep(st, PlaylistSeen(st, id))
  {
  }

  lemma UpdateFlagsIsSafe(st: State, e: UpdateEvent, log: seq<Saved>)
    requires Safe(st, log)
    ensures Safe(UpdateFlags(st, e), log)
  {
    LiveStepIsSafe(st, UpdateFlags(st, e), log);
  }

  lemma UpdateArenaIsSafe(st: State, e: UpdateEvent, log: seq<Saved>)
    requires Safe(st, log)
    ensures Safe(UpdateArena(st, e), log)
  {
    if e.arena.Some? {
      ArenaIsLiveStep(st, e.arena.value.0, e.arena.value.1, e.playlistId.None?);
      LiveStepIsSafe(st, UpdateArena(st, e), log);
    }
  }

  lemma UpdatePlaylistIsSafe(st: State, e: UpdateEvent, log: seq<Saved>)
    requires Safe(st, log)
    ensures Safe(UpdatePlaylist(st, e), log)
  {
    if e.playlistId.Some? {
      PlaylistIsLiveStep(st, e.playlistId.value);
      LiveStepIsSafe(st, UpdatePlaylist(st, e), log);
    }
  }

  lemma ReadingsIsSafe(st: State, e: UpdateEvent, log: seq<Saved>)
    requires Safe(st, log)
    ensures Safe(st.(live := Readings(st.live, e)), log)
  {
    LiveStepIsSafe(st, st.(live := Readings(st.live, e)), log);
  }

  /** An update can open two lifecycles in a row: a new arena, then a new playlist. */
  lemma UpdateIsSafe(st: State, e: UpdateEvent, log: seq<Saved>)
    requires Safe(st, log)
    ensures Safe(UpdateSeen(st, e), log)
  {
    var st0 := UpdateFlags(st, e);
    var st1 := UpdateArena(st0, e);
    UpdateFlagsIsSafe(st, e, log);
    UpdateArenaIsSafe(st0, e, log);
    UpdatePlaylistIsSafe(st1, e, log);
    ReadingsIsSafe(UpdatePlaylist(st1, e), e, log);
  }

  predicate ChangesOnlyLive(e: Event) {
    !e.OnMatchEnded? && !e.OnMatchDestroyed? && !e.ConfirmDestroyed? && !e.OnUpdate?
  }

  lemma SafeIsNumbered(st: State, log: seq<Saved>)
    requires Safe(st, log)
    ensures st.live.generation == st.nextGeneration
  {}

  lemma OtherStepIsLive(st: State, e: Event, nowUnixMs: int)
    requires st.live.generation == st.nextGeneration && ChangesOnlyLive(e)
    ensures LiveStep(st, Step(st, e, nowUnixMs).st) && Step(st, e, nowUnixMs).fx.save.None?
  {
    hide NonRecordableContext, WithGuids;
  }

  lemma OtherStepIsSafe(st: State, e: Event, nowUnixMs: int, log: seq<Saved>)
    requires Safe(st, log) && ChangesOnlyLive(e)
    ensures var out := Step(st, e, nowUnixMs);
            Safe(out.st, Log(log, out.fx))
  {
    hide Safe, Step, LiveStep;
    SafeIsNumbered(st, log);
    OtherStepIsLive(st, e, nowUnixMs);
    LiveStepIsSafe(st, Step(st, e, nowUnixMs).st, log);
  }

  /** Every step keeps the invariant, with the save it emits (if any) appended to the log. */
  lemma StepIsSafe(st: State, e: Event, nowUnixMs: int, log: seq<Saved>)
    requires Safe(st, log)
    ensures var out := Step(st, e, nowUnixMs);
            Safe(out.st, Log(log, out.fx))
  {
    hide MatchEnded, MatchDestroyed, Confirm, UpdateSeen, Safe;
    match e
    case OnMatchEnded(end) => MatchEndedIsSafe(st, end, nowUnixMs, log);
    case OnMatchDestroyed(destroy) => MatchDestroyedIsSafe(st, destroy, nowUnixMs, log);
    case ConfirmDestroyed(guid, won) => ConfirmIsSafe(st, guid, won, log);
    case OnUpdate(update) => UpdateIsSafe(st, update, log);
    case _ => OtherStepIsSafe(st, e, nowUnixMs, log);
  }
}
