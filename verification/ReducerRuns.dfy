/**
 Whole runs of the reducer: any sequence of game events, tracker confirmations,
 session changes and disconnects, in any order, with any GUID present, missing or
 repeated.
 */
module ReducerRuns {
  import opened Options
  import opened Teams
  import opened Gamemodes
  import opened Playlists
  import opened SessionTypes
  import opened ReducerSpec
  import opened ReducerSafety

  datatype Timed = Timed(event: Event, nowUnixMs: int)

  /** The state after a run, and every match it saved, in order. */
  datatype Trace = Trace(st: State, log: seq<Saved>)

  ghost function Next(t: Trace, e: Timed): Trace {
    var out := Step(t.st, e.event, e.nowUnixMs);
    Trace(out.st, Log(t.log, out.fx))
  }

  ghost function After(t: Trace, events: seq<Timed>): Trace {
    if events == [] then t else Next(After(t, events[..|events| - 1]), events[|events| - 1])
  }

  const START := Trace(INITIAL, [])

  ghost function Run(events: seq<Timed>): Trace {
    After(START, events)
  }

  lemma {:induction false} RunIsSafe(events: seq<Timed>)
    ensures var t := Run(events); Safe(t.st, t.log)
  {
    if events == [] {
    } else {
      var last := events[|events| - 1];
      var before := Run(events[..|events| - 1]);
      RunIsSafe(events[..|events| - 1]);
      StepIsSafe(before.st, last.event, last.nowUnixMs, before.log);
    }
  }

  /** Every parked match is parked under its own GUID. */
  ghost predicate OwnGuids(st: State) {
    forall guid | guid in st.pending :: st.pending[guid].guid == guid
  }

  lemma RunOwnsGuids(events: seq<Timed>)
    ensures OwnGuids(Run(events).st)
  {
    RunIsSafe(events);
    var st := Run(events).st;
    forall guid | guid in st.pending ensures st.pending[guid].guid == guid {
      assert ParkedOk(st, guid, st.pending[guid]);
    }
  }

  /** No GUID and no match lifecycle is saved twice, and what was saved is terminal. */
  lemma SavedAtMostOnce(events: seq<Timed>)
    ensures var t := Run(events);
      && (forall i, j | 0 <= i < j < |t.log| && t.log[i].match_.guid != "" ::
            t.log[i].match_.guid != t.log[j].match_.guid)
      && (forall i, j | 0 <= i < j < |t.log| :: t.log[i].match_.generation != t.log[j].match_.generation)
      && (forall i | 0 <= i < |t.log| && t.log[i].match_.guid != "" :: t.log[i].match_.guid in t.st.finalized)
  {
    RunIsSafe(events);
    var t := Run(events);
    forall i, j | 0 <= i < j < |t.log|
      ensures t.log[i].match_.generation != t.log[j].match_.generation
      ensures t.log[i].match_.guid != "" ==> t.log[i].match_.guid != t.log[j].match_.guid
    {
      assert DifferentMatches(t.log[i].match_, t.log[j].match_);
    }
    forall i | 0 <= i < |t.log| && t.log[i].match_.guid != "" ensures t.log[i].match_.guid in t.st.finalized {
      assert SavedOk(t.st, t.log[i].match_);
    }
  }

  lemma UpdateKeepsSets(st: State, e: UpdateEvent)
    ensures var next := UpdateSeen(st, e); next.pending == st.pending && next.finalized == st.finalized
  {
    hide Readings, ResetMatch, StartLifecycle, NonRecordableContext, PlaylistLatched;
  }

  lemma OtherEventsKeepSets(st: State, e: Event, nowUnixMs: int)
    requires !e.OnMatchEnded? && !e.OnMatchDestroyed? && !e.ConfirmDestroyed?
    ensures var out := Step(st, e, nowUnixMs);
            out.st.pending == st.pending && out.st.finalized == st.finalized && out.fx.save.None?
  {
    hide UpdateSeen, ResetMatch, StartLifecycle, NonRecordableContext;
    if e.OnUpdate? { UpdateKeepsSets(st, e.update); }
  }

  // ---------------------------------------------------------------- terminal GUIDs stay terminal

  /** `guid` is the terminal GUID a step may not save again. */
  lemma FinalizeRespectsTerminal(st: State, m: Captured, winner: int, source: Source, enqueue: bool, guid: string)
    requires guid in st.finalized && guid != ""
    ensures var out := FinalizeCaptured(st, m, winner, source, enqueue, NO_EFFECTS);
            guid in out.st.finalized && (out.fx.save.Some? ==> out.fx.save.value.match_.guid != guid)
  {
    FinalizeFrame(st, m, winner, source, enqueue, NO_EFFECTS);
  }

  /** A GUID recorded terminal, saved or voided, stays so and is not saved by any later step. */
  lemma TerminalIsForever(st: State, e: Event, nowUnixMs: int, guid: string)
    requires guid in st.finalized && guid != ""
    ensures var out := Step(st, e, nowUnixMs);
            guid in out.st.finalized && (out.fx.save.Some? ==> out.fx.save.value.match_.guid != guid)
  {
    hide MatchEnded, MatchDestroyed, FinalizeCaptured, UpdateSeen, MatchCreated, StartNewSession, ClearActive;
    match e
    case OnMatchEnded(end) => EndRespectsTerminal(st, end, nowUnixMs, guid);
    case OnMatchDestroyed(destroy) => DestroyRespectsTerminal(st, destroy, nowUnixMs, guid);
    case ConfirmDestroyed(confirmed, won) =>
      if confirmed in st.pending {
        var m := st.pending[confirmed];
        var winner := if IsTeam(m.me.team) then (if won then m.me.team else 1 - m.me.team) else -1;
        FinalizeRespectsTerminal(st.(pending := st.pending - {confirmed}), m, winner, FromTracker, false, guid);
      }
    case _ => OtherEventsKeepSets(st, e, nowUnixMs);
  }

  lemma ResolveRespectsTerminal(st: State, e: EndEvent, guid: string)
    requires guid in st.finalized && guid != "" && e.guid in st.pending
    ensures var out := ResolveByEnd(st, e);
            guid in out.st.finalized && (out.fx.save.Some? ==> out.fx.save.value.match_.guid != guid)
  {
    var parked := st.pending[e.guid];
    var m := parked.(play := WithScore(parked.play, e.scores));
    var forfeit := ForfeitSignal(e.forfeits, m.me.team) && e.winner != m.me.team;
    FinalizeRespectsTerminal(st.(pending := st.pending - {e.guid}), m, e.winner,
                             if forfeit then FromLocalForfeit else FromMatchEnded, false, guid);
  }

  lemma EndRespectsTerminal(st: State, e: EndEvent, nowUnixMs: int, guid: string)
    requires guid in st.finalized && guid != ""
    ensures var out := MatchEnded(st, e, nowUnixMs);
            guid in out.st.finalized && (out.fx.save.Some? ==> out.fx.save.value.match_.guid != guid)
  {
    if e.guid != "" && e.guid in st.pending {
      ResolveRespectsTerminal(st, e, guid);
    } else {
      LiveEndRespectsTerminal(st, e, nowUnixMs, guid);
    }
  }

  lemma LiveEndRespectsTerminal(st: State, e: EndEvent, nowUnixMs: int, guid: string)
    requires guid in st.finalized && guid != "" && !(e.guid != "" && e.guid in st.pending)
    ensures var out := MatchEnded(st, e, nowUnixMs);
            guid in out.st.finalized && (out.fx.save.Some? ==> out.fx.save.value.match_.guid != guid)
  {
    var st1 := AttachTerminalGuid(st, e.guid);
    var st2 := st1.(live := st1.live.(play := WithScore(st1.live.play, e.scores)));
    var forfeit := ForfeitSignal(e.forfeits, st2.live.me.team) && e.winner != st2.live.me.team;
    FinalizeRespectsTerminal(st2, Capture(st2, nowUnixMs), e.winner,
                             if forfeit then FromLocalForfeit else FromMatchEnded, true, guid);
  }

  lemma DestroyRespectsTerminal(st: State, e: DestroyEvent, nowUnixMs: int, guid: string)
    requires guid in st.finalized && guid != ""
    ensures var out := MatchDestroyed(st, e, nowUnixMs);
            guid in out.st.finalized && (out.fx.save.Some? ==> out.fx.save.value.match_.guid != guid)
  {
    hide FinalizeCaptured, Capture;
    var st1 := AttachTerminalGuid(st, e.guid);
    var st2 := st1.(live := DestroySeen(st1.live, e));
    var winner := e.winner.GetOr(-1);
    var m := Capture(st2, nowUnixMs);
    if IsTeam(winner) {
      FinalizeRespectsTerminal(st2, m, winner,
                               if st2.live.me.forfeit && winner != st2.live.me.team then FromLocalForfeit
                               else FromMatchDestroyed, true, guid);
    } else {
      FinalizeRespectsTerminal(st2, m, 1 - st2.live.me.team, FromLocalForfeit, true, guid);
    }
  }

  // ---------------------------------------------------------------- a running match is not replaced by updates

  /** In play, in a playlist that is known and recorded. */
  predicate Running(live: Live) {
    && live.inMatch && live.roundEverStarted && !live.matchFinalized
    && IsKnown(live.ctx.playlistId) && !NonRecordableContext(live)
  }

  predicate SameMatch(st: State, next: State) {
    && next.live.generation == st.live.generation && next.live.guid == st.live.guid
    && next.live.ctx.playlistId == st.live.ctx.playlistId && next.nextGeneration == st.nextGeneration
    && next.pending == st.pending && next.finalized == st.finalized
  }

  lemma ArenaKeepsRunning(st: State, e: UpdateEvent)
    requires Running(st.live)
    ensures Running(UpdateArena(st, e).live) && SameMatch(st, UpdateArena(st, e))
  {}

  lemma PlaylistKeepsRunning(st: State, e: UpdateEvent)
    requires Running(st.live)
    ensures Running(UpdatePlaylist(st, e).live) && SameMatch(st, UpdatePlaylist(st, e))
  {}

  /** Whatever arena, playlist or flags one update reports, it does not start another match or lose the playlist. */
  lemma UpdateKeepsRunning(st: State, e: UpdateEvent)
    requires Running(st.live)
    ensures Running(UpdateSeen(st, e).live) && SameMatch(st, UpdateSeen(st, e))
  {
    hide UpdateFlags, UpdateArena, UpdatePlaylist, Readings, Running;
    var st0 := UpdateFlags(st, e);
    var st1 := UpdateArena(st0, e);
    FlagsKeepRunning(st, e);
    ArenaKeepsRunning(st0, e);
    PlaylistKeepsRunning(st1, e);
    ReadingsKeepRunning(UpdatePlaylist(st1, e), e);
  }

  lemma FlagsKeepRunning(st: State, e: UpdateEvent)
    requires Running(st.live)
    ensures Running(UpdateFlags(st, e).live) && SameMatch(st, UpdateFlags(st, e))
  {}

  lemma KnownIsAuthoritative(id: int)
    requires IsKnown(id)
    ensures HasAuthoritativeId(id)
  {}

  lemma SignalsKeepContext(ctx: Context, e: UpdateEvent)
    requires HasAuthoritativeId(ctx.playlistId)
    ensures var next := ContextSignals(ctx, e); next.playlistId == ctx.playlistId && !next.nonRec
  {
    hide Find, IsKnown, IsCasual, NonRecordableReason;
  }

  lemma ReadingsKeepRunning(st: State, e: UpdateEvent)
    requires Running(st.live)
    ensures var next := st.(live := Readings(st.live, e)); Running(next.live) && SameMatch(st, next)
  {
    hide LobbySeen, LocalSeen, PlaySeen, WithScore, WithForfeit, ContextSignals, IsKnown, IsNonRecordable;
    KnownIsAuthoritative(st.live.ctx.playlistId);
    SignalsKeepContext(st.live.ctx, e);
  }

  ghost function AfterUpdates(st: State, updates: seq<UpdateEvent>): State {
    if updates == [] then st else UpdateSeen(AfterUpdates(st, updates[..|updates| - 1]), updates[|updates| - 1])
  }

  /** Nor do any number of them. */
  lemma {:induction false} StartedMatchIsNotReplaced(st: State, updates: seq<UpdateEvent>)
    requires Running(st.live)
    ensures Running(AfterUpdates(st, updates).live) && SameMatch(st, AfterUpdates(st, updates))
  {
    hide UpdateSeen, Running;
    if updates == [] {
    } else {
      StartedMatchIsNotReplaced(st, updates[..|updates| - 1]);
      UpdateKeepsRunning(AfterUpdates(st, updates[..|updates| - 1]), updates[|updates| - 1]);
    }
  }

  // ---------------------------------------------------------------- resolving parked matches

  /**
   In every reachable state a parked match that is not terminal saves when the tracker confirms
   it, with the confirmed result, and a terminal one is left alone.
   */
  lemma ConfirmationSaves(events: seq<Timed>, guid: string, won: bool)
    requires guid in Run(events).st.pending
    ensures var st := Run(events).st; var out := Confirm(st, guid, won);
      if guid in st.finalized then out == Out(st, NO_EFFECTS)
      else && out.fx.save.Some? && out.fx.save.value.match_ == st.pending[guid]
           && out.fx.save.value.iWon == won
           && out.fx.save.value.winner == (if won == (st.pending[guid].me.team == 0) then 0 else 1)
           && out.st.pending == st.pending - {guid} && guid in out.st.finalized
  {
    RunIsSafe(events);
    var t := Run(events);
    assert ParkedOk(t.st, guid, t.st.pending[guid]);
  }

  lemma FinalizeSaves(st: State, m: Captured, winner: int, source: Source, fx: Effects)
    requires m.guid != "" && ClassifyMatchEnd(m, winner).persist
    ensures var out := FinalizeCaptured(st, m, winner, source, false, fx);
      && out.st.pending == st.pending
      && out.fx.save == (if m.guid in st.finalized then fx.save else Some(Saved(m, winner, winner == m.me.team)))
  {
  }

  lemma ResolveByEndSaves(st: State, e: EndEvent)
    requires e.guid in st.pending && ParkedOk(st, e.guid, st.pending[e.guid]) && IsTeam(e.winner)
    ensures var out := ResolveByEnd(st, e); var parked := st.pending[e.guid]; var won := e.winner == parked.me.team;
      && out.st.pending == st.pending - {e.guid}
      && out.fx.resolved == Some(Resolved(e.guid, won))
      && out.fx.save == (if e.guid in st.finalized then None
                         else Some(Saved(parked.(play := WithScore(parked.play, e.scores)), e.winner, won)))
  {
    var parked := st.pending[e.guid];
    var m := parked.(play := WithScore(parked.play, e.scores));
    assert ClassifyMatchEnd(m, e.winner) == ClassifyMatchEnd(parked, e.winner);
    var forfeit := ForfeitSignal(e.forfeits, m.me.team) && e.winner != m.me.team;
    FinalizeSaves(st.(pending := st.pending - {e.guid}), m, e.winner,
                  if forfeit then FromLocalForfeit else FromMatchEnded, NO_EFFECTS);
  }

  /** Likewise when a late MatchEnded names it: it is saved with that winner, never voided. */
  lemma LateEndSaves(events: seq<Timed>, e: EndEvent, nowUnixMs: int)
    requires e.guid in Run(events).st.pending && IsTeam(e.winner)
    ensures var st := Run(events).st; var out := MatchEnded(st, e, nowUnixMs);
            var parked := st.pending[e.guid]; var won := e.winner == parked.me.team;
      && out.st.pending == st.pending - {e.guid}
      && out.fx.resolved == Some(Resolved(e.guid, won))
      && out.fx.save == (if e.guid in st.finalized then None
                         else Some(Saved(parked.(play := WithScore(parked.play, e.scores)), e.winner, won)))
  {
    RunIsSafe(events);
    var st := Run(events).st;
    assert ParkedOk(st, e.guid, st.pending[e.guid]);
    ResolveByEndSaves(st, e);
  }

  // ---------------------------------------------------------------- isolation

  /** Resolving a match of another lifecycle leaves the live match alone, its timing excepted. */
  lemma ResolvingLeavesLiveAlone(st: State, guid: string, won: bool, e: EndEvent, nowUnixMs: int)
    requires guid in st.pending && st.pending[guid].generation != st.live.generation
    requires e.guid == guid && guid != ""
    ensures Confirm(st, guid, won).st.live == st.live
            || Confirm(st, guid, won).st.live == st.live.(overtime := None)
    ensures MatchEnded(st, e, nowUnixMs).st.live == st.live
            || MatchEnded(st, e, nowUnixMs).st.live == st.live.(overtime := None)
  {
  }

  /** Is `guid` the parked match this event resolves? */
  ghost predicate Resolves(e: Event, guid: string) {
    match e
    case OnMatchEnded(end) => end.guid == guid && IsTeam(end.winner)
    case ConfirmDestroyed(confirmed, _) => confirmed == guid
    case _ => false
  }

  /** A parked capture changes only by being resolved; whatever else happens, it is kept as it was frozen. */
  lemma ParkedIsFrozen(st: State, e: Event, nowUnixMs: int, guid: string)
    requires guid in st.pending && guid != "" && !Resolves(e, guid)
    ensures var next := Step(st, e, nowUnixMs).st;
            guid in next.pending && next.pending[guid] == st.pending[guid]
  {
    hide MatchDestroyed, MatchEnded, Confirm, UpdateSeen, MatchCreated, StartNewSession, ClearActive;
    match e
    case OnMatchEnded(end) => EndKeepsParked(st, end, nowUnixMs, guid);
    case ConfirmDestroyed(confirmed, won) => ConfirmKeepsParked(st, confirmed, won, guid);
    case OnMatchDestroyed(destroy) => DestroyKeepsParked(st, destroy, nowUnixMs, guid);
    case _ => OtherEventsKeepSets(st, e, nowUnixMs);
  }

  lemma EndKeepsParked(st: State, e: EndEvent, nowUnixMs: int, guid: string)
    requires guid in st.pending && guid != "" && !(e.guid == guid && IsTeam(e.winner))
    ensures var next := MatchEnded(st, e, nowUnixMs).st;
            guid in next.pending && next.pending[guid] == st.pending[guid]
  {}

  lemma ConfirmKeepsParked(st: State, confirmed: string, won: bool, guid: string)
    requires guid in st.pending && confirmed != guid
    ensures var next := Confirm(st, confirmed, won).st;
            guid in next.pending && next.pending[guid] == st.pending[guid]
  {}

  lemma DestroyKeepsParked(st: State, e: DestroyEvent, nowUnixMs: int, guid: string)
    requires guid in st.pending
    ensures var next := MatchDestroyed(st, e, nowUnixMs).st;
            guid in next.pending && next.pending[guid] == st.pending[guid]
  {
    var st1 := AttachTerminalGuid(st, e.guid);
    var st2 := st1.(live := DestroySeen(st1.live, e));
    WhatResolveDestroyedParks(st2, e.winner.GetOr(-1), nowUnixMs);
  }

  /**
   A destroyed match is parked exactly when no winner is known, it may exit early, the local
   player did not forfeit and the tracker can be asked about it; parking saves nothing.
   */
  ghost predicate MayPark(st: State, winner: int, nowUnixMs: int) {
    && !st.live.matchFinalized && !IsTeam(winner) && EarlyExit(st.live).ValidExit? && !st.live.me.forfeit
    && BuildRefresh(Frozen(st, nowUnixMs), false).Some?
  }

  ghost function Frozen(st: State, nowUnixMs: int): Captured
    requires EarlyExit(st.live).ValidExit?
  {
    Capture(st, nowUnixMs).(mode := EarlyExit(st.live).mode)
  }

  lemma WhatResolveDestroyedParks(st: State, winner: int, nowUnixMs: int)
    ensures var out := ResolveDestroyed(st, winner, nowUnixMs, NO_EFFECTS);
      && (out.fx.parked.Some? <==> MayPark(st, winner, nowUnixMs))
      && (out.fx.parked.Some? ==> out.fx.save.None?)
      && out.st.pending == (if MayPark(st, winner, nowUnixMs) && st.live.guid !in st.pending
                            then st.pending[st.live.guid := Frozen(st, nowUnixMs)] else st.pending)
  {
    if IsTeam(winner) {
      FinalizeMatchParksNothing(st, winner, if st.live.me.forfeit && winner != st.live.me.team then FromLocalForfeit
                                            else FromMatchDestroyed, nowUnixMs);
    } else if !st.live.matchFinalized {
      WhatIsParkedWithoutWinner(st, nowUnixMs);
    }
  }

  lemma WhatIsParkedWithoutWinner(st: State, nowUnixMs: int)
    requires !st.live.matchFinalized
    ensures var out := ResolveWithoutWinner(st, nowUnixMs, NO_EFFECTS); var parks := MayPark(st, -1, nowUnixMs);
      && (out.fx.parked.Some? <==> parks)
      && (out.fx.parked.Some? ==> out.fx.save.None?)
      && out.st.pending == (if parks && st.live.guid !in st.pending
                            then st.pending[st.live.guid := Frozen(st, nowUnixMs)] else st.pending)
  {
    if EarlyExit(st.live).ValidExit? && st.live.me.forfeit {
      FinalizeMatchParksNothing(st, 1 - st.live.me.team, FromLocalForfeit, nowUnixMs);
    }
  }

  lemma FinalizeMatchParksNothing(st: State, winner: int, source: Source, nowUnixMs: int)
    ensures var out := FinalizeMatch(st, winner, source, nowUnixMs, NO_EFFECTS);
            out.st.pending == st.pending && out.fx.parked.None?
  {
  }

  /** Only the live match itself is ever parked, and what is parked would be saved whoever won. */
  lemma OnlyTheLiveMatchIsParked(st: State, e: DestroyEvent, nowUnixMs: int, guid: string)
    requires guid !in st.pending && guid in MatchDestroyed(st, e, nowUnixMs).st.pending
    ensures var parked := MatchDestroyed(st, e, nowUnixMs).st.pending[guid];
            st.live.inMatch && parked.generation == st.live.generation && parked.guid == guid && Parkable(parked)
  {
    var st1 := AttachTerminalGuid(st, e.guid);
    var st2 := st1.(live := DestroySeen(st1.live, e));
    WhatResolveDestroyedParks(st2, e.winner.GetOr(-1), nowUnixMs);
    ValidExitIsParkable(st2, nowUnixMs);
  }
}
