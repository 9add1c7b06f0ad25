/**
 Parked and terminal GUIDs. They are not always disjoint: this module says exactly which
 event makes one GUID both, what that costs, and that nothing else does.
 */
module ReducerParked {
  import opened Options
  import opened Teams
  import opened Gamemodes
  import opened Playlists
  import opened SessionTypes
  import opened ReducerSpec
  import opened ReducerSafety
  import opened ReducerRuns
  import opened ReducerScenes

  /** Not both parked and terminal. */
  predicate Apart(st: State, guid: string) {
    !(guid in st.pending && guid in st.finalized)
  }

  ghost predicate Disjoint(st: State) {
    forall guid | guid in st.pending :: Apart(st, guid)
  }

  /** The state in which a MatchDestroyed decides about the live match. */
  function Destroying(st: State, e: DestroyEvent): State {
    var st1 := AttachTerminalGuid(st, e.guid);
    st1.(live := DestroySeen(st1.live, e))
  }

  /** The destroy decides about a match that is in play and open. */
  predicate DestroyDecides(st: State, e: DestroyEvent) {
    var seen := Destroying(st, e);
    !DestroyIgnored(AttachTerminalGuid(st, e.guid), e.guid) && seen.live.inMatch && !seen.live.matchFinalized
  }

  ghost predicate DestroyParks(st: State, e: DestroyEvent, nowUnixMs: int) {
    MayPark(Destroying(st, e), e.winner.GetOr(-1), nowUnixMs)
  }

  /** `guid` is to be parked although it is terminal, or to become terminal although it is parked. */
  ghost predicate Collides(st: State, e: DestroyEvent, nowUnixMs: int, guid: string) {
    && DestroyDecides(st, e) && Destroying(st, e).live.guid == guid != ""
    && if DestroyParks(st, e, nowUnixMs) then guid in st.finalized else guid in st.pending
  }

  // ---------------------------------------------------------------- what a destroy does to the two sets

  lemma FinalizeCapturedSets(st: State, m: Captured, winner: int, source: Source, enqueue: bool, fx: Effects)
    ensures var next := FinalizeCaptured(st, m, winner, source, enqueue, fx).st;
            next.pending == st.pending && next.finalized == RecordTerminal(st.finalized, m.guid)
  {
    hide ClassifyMatchEnd, BuildRefresh, AddToSession, AddToRecap;
  }

  lemma FinalizeMatchSets(st: State, winner: int, source: Source, nowUnixMs: int, fx: Effects)
    requires !st.live.matchFinalized
    ensures var next := FinalizeMatch(st, winner, source, nowUnixMs, fx).st;
            next.pending == st.pending && next.finalized == RecordTerminal(st.finalized, st.live.guid)
  {
    hide FinalizeCaptured, LiveMode;
    FinalizeCapturedSets(st, Capture(st, nowUnixMs), winner, source, true, fx);
  }

  /** The counterpart of `WhatResolveDestroyedParks`: what is not parked becomes terminal. */
  lemma WhatResolveDestroyedFinalizes(st: State, winner: int, nowUnixMs: int)
    ensures ResolveDestroyed(st, winner, nowUnixMs, NO_EFFECTS).st.finalized
         == if st.live.matchFinalized || MayPark(st, winner, nowUnixMs) then st.finalized
            else RecordTerminal(st.finalized, st.live.guid)
  {
    hide FinalizeMatch, EarlyExit, BuildRefresh, Capture, ProvisionalSave, RecordTerminal;
    if !st.live.matchFinalized {
      if IsTeam(winner) {
        FinalizeMatchSets(st, winner, if st.live.me.forfeit && winner != st.live.me.team then FromLocalForfeit
                                      else FromMatchDestroyed, nowUnixMs, NO_EFFECTS);
      } else if EarlyExit(st.live).ValidExit? && st.live.me.forfeit {
        FinalizeMatchSets(st, 1 - st.live.me.team, FromLocalForfeit, nowUnixMs, NO_EFFECTS);
      }
    }
  }

  lemma WhatDestroyedDoes(st: State, e: DestroyEvent, nowUnixMs: int)
    ensures var next := MatchDestroyed(st, e, nowUnixMs).st; var guid := Destroying(st, e).live.guid;
      if !DestroyDecides(st, e) then next.pending == st.pending && next.finalized == st.finalized
      else if DestroyParks(st, e, nowUnixMs) then
        guid != "" && next.finalized == st.finalized && next.pending.Keys == st.pending.Keys + {guid}
      else next.pending == st.pending && next.finalized == RecordTerminal(st.finalized, guid)
  {
    hide ResolveDestroyed, Frozen, BuildRefresh, EarlyExit, DestroySeen, DestroyIgnored, LeaveMatch;
    var seen := Destroying(st, e);
    WhatResolveDestroyedParks(seen, e.winner.GetOr(-1), nowUnixMs);
    WhatResolveDestroyedFinalizes(seen, e.winner.GetOr(-1), nowUnixMs);
    if DestroyParks(st, e, nowUnixMs) { MayParkKnows(seen, e.winner.GetOr(-1), nowUnixMs); }
  }

  lemma MayParkKnows(st: State, winner: int, nowUnixMs: int)
    requires MayPark(st, winner, nowUnixMs)
    ensures st.live.guid != ""
  {}

  lemma DestroyKeepsApart(st: State, e: DestroyEvent, nowUnixMs: int, guid: string)
    requires Apart(st, guid)
    ensures Apart(MatchDestroyed(st, e, nowUnixMs).st, guid) <==> !Collides(st, e, nowUnixMs, guid)
  {
    hide MatchDestroyed, DestroyParks, DestroyDecides, Destroying;
    WhatDestroyedDoes(st, e, nowUnixMs);
    var next := MatchDestroyed(st, e, nowUnixMs).st;
    assert guid in next.pending <==> guid in next.pending.Keys;
    assert guid in st.pending <==> guid in st.pending.Keys;
  }

  // ---------------------------------------------------------------- no other event

  lemma EndKeepsApart(st: State, e: EndEvent, nowUnixMs: int, guid: string)
    requires Apart(st, guid) && OwnGuids(st)
    ensures Apart(MatchEnded(st, e, nowUnixMs).st, guid)
  {
    hide FinalizeCaptured, FinalizeMatch, ForfeitSignal;
    if e.guid != "" && e.guid in st.pending {
      if IsTeam(e.winner) {
        var parked := st.pending[e.guid];
        var m := parked.(play := WithScore(parked.play, e.scores));
        var forfeit := ForfeitSignal(e.forfeits, m.me.team) && e.winner != m.me.team;
        FinalizeCapturedSets(st.(pending := st.pending - {e.guid}), m, e.winner,
                             if forfeit then FromLocalForfeit else FromMatchEnded, false, NO_EFFECTS);
      }
    } else {
      var st1 := AttachTerminalGuid(st, e.guid);
      if EndsCurrent(st1, e) {
        var st2 := st1.(live := st1.live.(play := WithScore(st1.live.play, e.scores)));
        var forfeit := ForfeitSignal(e.forfeits, st2.live.me.team) && e.winner != st2.live.me.team;
        FinalizeMatchSets(st2, e.winner, if forfeit then FromLocalForfeit else FromMatchEnded, nowUnixMs, NO_EFFECTS);
      }
    }
  }

  lemma ConfirmKeepsApart(st: State, confirmed: string, won: bool, guid: string)
    requires Apart(st, guid) && OwnGuids(st)
    ensures Apart(Confirm(st, confirmed, won).st, guid)
  {
    hide FinalizeCaptured;
    if confirmed in st.pending && confirmed !in st.finalized {
      var m := st.pending[confirmed];
      var winner := if IsTeam(m.me.team) then (if won then m.me.team else 1 - m.me.team) else -1;
      FinalizeCapturedSets(st.(pending := st.pending - {confirmed}), m, winner, FromTracker, false, NO_EFFECTS);
    }
  }

  ghost predicate CollidesOn(st: State, e: Timed, guid: string) {
    e.event.OnMatchDestroyed? && Collides(st, e.event.destroy, e.nowUnixMs, guid)
  }

  /** Of all events only a colliding destroy makes a GUID both parked and terminal, and it always does. */
  lemma StepKeepsApart(st: State, e: Event, nowUnixMs: int, guid: string)
    requires Apart(st, guid) && OwnGuids(st)
    ensures Apart(Step(st, e, nowUnixMs).st, guid) <==> !CollidesOn(st, Timed(e, nowUnixMs), guid)
  {
    hide MatchEnded, MatchDestroyed, Confirm, Collides, UpdateSeen, OwnGuids;
    match e
    case OnMatchEnded(end) => EndKeepsApart(st, end, nowUnixMs, guid);
    case OnMatchDestroyed(destroy) => DestroyKeepsApart(st, destroy, nowUnixMs, guid);
    case ConfirmDestroyed(confirmed, won) => ConfirmKeepsApart(st, confirmed, won, guid);
    case _ => OtherEventsKeepSets(st, e, nowUnixMs);
  }

  /** The destroy collides on the GUID it decides about, or on none. */
  ghost predicate CollidesAt(st: State, e: Timed) {
    e.event.OnMatchDestroyed? && CollidesOn(st, e, Destroying(st, e.event.destroy).live.guid)
  }

  lemma StepKeepsDisjoint(st: State, e: Event, nowUnixMs: int)
    requires Disjoint(st) && OwnGuids(st)
    ensures Disjoint(Step(st, e, nowUnixMs).st) <==> !CollidesAt(st, Timed(e, nowUnixMs))
  {
    hide Step, Destroying, DestroyDecides, DestroyParks, OwnGuids;
    var next := Step(st, e, nowUnixMs).st;
    forall guid ensures Apart(next, guid) <==> !CollidesOn(st, Timed(e, nowUnixMs), guid) {
      StepKeepsApart(st, e, nowUnixMs, guid);
    }
  }

  // ---------------------------------------------------------------- over whole runs

  ghost predicate AlwaysDisjoint(events: seq<Timed>) {
    forall k | 0 <= k <= |events| :: Disjoint(Run(events[..k]).st)
  }

  ghost predicate NeverCollides(events: seq<Timed>) {
    forall k | 0 <= k < |events| :: !CollidesAt(Run(events[..k]).st, events[k])
  }

  lemma PrefixesSnoc(init: seq<Timed>, last: Timed)
    ensures AlwaysDisjoint(init + [last]) <==> AlwaysDisjoint(init) && Disjoint(Run(init + [last]).st)
    ensures NeverCollides(init + [last]) <==> NeverCollides(init) && !CollidesAt(Run(init).st, last)
  {
    hide Run, Disjoint, CollidesAt;
    var events := init + [last];
    assert forall k | 0 <= k <= |init| :: events[..k] == init[..k];
    assert init[..|init|] == init && events[..|events|] == events;
  }

  lemma RunKeepsDisjoint(init: seq<Timed>, last: Timed)
    requires Disjoint(Run(init).st)
    ensures Disjoint(Run(init + [last]).st) <==> !CollidesAt(Run(init).st, last)
  {
    hide Step, Disjoint, CollidesAt, OwnGuids;
    assert (init + [last])[..|init|] == init;
    RunOwnsGuids(init);
    StepKeepsDisjoint(Run(init).st, last.event, last.nowUnixMs);
  }

  lemma StartIsDisjoint()
    ensures Disjoint(Run([]).st)
  {
    hide Apart;
    assert Run([]).st == INITIAL;
  }

  /** Parked and terminal GUIDs are disjoint all through a run if and only if no destroy of it collides. */
  lemma {:induction false} DisjointIff(events: seq<Timed>)
    ensures AlwaysDisjoint(events) <==> NeverCollides(events)
  {
    hide Run, Disjoint, CollidesAt;
    if events == [] {
      StartIsDisjoint();
    } else {
      hide NeverCollides;
      var init := events[..|events| - 1];
      var last := events[|events| - 1];
      DisjointIff(init);
      assert events == init + [last];
      PrefixesSnoc(init, last);
      if AlwaysDisjoint(init) {
        assert init[..|init|] == init;
        RunKeepsDisjoint(init, last);
      }
    }
  }

  // ---------------------------------------------------------------- what a collision costs

  /**
   The fate of a parked match that is not terminal. What resolves it saves it; everything else leaves
   it parked as it was frozen. It can then no longer be saved exactly when the match that reopened its
   GUID was destroyed and was not parked itself.
   */
  lemma ParkedIsSavedKeptOrLost(events: seq<Timed>, e: Event, nowUnixMs: int, guid: string)
    requires guid in Run(events).st.pending && guid !in Run(events).st.finalized
    ensures var st := Run(events).st; var out := Step(st, e, nowUnixMs);
      if Resolves(e, guid) then
        && guid !in out.st.pending && out.fx.save.Some?
        && out.fx.save.value.match_.generation == st.pending[guid].generation
      else
        && guid in out.st.pending && out.st.pending[guid] == st.pending[guid]
        && (guid in out.st.finalized
            <==> e.OnMatchDestroyed? && DestroyDecides(st, e.destroy) && st.live.guid == guid
                 && !DestroyParks(st, e.destroy, nowUnixMs))
  {
    hide MatchEnded, MatchDestroyed, Confirm, UpdateSeen, DestroyParks, DestroyDecides, Destroying, Run, OwnGuids;
    var st := Run(events).st;
    RunOwnsGuids(events);
    ParkedIsKnown(events, guid);
    if Resolves(e, guid) {
      match e
      case OnMatchEnded(end) => LateEndSaves(events, end, nowUnixMs);
      case ConfirmDestroyed(confirmed, won) => ConfirmationSaves(events, guid, won);
    } else {
      ParkedIsFrozen(st, e, nowUnixMs, guid);
      StepKeepsApart(st, e, nowUnixMs, guid);
      if e.OnMatchDestroyed? { DestroyingGuid(st, e.destroy, guid); }
    }
  }

  lemma ParkedIsKnown(events: seq<Timed>, guid: string)
    requires guid in Run(events).st.pending
    ensures guid != ""
  {
    RunIsSafe(events);
    assert ParkedOk(Run(events).st, guid, Run(events).st.pending[guid]);
  }

  /** A late GUID is never one that is parked. */
  lemma DestroyingGuid(st: State, e: DestroyEvent, guid: string)
    requires guid in st.pending && guid != ""
    ensures Destroying(st, e).live.guid == guid <==> st.live.guid == guid
  {}

  /** The saves of a longer run are those of the shorter one and then others, none of a GUID that was terminal. */
  lemma {:induction false} TerminalIsNeverSaved(t: Trace, more: seq<Timed>, guid: string)
    requires guid in t.st.finalized && guid != ""
    ensures var later := After(t, more);
      && guid in later.st.finalized && t.log <= later.log
      && forall i | |t.log| <= i < |later.log| :: later.log[i].match_.guid != guid
  {
    hide Step;
    if more != [] {
      var init := more[..|more| - 1];
      var last := more[|more| - 1];
      TerminalIsNeverSaved(t, init, guid);
      TerminalIsForever(After(t, init).st, last.event, last.nowUnixMs, guid);
    }
  }

  /**
   It happens: a ranked match is left and parked, its GUID comes back, and that lifecycle is left before
   its round starts. No later event saves the parked result, and the tracker's confirmation does nothing.
   */
  lemma ParkedMatchIsLost()
    ensures exists t :: Reaches(t) && t.log == [] && Lost(t.st, "guid")
  {
    ReachesStart();
    var parked := SceneParked(START, "guid");
    var t := SceneVoided(parked, "guid");
    assert Lost(t.st, "guid");
  }

  ghost predicate Lost(st: State, guid: string) {
    guid in st.pending && guid in st.finalized && forall won :: Confirm(st, guid, won) == Out(st, NO_EFFECTS)
  }

  /** The other way round: a match that was won is parked again when its GUID is reopened and left. */
  lemma TerminalGuidCanBeParkedAgain()
    ensures exists t :: Reaches(t) && |t.log| == 1 && t.log[0].match_.guid == "guid" && Lost(t.st, "guid")
  {
    ReachesStart();
    var won := SceneWon(START, "guid");
    var t := SceneParked(won, "guid");
    assert Lost(t.st, "guid");
  }

  // ---------------------------------------------------------------- a parked match whose GUID is live again

  /** In play and not ended, under this GUID. */
  predicate PlaysAs(live: Live, guid: string) {
    live.inMatch && !live.matchFinalized && live.guid == guid != ""
  }

  lemma ParkedIsAnother(events: seq<Timed>, guid: string)
    requires var st := Run(events).st; guid in st.pending && st.live.inMatch
    ensures var st := Run(events).st; st.pending[guid].generation < st.live.generation
  {
    RunIsSafe(events);
    assert ParkedOk(Run(events).st, guid, Run(events).st.pending[guid]);
  }

  lemma LateEndIsTerminal(st: State, e: EndEvent, nowUnixMs: int)
    requires OwnGuids(st) && e.guid in st.pending && e.guid != "" && IsTeam(e.winner)
    ensures e.guid in MatchEnded(st, e, nowUnixMs).st.finalized
  {
    hide FinalizeCaptured, ForfeitSignal;
    var parked := st.pending[e.guid];
    var m := parked.(play := WithScore(parked.play, e.scores));
    var forfeit := ForfeitSignal(e.forfeits, m.me.team) && e.winner != m.me.team;
    FinalizeCapturedSets(st.(pending := st.pending - {e.guid}), m, e.winner,
                         if forfeit then FromLocalForfeit else FromMatchEnded, false, NO_EFFECTS);
  }

  lemma LiveEndEnds(st: State, e: EndEvent, nowUnixMs: int)
    requires PlaysAs(st.live, e.guid) && e.guid !in st.pending
    ensures var out := MatchEnded(st, e, nowUnixMs);
      && (out.st.live.matchFinalized <==> e.guid !in st.finalized)
      && (out.fx.save.Some? ==> out.fx.save.value.match_.generation == st.live.generation)
  {
    hide ClassifyMatchEnd, BuildRefresh, AddToSession, AddToRecap, ForfeitSignal, LiveMode;
  }

  /**
   A MatchEnded with a winner that names the match in play ends it if and only if the GUID is neither parked
   nor terminal. While it is parked, the result goes to the match parked under it, an earlier lifecycle,
   and the GUID becomes terminal: the match in play stays open and is never saved under it.
   */
  lemma EndOfReopened(events: seq<Timed>, e: EndEvent, nowUnixMs: int)
    requires PlaysAs(Run(events).st.live, e.guid) && IsTeam(e.winner)
    ensures var st := Run(events).st; var out := MatchEnded(st, e, nowUnixMs);
      && (out.st.live.matchFinalized <==> e.guid !in st.pending && e.guid !in st.finalized)
      && (e.guid in st.pending ==>
            && PlaysAs(out.st.live, e.guid) && e.guid in out.st.finalized
            && st.pending[e.guid].generation < st.live.generation
            && (e.guid !in st.finalized ==>
                  out.fx.save.Some? && out.fx.save.value.match_.generation == st.pending[e.guid].generation))
  {
    hide Run, MatchEnded, OwnGuids;
    var st := Run(events).st;
    if e.guid in st.pending {
      ParkedIsAnother(events, e.guid);
      LateEndSaves(events, e, nowUnixMs);
      ResolvingLeavesLiveAlone(st, e.guid, true, e, nowUnixMs);
      RunOwnsGuids(events);
      LateEndIsTerminal(st, e, nowUnixMs);
    } else {
      LiveEndEnds(st, e, nowUnixMs);
    }
  }

  /** The result of one match is saved for another. */
  ghost predicate Misdirects(st: State, e: EndEvent, nowUnixMs: int) {
    var out := MatchEnded(st, e, nowUnixMs);
    && PlaysAs(st.live, e.guid) && PlaysAs(out.st.live, e.guid) && e.guid in out.st.finalized
    && out.fx.save.Some? && out.fx.save.value.match_.generation < st.live.generation
  }

  /** It happens: a ranked match is left and parked, its GUID is reopened, and that match ends. */
  lemma EndIsMisdirected()
    ensures exists t :: Reaches(t) && Misdirects(t.st, Ended("guid"), 1)
  {
    hide MatchEnded, Run;
    ReachesStart();
    var parked := SceneParked(START, "guid");
    ReachesOpen(parked, "guid");
    var t := parked.(st := Open(parked.st, "guid"));
    var events :| Run(events) == t;
    EndOfReopened(events, Ended("guid"), 1);
    assert Misdirects(t.st, Ended("guid"), 1);
  }
}
