/**
 What the reconnect block is for. While telemetry was away the match in play may have been
 replaced; if it has no GUID, nothing that follows may end it in another match's name.
 */
module ReducerBlocked {
  import opened Options
  import opened Teams
  import opened Gamemodes
  import opened Playlists
  import opened SessionTypes
  import opened ReducerSpec
  import opened ReducerSafety
  import opened ReducerRuns

  /** No parked match is of lifecycle `g`, and while it is the live one it is blocked, nameless and open. */
  ghost predicate Protected(st: State, g: nat) {
    && st.live.generation == st.nextGeneration >= g
    && NotParked(st.pending, g)
    && (st.live.generation == g ==> Unnamed(st.live))
  }

  predicate Unnamed(live: Live) {
    live.blocked && live.guid == "" && !live.matchFinalized
  }

  /** What lifts the protection: a MatchCreated that names the match. */
  predicate Names(st: State, e: Event, g: nat) {
    e.OnMatchCreated? && e.guid != "" && st.live.generation == g
  }

  ghost predicate StaysProtected(out: Out, g: nat) {
    Protected(out.st, g) && (out.fx.save.Some? ==> out.fx.save.value.match_.generation != g)
  }

  /** A step on the live match alone that does not touch what protects it, or opens another lifecycle. */
  predicate KeepsUnnamed(st: State, next: State) {
    && next.pending == st.pending && next.live.generation == next.nextGeneration >= st.nextGeneration
    && (next.live.generation == st.live.generation && Unnamed(st.live) ==> Unnamed(next.live))
  }

  // ---------------------------------------------------------------- resolving other matches

  lemma FinalizeKeepsProtected(st: State, m: Captured, winner: int, source: Source, enqueue: bool, g: nat)
    requires Protected(st, g) && m.generation != g
    ensures StaysProtected(FinalizeCaptured(st, m, winner, source, enqueue, NO_EFFECTS), g)
  {
    hide ClassifyMatchEnd, BuildRefresh, AddToSession, AddToRecap;
  }

  lemma FinalizeMatchKeepsProtected(st: State, winner: int, source: Source, nowUnixMs: int, g: nat)
    requires Protected(st, g) && st.live.generation != g
    ensures StaysProtected(FinalizeMatch(st, winner, source, nowUnixMs, NO_EFFECTS), g)
  {
    hide FinalizeCaptured, LiveMode, Protected;
    FinalizeKeepsProtected(st, Capture(st, nowUnixMs), winner, source, true, g);
  }

  lemma ConfirmKeepsProtected(st: State, guid: string, won: bool, g: nat)
    requires Protected(st, g)
    ensures StaysProtected(Confirm(st, guid, won), g)
  {
    hide FinalizeCaptured;
    if guid in st.pending && guid !in st.finalized {
      var m := st.pending[guid];
      var winner := if IsTeam(m.me.team) then (if won then m.me.team else 1 - m.me.team) else -1;
      FinalizeKeepsProtected(st.(pending := st.pending - {guid}), m, winner, FromTracker, false, g);
    }
  }

  lemma EndKeepsProtected(st: State, e: EndEvent, nowUnixMs: int, g: nat)
    requires Protected(st, g)
    ensures StaysProtected(MatchEnded(st, e, nowUnixMs), g)
  {
    hide FinalizeCaptured, FinalizeMatch, ForfeitSignal;
    if e.guid != "" && e.guid in st.pending {
      var parked := st.pending[e.guid];
      var m := parked.(play := WithScore(parked.play, e.scores));
      var forfeit := ForfeitSignal(e.forfeits, m.me.team) && e.winner != m.me.team;
      FinalizeKeepsProtected(st.(pending := st.pending - {e.guid}), m, e.winner,
                             if forfeit then FromLocalForfeit else FromMatchEnded, false, g);
    } else {
      var st1 := AttachTerminalGuid(st, e.guid);
      if EndsCurrent(st1, e) {
        assert st.live.generation != g;
        var st2 := st1.(live := st1.live.(play := WithScore(st1.live.play, e.scores)));
        var forfeit := ForfeitSignal(e.forfeits, st2.live.me.team) && e.winner != st2.live.me.team;
        FinalizeMatchKeepsProtected(st2, e.winner, if forfeit then FromLocalForfeit else FromMatchEnded, nowUnixMs, g);
      }
    }
  }

  lemma VoidKeepsProtected(st: State, reason: Reason, g: nat)
    requires Protected(st, g) && st.live.generation != g
    ensures StaysProtected(MarkVoid(st, reason, NO_EFFECTS), g)
  {}

  lemma ParkKeepsProtected(st: State, m: Captured, refresh: Refresh, g: nat)
    requires Protected(st, g) && st.live.generation != g && m.generation == st.live.generation
    ensures StaysProtected(Park(st, m, refresh, NO_EFFECTS), g)
  {
    hide ProvisionalSave;
  }

  lemma ParkOrVoidKeepsProtected(st: State, nowUnixMs: int, g: nat)
    requires Protected(st, g) && st.live.generation != g && (EarlyExit(st.live).InvalidExit? || !st.live.me.forfeit)
    ensures StaysProtected(ResolveWithoutWinner(st, nowUnixMs, NO_EFFECTS), g)
  {
    hide EarlyExit, BuildRefresh, ProvisionalSave, LiveMode, MarkVoid, Park, StaysProtected, FinalizeMatch;
    match EarlyExit(st.live)
    case InvalidExit(reason) => VoidKeepsProtected(st, reason, g);
    case ValidExit(mode) =>
      var m := Capture(st, nowUnixMs).(mode := mode);
      var refresh := BuildRefresh(m, false);
      if refresh.None? {
        VoidKeepsProtected(st, MissingTrackerIdentity, g);
      } else {
        ParkKeepsProtected(st, m, refresh.value, g);
      }
  }

  lemma ResolveKeepsProtected(st: State, winner: int, nowUnixMs: int, g: nat)
    requires Protected(st, g) && st.live.generation != g
    ensures StaysProtected(ResolveDestroyed(st, winner, nowUnixMs, NO_EFFECTS), g)
  {
    hide FinalizeMatch, EarlyExit, MarkVoid, Park, BuildRefresh, Capture, NotParked;
    if IsTeam(winner) {
      FinalizeMatchKeepsProtected(st, winner, if st.live.me.forfeit && winner != st.live.me.team then FromLocalForfeit
                                              else FromMatchDestroyed, nowUnixMs, g);
    } else if EarlyExit(st.live).ValidExit? && st.live.me.forfeit {
      FinalizeMatchKeepsProtected(st, 1 - st.live.me.team, FromLocalForfeit, nowUnixMs, g);
    } else {
      ParkOrVoidKeepsProtected(st, nowUnixMs, g);
    }
  }

  lemma DestroyKeepsProtected(st: State, e: DestroyEvent, nowUnixMs: int, g: nat)
    requires Protected(st, g)
    ensures StaysProtected(MatchDestroyed(st, e, nowUnixMs), g)
  {
    hide ResolveDestroyed, WithForfeit, WithScore;
    var st1 := AttachTerminalGuid(st, e.guid);
    var st2 := st1.(live := DestroySeen(st1.live, e));
    if !DestroyIgnored(st1, e.guid) && st2.live.inMatch {
      assert st.live.generation != g;
      ResolveKeepsProtected(st2, e.winner.GetOr(-1), nowUnixMs, g);
    }
  }

  // ---------------------------------------------------------------- updates and the rest

  lemma ArenaKeepsUnnamed(st: State, name: string, asset: string, keepPlaylist: bool)
    requires st.live.generation == st.nextGeneration
    ensures KeepsUnnamed(st, ArenaSeen(st, name, asset, keepPlaylist))
  {
    hide NonRecordableContext;
  }

  lemma PlaylistKeepsUnnamed(st: State, id: int)
    requires st.live.generation == st.nextGeneration
    ensures KeepsUnnamed(st, PlaylistSeen(st, id))
  {
    hide NonRecordableContext, PlaylistLatched;
  }

  lemma UpdateKeepsProtected(st: State, e: UpdateEvent, g: nat)
    requires Protected(st, g)
    ensures Protected(UpdateSeen(st, e), g)
  {
    hide ArenaSeen, PlaylistSeen, NotParked, WithForfeit, WithScore, ContextSignals, LobbySeen, LocalSeen, PlaySeen;
    var st0 := UpdateFlags(st, e);
    var st1 := UpdateArena(st0, e);
    if e.arena.Some? { ArenaKeepsUnnamed(st0, e.arena.value.0, e.arena.value.1, e.playlistId.None?); }
    assert Protected(st1, g);
    if e.playlistId.Some? { PlaylistKeepsUnnamed(st1, e.playlistId.value); }
    assert Protected(UpdatePlaylist(st1, e), g);
  }

  lemma OtherEventsKeepProtected(st: State, e: Event, nowUnixMs: int, g: nat)
    requires Protected(st, g) && !Names(st, e, g) && ChangesOnlyLive(e)
    ensures StaysProtected(Step(st, e, nowUnixMs), g)
  {
    hide NotParked, NonRecordableContext;
  }

  /** No event but a MatchCreated that names it saves, voids or parks the protected match, or names it. */
  lemma StepKeepsProtected(st: State, e: Event, nowUnixMs: int, g: nat)
    requires Protected(st, g) && !Names(st, e, g)
    ensures StaysProtected(Step(st, e, nowUnixMs), g)
  {
    hide MatchEnded, MatchDestroyed, Confirm, UpdateSeen, Protected;
    match e
    case OnMatchEnded(end) => EndKeepsProtected(st, end, nowUnixMs, g);
    case OnMatchDestroyed(destroy) => DestroyKeepsProtected(st, destroy, nowUnixMs, g);
    case ConfirmDestroyed(guid, won) => ConfirmKeepsProtected(st, guid, won, g);
    case OnUpdate(update) => UpdateKeepsProtected(st, update, g);
    case _ => OtherEventsKeepProtected(st, e, nowUnixMs, g);
  }

  // ---------------------------------------------------------------- over whole runs

  ghost predicate NeverNamed(t: Trace, more: seq<Timed>, g: nat) {
    forall k | 0 <= k < |more| :: !Names(After(t, more[..k]).st, more[k].event, g)
  }

  lemma {:induction false} StaysProtectedLater(t: Trace, more: seq<Timed>, g: nat)
    requires Protected(t.st, g) && NeverNamed(t, more, g)
    ensures var later := After(t, more);
      && Protected(later.st, g) && t.log <= later.log
      && forall i | |t.log| <= i < |later.log| :: later.log[i].match_.generation != g
  {
    hide Step, Protected, Names;
    if more != [] {
      var init := more[..|more| - 1];
      var last := more[|more| - 1];
      assert forall k | 0 <= k < |init| :: init[..k] == more[..k];
      StaysProtectedLater(t, init, g);
      StepKeepsProtected(After(t, init).st, last.event, last.nowUnixMs, g);
    }
  }

  /**
   A reconnect in any reachable state in which an open match without a GUID is in play. Whatever
   follows, until a MatchCreated gives that match a GUID it is not saved, not parked and not voided;
   and it is the live match until another lifecycle is.
   */
  lemma ReconnectProtects(events: seq<Timed>, more: seq<Timed>)
    requires var live := Run(events).st.live; live.inMatch && !live.matchFinalized && live.guid == ""
    requires NeverNamed(Reconnected(events), more, Run(events).st.live.generation)
    ensures var g := Run(events).st.live.generation; var later := After(Reconnected(events), more);
      && (forall i | 0 <= i < |later.log| :: later.log[i].match_.generation != g)
      && NotParked(later.st.pending, g)
      && (later.st.live.generation == g ==> Unnamed(later.st.live))
  {
    hide Run;
    var t := Run(events);
    assert Reconnected(events) == Trace(Disconnected(t.st), t.log);
    hide Step;
    var g := t.st.live.generation;
    OpenIsNeitherSavedNorParked(events);
    StaysProtectedLater(Reconnected(events), more, g);
  }

  ghost function Reconnected(events: seq<Timed>): Trace {
    Next(Run(events), Timed(TelemetryDisconnected, 0))
  }

  lemma OpenIsNeitherSavedNorParked(events: seq<Timed>)
    requires var live := Run(events).st.live; live.inMatch && !live.matchFinalized
    ensures var t := Run(events);
      && NotSaved(t.log, t.st.live.generation) && NotParked(t.st.pending, t.st.live.generation)
      && t.st.live.generation == t.st.nextGeneration
  {
    RunIsSafe(events);
    CaptureIsReady(Run(events).st, 0, Run(events).log);
  }
}
