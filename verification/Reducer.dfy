/**
 The match state and its handlers as the program has them: fields updated in place,
 early returns, effects accumulated on the way (src/core/reducer/TelemetryReducer*.cpp).
 Every method is proved to compute the function of ReducerSpec with its name, so the
 theorems about runs of those functions are theorems about this class.
 */
module Reducer {
  import opened Options
  import opened Teams
  import opened Gamemodes
  import opened Playlists
  import opened SessionTypes
  import opened ReducerSpec
  import S = ReducerSpec

  // ---------------------------------------------------------------- roster sums

  /** The goals of a roster do not depend on the order its players are visited in. */
  lemma {:induction false} RosterGoalsAnyKey(roster: Roster, team: int, id: string)
    requires id in roster
    ensures RosterGoals(roster, team)
         == RosterGoals(roster - {id}, team) + (if roster[id].team == team then roster[id].goals else 0)
    decreases |roster|
  {
    var first :| first in roster && RosterGoals(roster, team) == RosterGoals(roster - {first}, team)
                 + (if roster[first].team == team then roster[first].goals else 0);
    if first != id {
      var rest := roster - {first};
      assert |rest.Keys| < |roster.Keys| by { assert rest.Keys == roster.Keys - {first}; }
      RosterGoalsAnyKey(rest, team, id);
      var others := roster - {id};
      assert |others.Keys| < |roster.Keys| by { assert others.Keys == roster.Keys - {id}; }
      RosterGoalsAnyKey(others, team, first);
      assert rest - {id} == others - {first};
    }
  }

  method CountRosterGoals(roster: Roster, team: int) returns (goals: int)
    ensures goals == RosterGoals(roster, team)
  {
    goals := 0;
    var left := roster;
    while left != map[]
      invariant goals + RosterGoals(left, team) == RosterGoals(roster, team)
      decreases |left|
    {
      var id :| id in left;
      RosterGoalsAnyKey(left, team, id);
      if left[id].team == team {
        goals := goals + left[id].goals;
      }
      assert (left - {id}).Keys == left.Keys - {id};
      left := left - {id};
    }
  }

  method AddStats(t: Totals, stats: Stats) returns (r: Totals)
    ensures r == t.(counters := t.counters.Plus(stats.counters), peaks := t.peaks.Raised(stats.peaks),
                    fastest := t.fastest.Lowered(stats.fastest))
  {
    r := t.(counters := t.counters.Plus(stats.counters), peaks := t.peaks.Raised(stats.peaks));
    var fastest := t.fastest;
    if stats.fastest.goal > 0.0 && (fastest.goal == 0.0 || stats.fastest.goal < fastest.goal) {
      fastest := fastest.(goal := stats.fastest.goal);
    }
    if stats.fastest.goalSelf > 0.0 && (fastest.goalSelf == 0.0 || stats.fastest.goalSelf < fastest.goalSelf) {
      fastest := fastest.(goalSelf := stats.fastest.goalSelf);
    }
    r := r.(fastest := fastest);
  }

  method AddTeamPlay(t: Totals, m: Captured) returns (r: Totals)
    ensures r == t.(teamGoals := t.teamGoals + CountedTeamGoals(m),
                    participations := t.participations + CountedParticipations(m))
  {
    r := t;
    if m.mode != Duel {
      var teamGoals := 0;
      if IsTeam(m.me.team) {
        teamGoals := m.play.score.Of(m.me.team);
      }
      if teamGoals <= 0 {
        var rosterGoals := CountRosterGoals(m.play.roster, m.me.team);
        teamGoals := teamGoals + rosterGoals;
      }
      var own := m.play.stats.counters;
      var participation := Clamp(own.goals + own.assists, 0, Max(0, teamGoals));
      r := r.(teamGoals := t.teamGoals + Max(0, teamGoals), participations := t.participations + participation);
    }
  }

  method AddMatchToTotals(book: Book, m: Captured, iWon: bool) returns (r: Book)
    ensures r == AddMatch(book, m, iWon)
  {
    hide CountedTeamGoals, CountedParticipations, CountsForMode;
    var t := book.totals;
    if iWon { t := t.(wins := t.wins + 1); } else { t := t.(losses := t.losses + 1); }
    t := AddStats(t, m.play.stats);
    t := AddTeamPlay(t, m);
    var modes := book.modes;
    if CountsForMode(m) {
      var stat := StatOf(book, m.mode);
      if iWon { stat := stat.(wins := stat.wins + 1); } else { stat := stat.(losses := stat.losses + 1); }
      modes := modes[m.mode := stat.(total := stat.total + 1)];
    }
    r := Book(t, modes);
  }

  // ---------------------------------------------------------------- the match state

  class MatchState {
    var live: Live
    var session: Session
    var recap: Option<Recap>
    var pending: map<string, Captured>
    var finalized: set<string>
    var nextGeneration: nat

    ghost function View(): State
      reads this
    {
      State(live, session, recap, pending, finalized, nextGeneration)
    }

    constructor ()
      ensures View() == INITIAL
    {
      live, session, recap := IDLE, INITIAL.session, None;
      pending, finalized, nextGeneration := map[], {}, 0;
    }

    method RecordTerminal(guid: string)
      modifies this`finalized
      ensures finalized == S.RecordTerminal(old(finalized), guid)
    {
      if guid != "" {
        finalized := finalized + {guid};
      }
    }

    method ResetTiming()
      modifies this`live
      ensures live == old(live).(overtime := None)
    {
      live := live.(overtime := None);
    }

    method MarkVoid(reason: Reason, fx0: Effects) returns (fx: Effects)
      modifies this
      ensures Out(View(), fx) == S.MarkVoid(old(View()), reason, fx0)
    {
      RecordTerminal(live.guid);
      live := live.(result := Result(true, reason, Summary(live.play.score, live.me.team, -1, 0.0)));
      live := live.(matchFinalized := true);
      fx := fx0.(pushDiscord := true);
    }

    // ---------------------------------------------------------------- finalizing

    method AddToBooks(m: Captured, iWon: bool, fx0: Effects) returns (fx: Effects)
      modifies this
      ensures live == old(live) && pending == old(pending) && finalized == old(finalized)
      ensures nextGeneration == old(nextGeneration)
      ensures session == (if m.sessionGeneration == old(session.generation)
                          then AddToSession(old(session), m, iWon) else old(session))
      ensures recap == (if CountsForRecap(old(View()), m)
                        then Some(AddToRecap(old(recap).value, m, iWon)) else old(recap))
      ensures fx == if CountsForRecap(old(View()), m) then fx0.(updateSession := recap) else fx0
    {
      fx := fx0;
      if m.sessionGeneration == session.generation {
        var book := AddMatchToTotals(session.book, m, iWon);
        var ended := if m.endedAtMs > 0 then m.endedAtMs / 1000 else 0;
        session := session.(book := book);
        if ended > 0 {
          if session.startedAt <= 0 || ended < session.startedAt {
            session := session.(startedAt := ended);
          }
          session := session.(lastEndedAt := Max(session.lastEndedAt, ended));
        }
        if m.guid != "" && m.guid !in session.guids {
          session := session.(guids := session.guids + [m.guid]);
        }
      } else if recap.Some? && recap.value.generation == m.sessionGeneration {
        var book := AddMatchToTotals(recap.value.book, m, iWon);
        var r := recap.value.(book := book);
        if m.guid != "" && m.guid !in r.guids {
          r := r.(guids := r.guids + [m.guid]);
        }
        if r.account == "" && m.me.primaryId != "" {
          r := r.(account := m.me.primaryId);
        }
        recap := Some(r);
        fx := fx.(updateSession := recap);
      }
    }

    method ShowResult(m: Captured, winner: int, d: Decision)
      modifies this`live
      ensures live == ResultShown(old(live), m, winner, d)
    {
      if IsCurrent(live, m) {
        live := live.(matchFinalized := true);
        live := live.(result := Result(!d.persist, d.reason, Summary(m.play.score, m.me.team, winner, m.overtime)));
      }
      ResetTiming();
    }

    method FinalizeCaptured(m: Captured, winner: int, source: Source, enqueue: bool, fx0: Effects) returns (fx: Effects)
      modifies this
      ensures Out(View(), fx) == S.FinalizeCaptured(old(View()), m, winner, source, enqueue, fx0)
    {
      hide AddToSession, AddToRecap, ClassifyMatchEnd, BuildRefresh, S.RecordTerminal, ResultShown;
      fx := fx0;
      if m.guid != "" && m.guid in finalized {
        return;
      }
      RecordTerminal(m.guid);
      var d := ClassifyMatchEnd(m, winner);
      if IsCurrent(live, m) {
        fx := fx.(pushDiscord := true);
      }
      ShowResult(m, winner, d);
      if !d.persist {
        return;
      }
      fx := AddToBooks(m, d.iWon, fx);
      if enqueue {
        var refresh := BuildRefresh(m, d.iWon);
        if refresh.Some? {
          fx := fx.(refresh := Some(refresh.value.(immediate := source == FromLocalForfeit)));
        }
      }
      fx := fx.(save := Some(Saved(m, winner, d.iWon)));
    }

    method FinalizeMatch(winner: int, source: Source, nowUnixMs: int, fx0: Effects) returns (fx: Effects)
      modifies this
      ensures Out(View(), fx) == S.FinalizeMatch(old(View()), winner, source, nowUnixMs, fx0)
    {
      if live.matchFinalized || (live.guid != "" && live.guid in finalized) {
        return fx0;
      }
      var m := CaptureMatch(nowUnixMs);
      fx := FinalizeCaptured(m, winner, source, true, fx0);
    }

    method CaptureMatch(nowUnixMs: int) returns (m: Captured)
      ensures m == Capture(View(), nowUnixMs)
    {
      m := Captured(live.guid, live.generation, session.generation, live.roundEverStarted, live.nonLiveReplay,
                    live.me.observed && !live.me.present, live.ctx, live.me, live.lobby, live.play,
                    LiveMode(live), 0.0, nowUnixMs);
      m := m.(play := m.play.(roster := live.play.matchRoster + live.play.roster));
      if live.overtime.Some? {
        m := m.(overtime := live.overtime.value);
      }
    }

    method AttachTerminalGuid(guid: string)
      modifies this
      ensures View() == S.AttachTerminalGuid(old(View()), guid)
    {
      if guid == "" || !live.inMatch || live.matchFinalized || live.guid != "" || live.blocked
         || guid in finalized || guid in pending {
        return;
      }
      live := live.(guid := guid);
    }

    // ---------------------------------------------------------------- MatchEnded

    method ResolveByEnd(e: EndEvent) returns (fx: Effects)
      requires e.guid in pending
      modifies this
      ensures Out(View(), fx) == S.ResolveByEnd(old(View()), e)
    {
      if !IsTeam(e.winner) {
        return NO_EFFECTS;
      }
      var m := pending[e.guid];
      pending := pending - {e.guid};
      if e.scores.Some? {
        m := m.(play := m.play.(score := e.scores.value));
      }
      var forfeit := ForfeitSignal(e.forfeits, m.me.team) && e.winner != m.me.team;
      fx := FinalizeCaptured(m, e.winner, if forfeit then FromLocalForfeit else FromMatchEnded, false, NO_EFFECTS);
      fx := fx.(resolved := Some(Resolved(m.guid, e.winner == m.me.team)));
    }

    method HandleMatchEnded(e: EndEvent, nowUnixMs: int) returns (fx: Effects)
      modifies this
      ensures Out(View(), fx) == MatchEnded(old(View()), e, nowUnixMs)
    {
      hide S.FinalizeMatch, S.ResolveByEnd, ForfeitSignal;
      fx := NO_EFFECTS;
      if e.guid != "" && e.guid in pending {
        fx := ResolveByEnd(e);
        return;
      }
      AttachTerminalGuid(e.guid);
      if e.guid == "" {
        if !live.inMatch || live.matchFinalized || |pending| != 0 || live.guid != "" || live.blocked {
          return;
        }
      } else if e.guid != live.guid {
        return;
      }
      if !live.inMatch || live.matchFinalized {
        return;
      }
      if e.scores.Some? {
        live := live.(play := live.play.(score := e.scores.value));
      }
      var forfeit := ForfeitSignal(e.forfeits, live.me.team) && e.winner != live.me.team;
      fx := FinalizeMatch(e.winner, if forfeit then FromLocalForfeit else FromMatchEnded, nowUnixMs, fx);
    }

    // ---------------------------------------------------------------- MatchDestroyed

    method BuildProvisional(m: Captured) returns (provisional: Option<Saved>)
      ensures provisional == ProvisionalSave(m)
    {
      provisional := None;
      var team := m.me.team;
      if IsTeam(team) && (m.disappeared || m.play.score.blue != m.play.score.orange) {
        var won := !m.disappeared && m.play.score.Of(team) > m.play.score.Of(1 - team);
        var winner := if won then team else 1 - team;
        var d := ClassifyMatchEnd(m, winner);
        if d.persist {
          provisional := Some(Saved(m, winner, d.iWon));
        }
      }
    }

    method ParkMatch(m: Captured, refresh: Refresh, fx0: Effects) returns (fx: Effects)
      modifies this
      ensures Out(View(), fx) == Park(old(View()), m, refresh, fx0)
    {
      var provisional := BuildProvisional(m);
      if m.guid !in pending {
        pending := pending[m.guid := m];
      }
      var summary := live.result.summary.(score := live.play.score, myTeam := live.me.team, winner := -1);
      live := live.(result := Result(true, PendingTracker, summary));
      fx := fx0.(parked := Some(refresh), provisional := provisional);
    }

    method ResolveWithoutWinner(nowUnixMs: int, fx0: Effects) returns (fx: Effects)
      modifies this
      ensures Out(View(), fx) == S.ResolveWithoutWinner(old(View()), nowUnixMs, fx0)
    {
      var exit := EarlyExit(live);
      if exit.InvalidExit? {
        fx := MarkVoid(exit.reason, fx0);
      } else if live.me.forfeit {
        fx := FinalizeMatch(1 - live.me.team, FromLocalForfeit, nowUnixMs, fx0);
      } else {
        var m := CaptureMatch(nowUnixMs);
        m := m.(mode := exit.mode);
        var refresh := BuildRefresh(m, false);
        if refresh.None? {
          fx := MarkVoid(MissingTrackerIdentity, fx0);
        } else {
          fx := ParkMatch(m, refresh.value, fx0);
        }
      }
    }

    method NoteDestroyed(e: DestroyEvent)
      modifies this`live
      ensures live == DestroySeen(old(live), e)
    {
      var me, play := live.me, live.play;
      if ForfeitSignal(e.forfeits, me.team) {
        me := me.(forfeit := true);
      }
      if e.scores.Some? {
        play := play.(score := e.scores.value);
      }
      live := live.(me := me, play := play);
      if live.inMatch {
        ResetTiming();
      }
    }

    method ResolveDestroyed(winner: int, nowUnixMs: int, fx0: Effects) returns (fx: Effects)
      modifies this
      ensures Out(View(), fx) == S.ResolveDestroyed(old(View()), winner, nowUnixMs, fx0)
    {
      fx := fx0;
      if !live.matchFinalized && IsTeam(winner) {
        fx := FinalizeMatch(winner, if live.me.forfeit && winner != live.me.team then FromLocalForfeit
                                    else FromMatchDestroyed, nowUnixMs, fx);
      } else if !live.matchFinalized {
        fx := ResolveWithoutWinner(nowUnixMs, fx);
      }
    }

    method HandleMatchDestroyed(e: DestroyEvent, nowUnixMs: int) returns (fx: Effects)
      modifies this
      ensures Out(View(), fx) == MatchDestroyed(old(View()), e, nowUnixMs)
    {
      fx := NO_EFFECTS;
      if e.guid != "" {
        AttachTerminalGuid(e.guid);
      }
      if live.inMatch {
        if (e.guid != "" && e.guid != live.guid)
           || (e.guid == "" && (|pending| != 0 || live.guid != "" || live.blocked)) {
          return;
        }
      }
      NoteDestroyed(e);
      if !live.inMatch {
        return;
      }
      fx := ResolveDestroyed(e.winner.GetOr(-1), nowUnixMs, fx);
      live := live.(inMatch := false, inReplay := false, nonLiveReplay := false);
      live := live.(ctx := live.ctx.(arenaName := "", arenaAsset := ""), me := live.me.(team := -1));
      fx := fx.(pushDiscord := true);
    }

    // ---------------------------------------------------------------- tracker confirmation

    method ConfirmPendingDestroyed(guid: string, won: bool) returns (fx: Effects)
      modifies this
      ensures Out(View(), fx) == Confirm(old(View()), guid, won)
    {
      if guid !in pending || guid in finalized {
        return NO_EFFECTS;
      }
      var m := pending[guid];
      pending := pending - {guid};
      var winner := -1;
      if IsTeam(m.me.team) {
        winner := if won then m.me.team else 1 - m.me.team;
      }
      fx := FinalizeCaptured(m, winner, FromTracker, false, NO_EFFECTS);
    }

    // ---------------------------------------------------------------- lifecycles

    method StartNewLifecycle(arenaName: string, arenaAsset: string, guid: string)
      modifies this`live, this`nextGeneration
      ensures nextGeneration == old(nextGeneration) + 1
      ensures live == StartLifecycle(ResetMatch(old(live), arenaName, arenaAsset), nextGeneration, guid)
    {
      live := ResetMatch(live, arenaName, arenaAsset);
      nextGeneration := nextGeneration + 1;
      live := live.(generation := nextGeneration, guid := guid, blocked := false);
      live := live.(ctx := live.ctx.(category := CatBest));
      ResetTiming();
    }

    method HandleMatchCreated(guid: string) returns (fx: Effects)
      modifies this
      ensures Out(View(), fx) == MatchCreated(old(View()), guid)
    {
      var startsNew := !live.inMatch || (guid != "" && NonRecordableContext(live))
                       || (guid != "" && live.guid != "" && guid != live.guid);
      var attaches := live.inMatch && guid != "" && live.guid == "" && !NonRecordableContext(live);
      fx := NO_EFFECTS;
      if startsNew {
        StartNewLifecycle(live.ctx.arenaName, "", guid);
      } else if attaches {
        live := live.(guid := guid);
      }
      if startsNew || attaches {
        fx := fx.(pushDiscord := true);
      }
    }

    method HandleArena(name: string, asset: string, keepPlaylist: bool)
      modifies this
      ensures View() == ArenaSeen(old(View()), name, asset, keepPlaylist)
    {
      if name == live.ctx.arenaName && asset == live.ctx.arenaAsset {
        return;
      }
      var previousIsNonRecordable := NonRecordableContext(live);
      if live.inMatch && live.roundEverStarted && !previousIsNonRecordable {
        live := live.(ctx := live.ctx.(arenaName := name, arenaAsset := asset));
      } else if !live.inMatch || previousIsNonRecordable {
        StartNewLifecycle(name, asset, "");
      } else {
        var previousPlaylist := live.ctx.playlistId;
        live := ResetMatch(live, name, asset);
        if keepPlaylist && HasAuthoritativeId(previousPlaylist) {
          live := live.(ctx := live.ctx.(playlistId := previousPlaylist));
        }
        live := live.(ctx := live.ctx.(category := CatBest));
      }
    }

    method HandlePlaylist(id: int)
      modifies this
      ensures View() == PlaylistSeen(old(View()), id)
    {
      if PlaylistLatched(live, id) {
        return;
      }
      if live.inMatch && NonRecordableContext(live) && id != live.ctx.playlistId {
        StartNewLifecycle(live.ctx.arenaName, live.ctx.arenaAsset, live.guid);
      }
      live := live.(ctx := live.ctx.(playlistId := id));
    }

    method HandleUpdateState(e: UpdateEvent)
      modifies this
      ensures View() == UpdateSeen(old(View()), e)
    {
      live := live.(inReplay := e.replay, overtime := e.overtime);
      if e.arena.Some? {
        HandleArena(e.arena.value.0, e.arena.value.1, e.playlistId.None?);
      }
      if e.playlistId.Some? {
        HandlePlaylist(e.playlistId.value);
      }
      live := Readings(live, e);
    }

    // ---------------------------------------------------------------- sessions and disconnects

    method StartNewSession(historyGuids: seq<string>) returns (captured: bool)
      modifies this
      ensures View() == S.StartNewSession(old(View()), historyGuids)
      ensures captured <==> old(session.book.totals.wins + session.book.totals.losses) > 0
    {
      captured := session.book.totals.wins + session.book.totals.losses > 0;
      if captured {
        var guids := session.guids;
        var i := 0;
        while i < |historyGuids|
          invariant 0 <= i <= |historyGuids|
          invariant WithGuids(guids, historyGuids[i..]) == WithGuids(old(session.guids), historyGuids)
        {
          guids := WithGuid(guids, historyGuids[i]);
          i := i + 1;
        }
        recap := Some(Recap(session.book, guids, session.generation, live.me.primaryId));
      }
      session := Session(NO_BOOK, [], session.generation + 1, 0, 0);
    }

    method OnTelemetryDisconnected()
      modifies this
      ensures View() == Disconnected(old(View()))
    {
      if live.inMatch && !live.matchFinalized {
        live := live.(blocked := true);
      }
    }

    method ClearActiveMatchOnDisconnect()
      modifies this
      ensures View() == ClearActive(old(View()))
    {
      var result := live.result;
      live := ResetMatch(live, "", "");
      live := live.(inMatch := false, guid := "");
      live := live.(result := result.(summary := result.summary.(overtime := 0.0)));
      ResetTiming();
    }

    /** One event of a run. */
    method Reduce(e: Event, nowUnixMs: int) returns (fx: Effects)
      modifies this
      ensures Out(View(), fx) == Step(old(View()), e, nowUnixMs)
    {
      fx := NO_EFFECTS;
      match e
      case OnReplayCreated => live := live.(nonLiveReplay := true, inReplay := true);
      case OnMatchCreated(guid) => fx := HandleMatchCreated(guid);
      case OnRoundStarted => live := live.(roundEverStarted := true);
      case OnCounters(stats, roster) => live := live.(play := live.play.(stats := stats, roster := roster));
      case OnOvertimeClock(overtime) => live := live.(overtime := overtime);
      case OnUpdate(update) => HandleUpdateState(update);
      case OnMatchEnded(end) => fx := HandleMatchEnded(end, nowUnixMs);
      case OnMatchDestroyed(destroy) => fx := HandleMatchDestroyed(destroy, nowUnixMs);
      case ConfirmDestroyed(guid, won) => fx := ConfirmPendingDestroyed(guid, won);
      case TelemetryDisconnected => OnTelemetryDisconnected();
      case ClearedOnDisconnect => ClearActiveMatchOnDisconnect();
      case NewSession(historyGuids) => var _ := StartNewSession(historyGuids);
      case SelectedAccount(primaryId, team) => live := live.(me := live.me.(primaryId := primaryId, team := team));
    }
  }
}
