/**
 The clock of the tracker, told from the events alone. Every value it keeps up to date is
 shown to be what a look back over all events so far gives: whether a round is on, which
 team had the ball last, and the seconds of play that each team was the one to have it.
 */
module TrackerHistory {
  import opened Options
  import opened TrackerSpec
  import opened TrackerTime

  // ---------------------------------------------------------------- looking back

  predicate PausedAfter(events: seq<Timed>) {
    events != [] &&
    match events[|events| - 1].event
    case Paused => true
    case Unpaused => false
    case _ => PausedAfter(events[..|events| - 1])
  }

  /** When the pause that is on began. */
  function PausedSince(events: seq<Timed>): Option<real> {
    if events == [] then None
    else
      var earlier, last := events[..|events| - 1], events[|events| - 1];
      match last.event
      case Paused => if PausedAfter(earlier) then PausedSince(earlier) else Some(last.at)
      case Unpaused => None
      case _ => PausedSince(earlier)
  }

  /** The match clock as it was last reported. */
  function ClockAfter(events: seq<Timed>): Option<real> {
    if events == [] then None
    else
      var last := events[|events| - 1].event;
      if last.Updated? && last.update.clockSeconds.Some? then last.update.clockSeconds
      else ClockAfter(events[..|events| - 1])
  }

  /** The clock moves only in live play, so an update that shows it moved shows that a round is on. */
  predicate ShowsPlay(earlier: seq<Timed>, u: Update) {
    && !u.replay && !PausedAfter(earlier)
    && u.clockSeconds.Some? && ClockAfter(earlier).Some? && u.clockSeconds.value != ClockAfter(earlier).value
  }

  predicate RoundOn(events: seq<Timed>) {
    events != [] &&
    var earlier := events[..|events| - 1];
    match events[|events| - 1].event
    case Updated(u) => RoundOn(earlier) || ShowsPlay(earlier, u)
    case RoundStarted => !PausedAfter(earlier)
    case BallWasHit(hit) => RoundOn(earlier) || (hit.hitters != [] && !PausedAfter(earlier))
    case GoalScored(echo, _) => echo && RoundOn(earlier)
    case CountdownBegan => false
    case MatchEnded => false
    case _ => RoundOn(earlier)
  }

  /** Seconds are counted from the latest update, start of a round, or end of a pause. */
  function CountedFrom(events: seq<Timed>): Option<real> {
    if events == [] then None
    else
      var earlier, last := events[..|events| - 1], events[|events| - 1];
      if last.event.Updated? || last.event.RoundStarted? || (last.event.Unpaused? && PausedAfter(earlier))
      then Some(last.at) else CountedFrom(earlier)
  }

  /** The seconds of play the latest event adds: half a second at most, and none outside play. */
  function Counted(events: seq<Timed>): real
    requires events != []
  {
    var earlier, last := events[..|events| - 1], events[|events| - 1];
    if !last.event.Updated? || last.event.update.replay || PausedAfter(earlier) || !RoundOn(events) then 0.0
    else
      var passed := last.at - CountedFrom(earlier).GetOr(last.at);
      if passed < 0.0 then 0.0 else if passed > 0.5 then 0.5 else passed
  }

  /** The last of the hitters that is known and on a team. */
  function HitBy(hitters: seq<Hit>, otherwise: int): int {
    if hitters == [] then otherwise
    else
      var h := hitters[|hitters| - 1];
      if h.id != "" && (h.team == 0 || h.team == 1) then h.team else HitBy(hitters[..|hitters| - 1], otherwise)
  }

  /** Who had the ball last; nobody yet at the start of a round. */
  function Holder(events: seq<Timed>): int {
    if events == [] then -1
    else
      var before := Holder(events[..|events| - 1]);
      match events[|events| - 1].event
      case Updated(u) => if Counted(events) > 0.0 && (u.ballTeam == Some(0) || u.ballTeam == Some(1))
                         then u.ballTeam.value else before
      case RoundStarted => -1
      case BallWasHit(hit) => HitBy(hit.hitters, before)
      case _ => before
  }

  function PlayOver(events: seq<Timed>): real {
    if events == [] then 0.0 else PlayOver(events[..|events| - 1]) + Counted(events)
  }

  /** The seconds of play, past `from` up to `to` on the play clock, in which `team` was the last to have the ball. */
  function HeldBetween(events: seq<Timed>, team: int, from: real, to: real): real {
    if events == [] then 0.0
    else
      HeldBetween(events[..|events| - 1], team, from, to)
      + (if Holder(events) == team && from < PlayOver(events) <= to then Counted(events) else 0.0)
  }

  function HeldBy(events: seq<Timed>, team: int): real {
    if events == [] then 0.0
    else HeldBy(events[..|events| - 1], team) + (if Holder(events) == team then Counted(events) else 0.0)
  }

  function PausedFor(events: seq<Timed>): real {
    if events == [] then 0.0
    else
      var earlier, last := events[..|events| - 1], events[|events| - 1];
      PausedFor(earlier)
      + (if last.event.Unpaused? && PausedSince(earlier).Some? && last.at > PausedSince(earlier).value
         then last.at - PausedSince(earlier).value else 0.0)
  }

  function Pauses(events: seq<Timed>): nat {
    if events == [] then 0
    else
      var earlier := events[..|events| - 1];
      Pauses(earlier) + (if events[|events| - 1].event.Paused? && !PausedAfter(earlier) then 1 else 0)
  }

  // ---------------------------------------------------------------- the clock remembers it

  /** What decides about seconds. */
  ghost predicate Remembers(c: Clock, events: seq<Timed>) {
    && c.paused == PausedAfter(events) && c.pausedAt == PausedSince(events)
    && c.lastClock == ClockAfter(events) && c.roundActive == RoundOn(events)
    && c.lastSampleAt == CountedFrom(events)
  }

  lemma PausedIsSince(events: seq<Timed>)
    ensures PausedAfter(events) <==> PausedSince(events).Some?
  {
    if events != [] { PausedIsSince(events[..|events| - 1]); }
  }

  lemma {:induction false} HitsLeaveClock(t: Tracker, hits: seq<Hit>, first: bool, f: Frame)
    ensures OnHits(t, hits, first, f).clock == t.clock.(team := HitBy(hits, t.clock.team))
  {
    hide Touch, Merges, HitterOf, SetLast;
    if hits != [] {
      HitsLeaveClock(t, hits[..|hits| - 1], first, f);
    }
  }

  /** An event and the clock before it. */
  lemma StepClock(t: Tracker, e: Event, at: real)
    ensures Step(t, e, at).clock == match e
      case Updated(u) => UpdateClock(t.clock, u, at)
      case CountdownBegan => t.clock.(roundActive := false)
      case RoundStarted => t.clock.(roundActive := !t.clock.paused, lastSampleAt := Some(at), team := -1)
      case BallWasHit(hit) =>
        if hit.hitters == [] then t.clock
        else t.clock.(roundActive := t.clock.roundActive || !t.clock.paused,
                      team := HitBy(hit.hitters, t.clock.team))
      case GoalScored(echo, _) => if echo then t.clock else t.clock.(roundActive := false)
      case BoostPickedUp(_, _, _) => t.clock
      case Paused => PauseClock(t.clock, at)
      case Unpaused => UnpauseClock(t.clock, at)
      case MatchEnded => t.clock.(roundActive := false)
  {
    hide UpdateClock, PauseClock, UnpauseClock, OnHits, SampleCars, CloseKickoff;
    match e
    case BallWasHit(hit) => HitsLeaveClock(InPlay(t), hit.hitters, t.kicks.awaiting, Frame(at, hit.speed));
    case _ =>
  }

  lemma UpdateRemembers(c: Clock, u: Update, at: real)
    ensures var d := UpdateClock(c, u, at);
      && d.paused == c.paused && d.pausedAt == c.pausedAt && d.pausedSeconds == c.pausedSeconds && d.pauses == c.pauses
      && d.lastClock == (if u.clockSeconds.Some? then u.clockSeconds else c.lastClock)
      && d.roundActive == (c.roundActive || (!u.replay && !c.paused && u.clockSeconds.Some? && c.lastClock.Some?
                                             && u.clockSeconds.value != c.lastClock.value))
      && d.lastSampleAt == Some(at)
  {}

  lemma StepRemembers(c: Clock, events: seq<Timed>)
    requires events != []
    requires var earlier := events[..|events| - 1]; Remembers(c, earlier)
    ensures forall t: Tracker | t.clock == c ::
              Remembers(Step(t, events[|events| - 1].event, events[|events| - 1].at).clock, events)
  {
    hide UpdateClock;
    var last := events[|events| - 1];
    PausedIsSince(events[..|events| - 1]);
    if last.event.Updated? { UpdateRemembers(c, last.event.update, last.at); }
    forall t: Tracker | t.clock == c ensures Remembers(Step(t, last.event, last.at).clock, events) {
      StepClock(t, last.event, last.at);
    }
  }

  lemma {:induction false} RunRemembers(events: seq<Timed>)
    ensures Remembers(Run(events).clock, events)
  {
    if events == [] {
    } else {
      hide Step, Remembers;
      var earlier := events[..|events| - 1];
      RunRemembers(earlier);
      StepRemembers(Run(earlier).clock, events);
    }
  }

  // ---------------------------------------------------------------- seconds and who had the ball

  /** One update, on a clock that remembers the events before it. */
  lemma UpdateCounts(c: Clock, events: seq<Timed>)
    requires events != [] && events[|events| - 1].event.Updated? && Remembers(c, events[..|events| - 1])
    ensures var last := events[|events| - 1]; var u := last.event.update; var seen := ClockSeen(c, u);
      && (Counts(seen, u, last.at) <==> Counted(events) > 0.0)
      && (Counts(seen, u, last.at) ==> SampleSeconds(seen, last.at) == Counted(events))
      && 0.0 <= Counted(events) <= 0.5
  {
  }

  lemma OnlyUpdatesCount(events: seq<Timed>)
    requires events != [] && !events[|events| - 1].event.Updated?
    ensures Counted(events) == 0.0
  {}

  /** The clock's sums, as sums over the events. */
  ghost predicate Tallies(c: Clock, events: seq<Timed>) {
    && c.team == Holder(events) && c.play == PlayOver(events)
    && c.possession.blue == HeldBy(events, 0) && c.possession.orange == HeldBy(events, 1)
    && c.pausedSeconds == PausedFor(events) && c.pauses == Pauses(events)
  }

  lemma AddedPlay(c: Clock, seconds: real)
    ensures var d := AddPlayTime(c, seconds);
      && d.play == c.play + seconds && d.team == c.team && d.pausedSeconds == c.pausedSeconds && d.pauses == c.pauses
      && d.possession.blue == c.possession.blue + (if c.team == 0 then seconds else 0.0)
      && d.possession.orange == c.possession.orange + (if c.team == 1 then seconds else 0.0)
  {}

  lemma UpdateTallies(t: Tracker, events: seq<Timed>)
    requires events != [] && events[|events| - 1].event.Updated?
    requires var earlier := events[..|events| - 1]; Remembers(t.clock, earlier) && Tallies(t.clock, earlier)
    ensures Tallies(UpdateClock(t.clock, events[|events| - 1].event.update, events[|events| - 1].at), events)
  {
    hide AddPlayTime, Remembers, Counts, SampleSeconds, Counted;
    var last := events[|events| - 1];
    var u := last.event.update;
    var seen := ClockSeen(t.clock, u);
    UpdateCounts(t.clock, events);
    if Counts(seen, u, last.at) {
      var team := if u.ballTeam == Some(0) || u.ballTeam == Some(1) then u.ballTeam.value else seen.team;
      AddedPlay(seen.(lastSampleAt := Some(last.at), team := team), SampleSeconds(seen, last.at));
    }
  }

  lemma OtherTallies(t: Tracker, events: seq<Timed>)
    requires events != [] && !events[|events| - 1].event.Updated?
    requires var earlier := events[..|events| - 1]; Remembers(t.clock, earlier) && Tallies(t.clock, earlier)
    ensures Tallies(Step(t, events[|events| - 1].event, events[|events| - 1].at).clock, events)
  {
    hide Step, Counted;
    var last := events[|events| - 1];
    OnlyUpdatesCount(events);
    PausedIsSince(events[..|events| - 1]);
    StepClock(t, last.event, last.at);
  }

  /**
   Over every run: play is the sum of the seconds counted, and each team's possession the sum of those in
   which it was the last to have the ball; the pauses are as long and as many as the events say.
   */
  lemma {:induction false} ClockIsHistory(events: seq<Timed>)
    ensures var c := Run(events).clock;
      && c.play == PlayOver(events) && c.team == Holder(events)
      && c.possession.blue == HeldBy(events, 0) && c.possession.orange == HeldBy(events, 1)
      && c.pausedSeconds == PausedFor(events) && c.pauses == Pauses(events)
      && c.roundActive == RoundOn(events) && c.paused == PausedAfter(events)
  {
    RunRemembers(events);
    if events == [] {
    } else {
      hide Step, Counted, UpdateClock;
      var earlier, last := events[..|events| - 1], events[|events| - 1];
      RunRemembers(earlier);
      ClockIsHistory(earlier);
      if last.event.Updated? {
        UpdateTallies(Run(earlier), events);
        StepClock(Run(earlier), last.event, last.at);
      } else {
        OtherTallies(Run(earlier), events);
      }
    }
  }

  // ---------------------------------------------------------------- the windows of the timeline

  /** What each team held of one stretch of play. */
  function Stretch(events: seq<Timed>, from: real, to: real): Pair {
    Pair(HeldBetween(events, 0, from, to), HeldBetween(events, 1, from, to))
  }

  lemma {:induction false} NothingAhead(events: seq<Timed>, team: int, from: real, to: real)
    requires from >= PlayOver(events)
    ensures HeldBetween(events, team, from, to) == 0.0
  {
    hide Counted;
    if events != [] {
      CountedIsSmall(events);
      NothingAhead(events[..|events| - 1], team, from, to);
    }
  }

  lemma {:induction false} AllBehind(events: seq<Timed>, team: int, from: real, to: real)
    requires to >= PlayOver(events)
    ensures HeldBetween(events, team, from, to) == HeldBetween(events, team, from, PlayOver(events))
  {
    hide Counted;
    if events != [] {
      var earlier := events[..|events| - 1];
      CountedIsSmall(events);
      AllBehind(earlier, team, from, to);
      AllBehind(earlier, team, from, PlayOver(events));
    }
  }

  lemma CountedIsSmall(events: seq<Timed>)
    requires events != []
    ensures 0.0 <= Counted(events) <= 0.5
  {}

  /** The windows pushed so far, and the one that fills, hold what the events say of their stretch of play. */
  ghost predicate Tells(c: Clock, events: seq<Timed>) {
    && c.window.end <= c.play == PlayOver(events)
    && (forall i | 0 <= i < |c.timeline| ::
          && c.timeline[i].end <= c.play
          && c.timeline[i].seconds == Stretch(events, Start(c.timeline, i), c.timeline[i].end))
    && c.window.end == Start(c.timeline, |c.timeline|)
    && c.window.seconds == Stretch(events, c.window.end, c.play)
  }

  /** An event that adds no play leaves every stretch as it is; one that does changes only what ends behind it. */
  lemma StretchStep(events: seq<Timed>, from: real, to: real)
    requires events != []
    ensures var earlier := events[..|events| - 1];
      && (Counted(events) == 0.0 || to <= PlayOver(earlier) ==> Stretch(events, from, to) == Stretch(earlier, from, to))
      && (Counted(events) > 0.0 && from <= PlayOver(earlier) ==>
            var before := Stretch(earlier, from, PlayOver(earlier));
            var after := Stretch(events, from, PlayOver(events));
            && after.blue == before.blue + (if Holder(events) == 0 then Counted(events) else 0.0)
            && after.orange == before.orange + (if Holder(events) == 1 then Counted(events) else 0.0))
  {
    hide Counted, Holder;
    var earlier := events[..|events| - 1];
    CountedIsSmall(events);
    AllBehind(earlier, 0, from, PlayOver(events));
    AllBehind(earlier, 1, from, PlayOver(events));
  }

  lemma AddedWindow(c: Clock, seconds: real)
    ensures var d := AddPlayTime(c, seconds);
      var filled := Pair(c.window.seconds.blue + (if c.team == 0 then seconds else 0.0),
                         c.window.seconds.orange + (if c.team == 1 then seconds else 0.0));
      if c.play + seconds < c.window.end + 15.0
      then d.timeline == c.timeline && d.window == Window(c.window.end, filled)
      else d.timeline == c.timeline + [Window(c.play + seconds, filled)]
           && d.window == Window(c.play + seconds, Pair(0.0, 0.0))
  {}

  lemma CountedTells(c: Clock, d: Clock, events: seq<Timed>)
    requires events != [] && Counted(events) > 0.0 && Tells(c, events[..|events| - 1])
    requires d.play == PlayOver(events)
    requires var filled := Pair(c.window.seconds.blue + (if Holder(events) == 0 then Counted(events) else 0.0),
                                c.window.seconds.orange + (if Holder(events) == 1 then Counted(events) else 0.0));
      || (d.timeline == c.timeline && d.window == Window(c.window.end, filled))
      || (d.timeline == c.timeline + [Window(d.play, filled)] && d.window == Window(d.play, Pair(0.0, 0.0)))
    ensures Tells(d, events)
  {
    hide Counted, Holder, Stretch, PlayOver;
    CountedAdds(events);
    StretchStep(events, c.window.end, d.play);
    WindowsStay(c, events);
    StretchIsEmpty(events);
    if d.timeline != c.timeline {
      PushedTells(c, d, events);
    }
  }

  lemma PushedTells(c: Clock, d: Clock, events: seq<Timed>)
    requires c.window.end == Start(c.timeline, |c.timeline|) && c.play <= d.play == PlayOver(events)
    requires forall i | 0 <= i < |c.timeline| ::
               && c.timeline[i].end <= c.play
               && c.timeline[i].seconds == Stretch(events, Start(c.timeline, i), c.timeline[i].end)
    requires d.timeline == c.timeline + [Window(d.play, Stretch(events, c.window.end, d.play))]
    requires d.window == Window(d.play, Pair(0.0, 0.0)) && Stretch(events, d.play, d.play) == Pair(0.0, 0.0)
    ensures Tells(d, events)
  {
    hide Stretch, PlayOver;
    forall i | 0 <= i < |c.timeline|
      ensures d.timeline[i] == c.timeline[i] && Start(d.timeline, i) == Start(c.timeline, i)
    {
    }
  }

  /** What was pushed before stays as told. */
  lemma WindowsStay(c: Clock, events: seq<Timed>)
    requires events != [] && Tells(c, events[..|events| - 1])
    ensures forall i | 0 <= i < |c.timeline| ::
              c.timeline[i].seconds == Stretch(events, Start(c.timeline, i), c.timeline[i].end)
  {
    hide Counted, Holder, Stretch, PlayOver;
    forall i | 0 <= i < |c.timeline|
      ensures c.timeline[i].seconds == Stretch(events, Start(c.timeline, i), c.timeline[i].end)
    {
      StretchStep(events, Start(c.timeline, i), c.timeline[i].end);
    }
  }

  lemma CountedAdds(events: seq<Timed>)
    requires events != []
    ensures PlayOver(events) == PlayOver(events[..|events| - 1]) + Counted(events)
  {}

  lemma StretchIsEmpty(events: seq<Timed>)
    ensures Stretch(events, PlayOver(events), PlayOver(events)) == Pair(0.0, 0.0)
  {
    NothingAhead(events, 0, PlayOver(events), PlayOver(events));
    NothingAhead(events, 1, PlayOver(events), PlayOver(events));
  }

  lemma UncountedTells(c: Clock, d: Clock, events: seq<Timed>)
    requires events != [] && Counted(events) == 0.0 && Tells(c, events[..|events| - 1])
    requires d.play == c.play && d.window == c.window && d.timeline == c.timeline
    ensures Tells(d, events)
  {
    hide Counted, Holder, Stretch, PlayOver;
    CountedAdds(events);
    StretchStep(events, c.window.end, c.play);
    WindowsStay(c, events);
  }

  lemma UpdateTells(c: Clock, events: seq<Timed>)
    requires events != [] && events[|events| - 1].event.Updated?
    requires var earlier := events[..|events| - 1];
      Remembers(c, earlier) && c.team == Holder(earlier) && Tells(c, earlier)
    ensures Tells(UpdateClock(c, events[|events| - 1].event.update, events[|events| - 1].at), events)
  {
    hide AddPlayTime, Remembers, Counts, SampleSeconds, Counted, Tells;
    var last := events[|events| - 1];
    var u := last.event.update;
    var seen := ClockSeen(c, u);
    var d := UpdateClock(c, u, last.at);
    UpdateCounts(c, events);
    CountedAdds(events);
    TellsPlay(c, events[..|events| - 1]);
    if Counts(seen, u, last.at) {
      var team := if u.ballTeam == Some(0) || u.ballTeam == Some(1) then u.ballTeam.value else seen.team;
      AddedPlay(seen.(lastSampleAt := Some(last.at), team := team), Counted(events));
      AddedWindow(seen.(lastSampleAt := Some(last.at), team := team), Counted(events));
      CountedTells(c, d, events);
    } else {
      UncountedTells(c, d, events);
    }
  }

  lemma TellsPlay(c: Clock, events: seq<Timed>)
    requires Tells(c, events)
    ensures c.play == PlayOver(events)
  {}

  /**
   Each window of the timeline, and the one being filled, holds for each team the seconds of its stretch of
   play in which that team was the last to have the ball; a window closes with the first update that
   takes it to 15 seconds of play.
   */
  lemma {:induction false} TimelineIsHistory(events: seq<Timed>)
    ensures Tells(Run(events).clock, events)
  {
    if events == [] {
    } else {
      hide Step, Counted, UpdateClock, Tells, Remembers;
      var earlier, last := events[..|events| - 1], events[|events| - 1];
      RunRemembers(earlier);
      ClockIsHistory(earlier);
      TimelineIsHistory(earlier);
      StepClock(Run(earlier), last.event, last.at);
      if last.event.Updated? {
        UpdateTells(Run(earlier).clock, events);
      } else {
        OnlyUpdatesCount(events);
        UncountedTells(Run(earlier).clock, Run(events).clock, events);
      }
    }
  }

  /** A snapshot shows the closed windows, and the one being filled if a team had the ball in it. */
  lemma SnapshotIsHistory(events: seq<Timed>)
    ensures var c := Run(events).clock; var now := Stretch(events, c.window.end, PlayOver(events));
      SnapshotTimeline(c)
      == c.timeline + (if now.blue > 0.0 || now.orange > 0.0 then [Window(PlayOver(events), now)] else [])
  {
    hide Stretch, Run;
    TimelineIsHistory(events);
    var c := Run(events).clock;
    assert c.timeline + [] == c.timeline;
  }
}
