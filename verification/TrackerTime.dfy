/**
 Where the tracked seconds go, over whole runs of the tracker: the play clock and the
 pauses fit into the time that passed, possession fits into the play clock, and the
 possession timeline accounts for every second of possession.
 */
module TrackerTime {
  import opened Options
  import opened Teams
  import opened TrackerSpec

  datatype Timed = Timed(event: Event, at: real)

  ghost function Run(events: seq<Timed>): Tracker {
    if events == [] then TRACKER0
    else var last := events[|events| - 1]; Step(Run(events[..|events| - 1]), last.event, last.at)
  }

  /** Events are stamped by a clock that never goes back. */
  ghost predicate InOrder(events: seq<Timed>) {
    forall i, j | 0 <= i < j < |events| :: events[i].at <= events[j].at
  }

  function Total(windows: seq<Window>): Pair {
    if windows == [] then NONE else Total(windows[..|windows| - 1]).Plus(windows[|windows| - 1].seconds)
  }

  function Start(timeline: seq<Window>, i: nat): real
    requires i <= |timeline|
  {
    if i == 0 then 0.0 else timeline[i - 1].end
  }

  predicate NonNegative(p: Pair) {
    p.blue >= 0.0 && p.orange >= 0.0
  }

  /** A pushed window is 15 to just under 15.5 seconds of play and holds no more possession than that. */
  predicate FullWindow(w: Window, start: real) {
    && start + 15.0 <= w.end < start + 15.5
    && NonNegative(w.seconds) && w.seconds.blue + w.seconds.orange <= w.end - start
  }

  ghost predicate AllFull(timeline: seq<Window>) {
    forall i | 0 <= i < |timeline| :: FullWindow(timeline[i], Start(timeline, i))
  }

  /** The window being filled. */
  predicate FillingOk(c: Clock) {
    && c.window.end == Start(c.timeline, |c.timeline|)
    && c.window.end <= c.play < c.window.end + 15.0
    && NonNegative(c.window.seconds) && c.window.seconds.blue + c.window.seconds.orange <= c.play - c.window.end
  }

  predicate PossessionOk(c: Clock) {
    && Total(c.timeline).Plus(c.window.seconds) == c.possession
    && NonNegative(c.possession) && c.possession.blue + c.possession.orange <= c.play
  }

  ghost predicate WindowsOk(c: Clock) {
    AllFull(c.timeline) && FillingOk(c) && PossessionOk(c)
  }

  /** `begin` is the time of the first event, `now` of the latest. */
  predicate TimesOk(c: Clock, begin: real, now: real) {
    && begin <= now && c.play >= 0.0 && c.pausedSeconds >= 0.0
    && c.paused == c.pausedAt.Some?
    && (c.lastSampleAt.Some? ==> begin <= c.lastSampleAt.value <= now)
    && (c.paused ==> begin <= c.pausedAt.value <= now)
    && c.play + c.pausedSeconds
       <= (if c.paused then c.pausedAt.value - begin else c.lastSampleAt.GetOr(begin) - begin)
  }

  lemma TotalOfPushed(timeline: seq<Window>, w: Window)
    ensures Total(timeline + [w]) == Total(timeline).Plus(w.seconds)
  {
    assert (timeline + [w])[..|timeline|] == timeline;
  }

  lemma PushKeepsFull(timeline: seq<Window>, w: Window)
    requires AllFull(timeline) && FullWindow(w, Start(timeline, |timeline|))
    ensures AllFull(timeline + [w])
  {
    var pushed := timeline + [w];
    forall i | 0 <= i < |pushed| ensures FullWindow(pushed[i], Start(pushed, i)) {
      assert Start(pushed, i) == Start(timeline, i);
    }
  }

  lemma PlayTimeKeepsPossession(c: Clock, seconds: real)
    requires PossessionOk(c) && 0.0 < seconds <= MAX_SAMPLE
    ensures PossessionOk(AddPlayTime(c, seconds))
  {
    hide Total;
    TotalOfPushed(c.timeline, Window(c.play + seconds, c.window.seconds.Add(c.team, seconds)));
  }

  lemma PlayTimeKeepsWindows(c: Clock, seconds: real)
    requires WindowsOk(c) && 0.0 < seconds <= MAX_SAMPLE
    ensures WindowsOk(AddPlayTime(c, seconds))
  {
    hide PossessionOk;
    PlayTimeKeepsPossession(c, seconds);
    if c.play + seconds >= c.window.end + WINDOW {
      PushKeepsFull(c.timeline, Window(c.play + seconds, c.window.seconds.Add(c.team, seconds)));
    }
  }

  lemma UpdateKeepsWindows(c: Clock, u: Update, now: real)
    requires WindowsOk(c)
    ensures WindowsOk(UpdateClock(c, u, now))
  {
    var seen := ClockSeen(c, u);
    if Counts(seen, u, now) {
      var ready := seen.(lastSampleAt := Some(now),
                         team := if u.ballTeam.Some? && IsTeam(u.ballTeam.value) then u.ballTeam.value else seen.team);
      assert WindowsOk(ready);
      PlayTimeKeepsWindows(ready, SampleSeconds(seen, now));
    }
  }

  lemma UpdateKeepsTimes(c: Clock, u: Update, begin: real, before: real, now: real)
    requires TimesOk(c, begin, before) && before <= now
    ensures TimesOk(UpdateClock(c, u, now), begin, now)
  {}

  /** Two clocks that agree on what the invariants speak of. */
  predicate SameTimes(c: Clock, d: Clock) {
    d == c.(team := d.team, roundActive := d.roundActive)
  }

  lemma HitsKeepTimes(t: Tracker, hits: seq<Hit>, first: bool, f: Frame)
    ensures SameTimes(t.clock, OnHits(t, hits, first, f).clock)
  {}

  ghost predicate TimeOk(t: Tracker, begin: real, now: real) {
    WindowsOk(t.clock) && TimesOk(t.clock, begin, now)
  }

  lemma EmptyClock(c: Clock, at: real)
    requires c.timeline == [] && c.window == Window(0.0, NONE) && c.possession == NONE
    requires c.play == 0.0 && c.pausedSeconds == 0.0 && !c.paused && c.pausedAt.None? && c.lastSampleAt.None?
    ensures WindowsOk(c) && TimesOk(c, at, at)
  {
    assert c.lastSampleAt.GetOr(at) == at;
  }

  lemma NothingTracked(at: real)
    ensures TimeOk(TRACKER0, at, at)
  {
    EmptyClock(TRACKER0.clock, at);
  }

  lemma BallHitKeepsTime(t: Tracker, e: BallHit, begin: real, before: real, now: real)
    requires TimeOk(t, begin, before) && before <= now
    ensures TimeOk(OnBallHit(t, e, now), begin, now)
  {
    HitsKeepTimes(InPlay(t), e.hitters, t.kicks.awaiting, Frame(now, e.speed));
  }

  lemma StepKeepsTime(t: Tracker, e: Event, begin: real, before: real, now: real)
    requires TimeOk(t, begin, before) && before <= now
    ensures TimeOk(Step(t, e, now), begin, now)
  {
    hide UpdateClock, PauseClock, UnpauseClock, SampleCars, CloseKickoff, OnBallHit;
    match e
    case Updated(u) =>
      UpdateKeepsWindows(t.clock, u, now);
      UpdateKeepsTimes(t.clock, u, begin, before, now);
    case BallWasHit(hit) => BallHitKeepsTime(t, hit, begin, before, now);
    case Paused => PauseKeepsTime(t.clock, begin, before, now);
    case Unpaused => PauseKeepsTime(t.clock, begin, before, now);
    case _ =>
  }

  lemma PauseKeepsTime(c: Clock, begin: real, before: real, now: real)
    requires WindowsOk(c) && TimesOk(c, begin, before) && before <= now
    ensures WindowsOk(PauseClock(c, now)) && TimesOk(PauseClock(c, now), begin, now)
    ensures WindowsOk(UnpauseClock(c, now)) && TimesOk(UnpauseClock(c, now), begin, now)
  {}

  lemma ExtendedRunKeepsTime(earlier: seq<Timed>, last: Timed, begin: real, before: real)
    requires TimeOk(Run(earlier), begin, before) && before <= last.at
    ensures TimeOk(Run(earlier + [last]), begin, last.at)
  {
    assert (earlier + [last])[..|earlier|] == earlier;
    StepKeepsTime(Run(earlier), last.event, begin, before, last.at);
  }

  lemma {:induction false} RunKeepsTime(events: seq<Timed>)
    requires events != [] && InOrder(events)
    ensures TimeOk(Run(events), events[0].at, events[|events| - 1].at)
  {
    var last := events[|events| - 1];
    var earlier := events[..|events| - 1];
    assert events == earlier + [last];
    if earlier == [] {
      NothingTracked(last.at);
      ExtendedRunKeepsTime(earlier, last, last.at, last.at);
    } else {
      RunKeepsTime(earlier);
      ExtendedRunKeepsTime(earlier, last, events[0].at, earlier[|earlier| - 1].at);
    }
  }

  /** Play and pauses together never exceed the time since the first event. */
  lemma PlayAndPausesFit(events: seq<Timed>)
    requires events != [] && InOrder(events)
    ensures var c := Run(events).clock;
      && c.play >= 0.0 && c.pausedSeconds >= 0.0
      && c.play + c.pausedSeconds <= events[|events| - 1].at - events[0].at
      && c.possession.blue + c.possession.orange <= c.play
  {
    RunKeepsTime(events);
  }

  predicate Accounted(c: Clock) {
    Total(SnapshotTimeline(c)) == c.possession
  }

  lemma TimelineTotal(c: Clock)
    requires WindowsOk(c)
    ensures Accounted(c)
  {
    TotalOfPushed(c.timeline, Window(c.play, c.window.seconds));
  }

  /**
   What a snapshot shows accounts for all possession, window by window: all windows but
   the one being filled are full, and the rest of the play clock is shorter than a window.
   */
  lemma TimelineAccountsForPossession(events: seq<Timed>)
    requires InOrder(events)
    ensures var c := Run(events).clock;
      && Accounted(c) && AllFull(c.timeline)
      && Start(c.timeline, |c.timeline|) <= c.play < Start(c.timeline, |c.timeline|) + 15.0
  {
    var t := Run(events);
    assert exists begin, now :: TimeOk(t, begin, now) by {
      if events == [] {
        NothingTracked(0.0);
      } else {
        RunKeepsTime(events);
      }
    }
    TimelineTotal(t.clock);
  }
}
