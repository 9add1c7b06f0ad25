/**
 The kickoffs of the tracker, told from the events alone: who touched the ball first, who had it
 after three seconds of play, and who scored within ten.
 */
module TrackerKickoffs {
  import opened Options
  import opened TrackerSpec
  import opened TrackerTime
  import opened TrackerHistory

  // ---------------------------------------------------------------- looking back

  /** A round has started, and no ball was hit, goal scored or countdown begun since. */
  predicate Awaiting(events: seq<Timed>) {
    events != [] &&
    var earlier := events[..|events| - 1];
    match events[|events| - 1].event
    case RoundStarted => true
    case CountdownBegan => false
    case BallWasHit(hit) => hit.hitters == [] && Awaiting(earlier)
    case GoalScored(echo, _) => echo && Awaiting(earlier)
    case _ => Awaiting(earlier)
  }

  predicate Names(hits: seq<Hit>, id: string) {
    hits != [] && (hits[|hits| - 1].id == id || Names(hits[..|hits| - 1], id))
  }

  /** When `id` last hit the ball. */
  function LastHitAt(events: seq<Timed>, id: string): Option<real> {
    if events == [] then None
    else
      var last := events[|events| - 1];
      if last.event.BallWasHit? && Names(last.event.hit.hitters, id) then Some(last.at)
      else LastHitAt(events[..|events| - 1], id)
  }

  /** A hit within 0.03 seconds of the player's last one belongs to the same contact. */
  predicate IsNewContact(events: seq<Timed>, id: string, at: real) {
    id != "" && !(LastHitAt(events, id).Some? && at - LastHitAt(events, id).value <= 0.03)
  }

  /** The first of the hitters whose contact is new. */
  function FirstOf(events: seq<Timed>, hits: seq<Hit>, at: real): Option<Hit> {
    if hits == [] then None
    else
      var before, h := FirstOf(events, hits[..|hits| - 1], at), hits[|hits| - 1];
      if before.Some? then before else if IsNewContact(events, h.id, at) then Some(h) else None
  }

  /** Play at the start of the latest round. */
  function KickoffAt(events: seq<Timed>): Option<real> {
    if events == [] then None
    else if events[|events| - 1].event.RoundStarted? then Some(PlayOver(events[..|events| - 1]))
    else KickoffAt(events[..|events| - 1])
  }

  /** Play since then. */
  function SinceKickoff(events: seq<Timed>): real {
    PlayOver(events) - KickoffAt(events).GetOr(0.0)
  }

  function Toucher(events: seq<Timed>): Option<Hit> {
    if events == [] then None
    else
      var earlier, last := events[..|events| - 1], events[|events| - 1];
      match last.event
      case RoundStarted => None
      case BallWasHit(hit) => if Awaiting(earlier) && hit.hitters != [] then FirstOf(earlier, hit.hitters, last.at)
                              else Toucher(earlier)
      case _ => Toucher(earlier)
  }

  /** Who had the ball when three seconds had been played. */
  function AfterThree(events: seq<Timed>): int {
    if events == [] then -1
    else
      var earlier, last := events[..|events| - 1], events[|events| - 1];
      if last.event.RoundStarted? then -1
      else if KickoffAt(earlier).Some? && SinceKickoff(earlier) < 3.0 <= SinceKickoff(events) then Holder(events)
      else AfterThree(earlier)
  }

  /** Who scored first, if within ten seconds of play. */
  function WithinTen(events: seq<Timed>): int {
    if events == [] then -1
    else
      var earlier, last := events[..|events| - 1], events[|events| - 1];
      match last.event
      case RoundStarted => -1
      case GoalScored(echo, team) =>
        if !echo && (team == 0 || team == 1) && WithinTen(earlier) == -1
           && KickoffAt(earlier).Some? && SinceKickoff(earlier) <= 10.0
        then team else WithinTen(earlier)
      case _ => WithinTen(earlier)
  }

  function Latest(events: seq<Timed>): Kickoff {
    var touched := Toucher(events);
    Kickoff(KickoffAt(events).GetOr(0.0), if touched.Some? then touched.value.id else "",
            if touched.Some? then touched.value.team else -1, AfterThree(events), WithinTen(events))
  }

  /** One for each round that started; only the latest still changes. */
  function KickoffsOf(events: seq<Timed>): (ks: seq<Kickoff>)
    ensures ks == [] <==> KickoffAt(events).None?
  {
    if events == [] then []
    else
      var before := KickoffsOf(events[..|events| - 1]);
      if events[|events| - 1].event.RoundStarted? then before + [Latest(events)]
      else if before == [] then []
      else before[..|before| - 1] + [Latest(events)]
  }

  /** How often `id` made a new contact with the first hit after a round started. */
  function FirstTouches(events: seq<Timed>, id: string): nat {
    if events == [] then 0
    else
      var earlier, last := events[..|events| - 1], events[|events| - 1];
      FirstTouches(earlier, id)
      + (if last.event.BallWasHit? && Names(last.event.hit.hitters, id) && Awaiting(earlier)
            && IsNewContact(earlier, id, last.at) then 1 else 0)
  }

  // ---------------------------------------------------------------- the tracker remembers it

  ghost predicate TellsKicks(kicks: Kicks, events: seq<Timed>) {
    && kicks.awaiting == Awaiting(events) && kicks.kickoffs == KickoffsOf(events)
    && (kicks.possessionPending <==> KickoffAt(events).Some? && SinceKickoff(events) < 3.0)
  }

  ghost predicate TellsHitter(h: Hitter, events: seq<Timed>, id: string) {
    && (h.last.Some? <==> LastHitAt(events, id).Some?)
    && (h.last.Some? ==> h.last.value.at == LastHitAt(events, id).value)
    && h.firstTouches == FirstTouches(events, id)
  }

  ghost predicate TellsHitters(hitters: map<string, Hitter>, events: seq<Timed>) {
    forall id | id != "" :: TellsHitter(HitterOf(hitters, id), events, id)
  }

  lemma {:induction false} LatestIsLast(events: seq<Timed>)
    requires KickoffAt(events).Some?
    ensures Last(KickoffsOf(events)) == Latest(events)
  {}

  lemma {:induction false} AwaitedIsUntouched(events: seq<Timed>)
    requires Awaiting(events)
    ensures KickoffAt(events).Some? && Toucher(events) == None
  {
    if !events[|events| - 1].event.RoundStarted? {
      AwaitedIsUntouched(events[..|events| - 1]);
    }
  }

  // ---------------------------------------------------------------- hits

  /** The hitters of one event, on a tracker that tells the events before it. */
  ghost predicate TellsHits(t: Tracker, u: Tracker, events: seq<Timed>, hits: seq<Hit>, first: bool, at: real) {
    && u.kicks.awaiting == t.kicks.awaiting && u.kicks.possessionPending == t.kicks.possessionPending
    && (forall id | id != "" ::
          HitOnce(HitterOf(t.hitters, id), HitterOf(u.hitters, id), events, Names(hits, id), id, first, at))
    && u.kicks.kickoffs == Touched(t.kicks.kickoffs, if first then FirstOf(events, hits, at) else None)
  }

  function Touched(ks: seq<Kickoff>, toucher: Option<Hit>): seq<Kickoff> {
    if ks == [] || toucher.None? || Last(ks).firstTouchId != "" then ks
    else SetLast(ks, Last(ks).(firstTouchId := toucher.value.id, firstTouchTeam := toucher.value.team))
  }

  predicate HitOnce(h: Hitter, after: Hitter, events: seq<Timed>, named: bool, id: string, first: bool, at: real) {
    && (!named ==> after == h)
    && (named ==> after.last.Some? && after.last.value.at == at)
    && after.firstTouches == h.firstTouches + (if named && first && IsNewContact(events, id, at) then 1 else 0)
  }

  lemma TouchTimes(h: Hitter, f: Frame)
    ensures Touch(h, f).last.Some? && Touch(h, f).last.value.at == f.at && Touch(h, f).firstTouches == h.firstTouches
  {}

  lemma MergesMeans(h: Hitter, events: seq<Timed>, id: string, at: real)
    requires TellsHitter(h, events, id) && id != ""
    ensures Merges(h, at) <==> !IsNewContact(events, id, at)
  {}

  lemma HitIsNew(t: Tracker, u: Tracker, events: seq<Timed>, hits: seq<Hit>, id: string, first: bool, at: real)
    requires TellsHitters(t.hitters, events) && TellsHits(t, u, events, hits, first, at) && id != ""
    ensures Merges(HitterOf(u.hitters, id), at) <==> Names(hits, id) || !IsNewContact(events, id, at)
  {
    hide IsNewContact, HitterOf, Names, FirstOf, Touched;
    var before := HitterOf(u.hitters, id);
    assert HitOnce(HitterOf(t.hitters, id), before, events, Names(hits, id), id, first, at);
    assert TellsHitter(HitterOf(t.hitters, id), events, id);
    MergesMeans(HitterOf(t.hitters, id), events, id, at);
  }

  lemma HittersAfterHit(t: Tracker, u: Tracker, events: seq<Timed>, hits: seq<Hit>, h: Hit, first: bool, f: Frame,
                        id: string)
    requires TellsHitters(t.hitters, events) && TellsHits(t, u, events, hits, first, f.at) && h.id != "" && id != ""
    ensures HitOnce(HitterOf(t.hitters, id), HitterOf(OnHit(u, h, first, f).hitters, id), events,
                    Names(hits + [h], id), id, first, f.at)
  {
    hide Touch, Merges, IsNewContact, HitterOf, Names, FirstOf, Touched, TellsHitters, OnHit;
    NamesSnoc(hits, h);
    HitterAfter(u, h, first, f);
    assert HitOnce(HitterOf(t.hitters, id), HitterOf(u.hitters, id), events, Names(hits, id), id, first, f.at);
    TouchTimes(HitterOf(u.hitters, h.id), f);
    HitIsNew(t, u, events, hits, h.id, first, f.at);
  }

  lemma {:induction false} NewIsFirst(events: seq<Timed>, hits: seq<Hit>, at: real)
    ensures forall id | Names(hits, id) && IsNewContact(events, id, at) :: FirstOf(events, hits, at).Some?
    ensures FirstOf(events, hits, at).Some? ==> FirstOf(events, hits, at).value.id != ""
  {
    hide LastHitAt;
    if hits != [] { NewIsFirst(events, hits[..|hits| - 1], at); }
  }

  lemma KickoffsAfterHit(t: Tracker, u: Tracker, events: seq<Timed>, hits: seq<Hit>, h: Hit, first: bool, f: Frame)
    requires TellsHitters(t.hitters, events) && TellsHits(t, u, events, hits, first, f.at) && h.id != ""
    ensures var next := OnHit(u, h, first, f);
      && next.kicks.awaiting == u.kicks.awaiting && next.kicks.possessionPending == u.kicks.possessionPending
      && next.kicks.kickoffs
         == Touched(t.kicks.kickoffs, if first then FirstOf(events, hits + [h], f.at) else None)
  {
    hide Touch, Merges, IsNewContact, HitterOf, Names, FirstOf, TellsHitters, OnHit;
    HitterAfter(u, h, first, f);
    HitIsNew(t, u, events, hits, h.id, first, f.at);
    FirstSnoc(events, hits, h, f.at);
    NewIsFirst(events, hits, f.at);
  }

  lemma OneHitTells(t: Tracker, u: Tracker, events: seq<Timed>, hits: seq<Hit>, h: Hit, first: bool, f: Frame)
    requires TellsHitters(t.hitters, events) && TellsHits(t, u, events, hits, first, f.at)
    ensures TellsHits(t, OnHit(u, h, first, f), events, hits + [h], first, f.at)
  {
    if h.id == "" {
      hide LastHitAt, HitterOf, Names, FirstOf, Touched, HitOnce, TellsHitters;
      NamesSnoc(hits, h);
      FirstSnoc(events, hits, h, f.at);
    } else {
      hide OnHit, HitOnce, Names, FirstOf, Touched, HitterOf, TellsHitters;
      KickoffsAfterHit(t, u, events, hits, h, first, f);
      forall id | id != ""
        ensures HitOnce(HitterOf(t.hitters, id), HitterOf(OnHit(u, h, first, f).hitters, id), events,
                        Names(hits + [h], id), id, first, f.at)
      {
        HittersAfterHit(t, u, events, hits, h, first, f, id);
      }
    }
  }

  lemma NamesSnoc(hits: seq<Hit>, h: Hit)
    ensures forall id :: Names(hits + [h], id) <==> Names(hits, id) || h.id == id
  {
    assert (hits + [h])[..|hits|] == hits;
  }

  lemma FirstSnoc(events: seq<Timed>, hits: seq<Hit>, h: Hit, at: real)
    ensures FirstOf(events, hits + [h], at)
         == if FirstOf(events, hits, at).Some? then FirstOf(events, hits, at)
            else if IsNewContact(events, h.id, at) then Some(h) else None
  {
    assert (hits + [h])[..|hits|] == hits;
  }

  lemma HitterAfter(u: Tracker, h: Hit, first: bool, f: Frame)
    requires h.id != ""
    ensures var next := OnHit(u, h, first, f); var before := HitterOf(u.hitters, h.id);
      && (forall id | id != h.id :: HitterOf(next.hitters, id) == HitterOf(u.hitters, id))
      && HitterOf(next.hitters, h.id).last == Touch(before, f).last
      && HitterOf(next.hitters, h.id).firstTouches
         == Touch(before, f).firstTouches + (if first && !Merges(before, f.at) then 1 else 0)
      && next.kicks == (if first && !Merges(before, f.at)
                        then u.kicks.(kickoffs := Touched(u.kicks.kickoffs, Some(h))) else u.kicks)
  {
    hide Touch, Merges;
  }

  lemma {:induction false} HitsTell(t: Tracker, events: seq<Timed>, hits: seq<Hit>, first: bool, f: Frame)
    requires TellsHitters(t.hitters, events)
    ensures TellsHits(t, OnHits(t, hits, first, f), events, hits, first, f.at)
  {
    hide OnHit, TellsHits, TellsHitters;
    if hits == [] {
      NoHits(t, events, first, f.at);
    } else {
      var init, h := hits[..|hits| - 1], hits[|hits| - 1];
      HitsTell(t, events, init, first, f);
      OneHitTells(t, OnHits(t, init, first, f), events, init, h, first, f);
      assert init + [h] == hits;
    }
  }

  lemma NoHits(t: Tracker, events: seq<Timed>, first: bool, at: real)
    ensures TellsHits(t, t, events, [], first, at)
  {}

  // ---------------------------------------------------------------- over whole runs

  lemma HittersStep(t: Tracker, events: seq<Timed>)
    requires events != []
    requires var earlier := events[..|events| - 1];
             TellsHitters(t.hitters, earlier) && t.kicks.awaiting == Awaiting(earlier)
    ensures TellsHitters(Step(t, events[|events| - 1].event, events[|events| - 1].at).hitters, events)
  {
    hide OnHits, Touch, IsNewContact, Names, Awaiting, FirstOf, SampleCars, HitterOf;
    var earlier, last := events[..|events| - 1], events[|events| - 1];
    if last.event.BallWasHit? && last.event.hit.hitters != [] {
      var hits, f := last.event.hit.hitters, Frame(last.at, last.event.hit.speed);
      HitsTell(InPlay(t), earlier, hits, t.kicks.awaiting, f);
      forall id | id != ""
        ensures TellsHitter(HitterOf(OnHits(InPlay(t), hits, t.kicks.awaiting, f).hitters, id), events, id)
      {
        assert TellsHitter(HitterOf(t.hitters, id), earlier, id);
      }
    } else {
      if last.event.BallWasHit? { NobodyIsNamed(last.event.hit.hitters); }
      forall id | id != "" ensures TellsHitter(HitterOf(t.hitters, id), events, id) {
        assert TellsHitter(HitterOf(t.hitters, id), earlier, id);
      }
    }
  }

  lemma NobodyIsNamed(hits: seq<Hit>)
    requires hits == []
    ensures forall id :: !Names(hits, id)
  {}

  /** An event that leaves the latest kickoff as it was leaves them all. */
  lemma {:induction false} LatestStays(events: seq<Timed>)
    requires events != [] && !events[|events| - 1].event.RoundStarted?
    requires Latest(events) == Latest(events[..|events| - 1])
    ensures KickoffsOf(events) == KickoffsOf(events[..|events| - 1])
  {
    hide Latest;
    var before := KickoffsOf(events[..|events| - 1]);
    if before != [] {
      LatestIsLast(events[..|events| - 1]);
      assert before == before[..|before| - 1] + [before[|before| - 1]];
    }
  }

  /** One that changes it changes the last of them. */
  lemma {:induction false} LatestChanges(events: seq<Timed>)
    requires events != [] && !events[|events| - 1].event.RoundStarted? && KickoffAt(events).Some?
    ensures var before := KickoffsOf(events[..|events| - 1]);
            before != [] && KickoffsOf(events) == SetLast(before, Latest(events))
  {
    hide Latest;
  }

  lemma RoundStep(t: Tracker, events: seq<Timed>)
    requires events != [] && events[|events| - 1].event.RoundStarted?
    requires var earlier := events[..|events| - 1]; TellsKicks(t.kicks, earlier) && t.clock.play == PlayOver(earlier)
    ensures TellsKicks(OnRoundStarted(t, events[|events| - 1].at).kicks, events)
  {
    hide Counted;
    OnlyUpdatesCount(events);
  }

  lemma UpdateStep(t: Tracker, events: seq<Timed>)
    requires events != [] && events[|events| - 1].event.Updated?
    requires var earlier, last := events[..|events| - 1], events[|events| - 1];
      && TellsKicks(t.kicks, earlier) && Remembers(t.clock, earlier) && t.clock.play == PlayOver(earlier)
      && UpdateClock(t.clock, last.event.update, last.at).play == PlayOver(events)
      && UpdateClock(t.clock, last.event.update, last.at).team == Holder(events)
    ensures TellsKicks(OnUpdateState(t, events[|events| - 1].event.update, events[|events| - 1].at).kicks, events)
  {
    hide Counted, UpdateClock, Counts, SampleCars, Remembers, Holder;
    var earlier, last := events[..|events| - 1], events[|events| - 1];
    UpdateCounts(t.clock, events);
    var clock := UpdateClock(t.clock, last.event.update, last.at);
    if KickoffAt(earlier).Some? { LatestIsLast(earlier); LatestChanges(events); }
    if AfterThree(events) == AfterThree(earlier) { LatestStays(events); }
    hide KickoffsOf;
  }

  lemma NoPlayPasses(events: seq<Timed>)
    requires events != [] && !events[|events| - 1].event.Updated? && !events[|events| - 1].event.RoundStarted?
    ensures var earlier := events[..|events| - 1];
      KickoffAt(events) == KickoffAt(earlier) && SinceKickoff(events) == SinceKickoff(earlier)
      && AfterThree(events) == AfterThree(earlier)
  {
    hide Counted;
    OnlyUpdatesCount(events);
  }

  lemma GoalStep(t: Tracker, events: seq<Timed>)
    requires events != [] && events[|events| - 1].event.GoalScored?
    requires var earlier := events[..|events| - 1]; TellsKicks(t.kicks, earlier) && t.clock.play == PlayOver(earlier)
    ensures TellsKicks(OnGoalScored(t, events[|events| - 1].event.echo, events[|events| - 1].event.team).kicks, events)
  {
    hide KickoffsOf, KickoffAt, SinceKickoff, AfterThree, PlayOver;
    var earlier := events[..|events| - 1];
    NoPlayPasses(events);
    if KickoffAt(earlier).Some? { LatestIsLast(earlier); LatestChanges(events); }
    if WithinTen(events) == WithinTen(earlier) { LatestStays(events); }
    SinceIs(earlier);
  }

  lemma SinceIs(events: seq<Timed>)
    ensures KickoffAt(events).Some? ==> SinceKickoff(events) == PlayOver(events) - KickoffAt(events).value
  {
    hide PlayOver, KickoffAt;
  }

  lemma HitStep(t: Tracker, events: seq<Timed>)
    requires events != [] && events[|events| - 1].event.BallWasHit?
    requires var earlier := events[..|events| - 1]; TellsKicks(t.kicks, earlier) && TellsHitters(t.hitters, earlier)
    ensures TellsKicks(OnBallHit(t, events[|events| - 1].event.hit, events[|events| - 1].at).kicks, events)
  {
    hide Counted, OnHits, TellsHitters, FirstOf, HitOnce, HitterOf, Names;
    var earlier, last := events[..|events| - 1], events[|events| - 1];
    var hits, f := last.event.hit.hitters, Frame(last.at, last.event.hit.speed);
    OnlyUpdatesCount(events);
    if hits == [] {
      LatestStays(events);
    } else {
      HitsTell(InPlay(t), earlier, hits, t.kicks.awaiting, f);
      NewIsFirst(earlier, hits, last.at);
      if KickoffAt(earlier).Some? { LatestIsLast(earlier); LatestChanges(events); }
      if Awaiting(earlier) { AwaitedIsUntouched(earlier); }
      if Toucher(events) == Toucher(earlier) { LatestStays(events); }
      hide KickoffsOf;
    }
  }

  lemma OtherStep(t: Tracker, events: seq<Timed>)
    requires events != []
    requires var e := events[|events| - 1].event; !e.RoundStarted? && !e.Updated? && !e.GoalScored? && !e.BallWasHit?
    requires TellsKicks(t.kicks, events[..|events| - 1])
    ensures TellsKicks(Step(t, events[|events| - 1].event, events[|events| - 1].at).kicks, events)
  {
    hide Counted;
    OnlyUpdatesCount(events);
    LatestStays(events);
    hide KickoffsOf;
  }

  /** Over every run, the kickoffs and each player's first touches are what the events say. */
  lemma {:induction false} KickoffsAreHistory(events: seq<Timed>)
    ensures Run(events).kicks.kickoffs == KickoffsOf(events)
    ensures TellsKicks(Run(events).kicks, events) && TellsHitters(Run(events).hitters, events)
    ensures forall id | id != "" :: HitterOf(Run(events).hitters, id).firstTouches == FirstTouches(events, id)
  {
    if events == [] {
    } else {
      hide Counted, Step, TellsHitters, TellsKicks, Remembers, UpdateClock;
      var earlier, last := events[..|events| - 1], events[|events| - 1];
      KickoffsAreHistory(earlier);
      RunRemembers(earlier);
      ClockIsHistory(earlier);
      ClockIsHistory(events);
      var t := Run(earlier);
      KicksStep(t, events);
      AwaitingIsKept(t.kicks, earlier);
      HittersStep(t, events);
    }
    HittersTold(Run(events), events);
  }

  lemma AwaitingIsKept(kicks: Kicks, events: seq<Timed>)
    requires TellsKicks(kicks, events)
    ensures kicks.awaiting == Awaiting(events)
  {}

  lemma HittersTold(t: Tracker, events: seq<Timed>)
    requires TellsKicks(t.kicks, events) && TellsHitters(t.hitters, events)
    ensures t.kicks.kickoffs == KickoffsOf(events)
    ensures forall id | id != "" :: HitterOf(t.hitters, id).firstTouches == FirstTouches(events, id)
  {
    hide HitterOf;
    forall id | id != "" ensures HitterOf(t.hitters, id).firstTouches == FirstTouches(events, id) {
      assert TellsHitter(HitterOf(t.hitters, id), events, id);
    }
  }

  lemma KicksStep(t: Tracker, events: seq<Timed>)
    requires events != []
    requires var earlier, last := events[..|events| - 1], events[|events| - 1];
      && TellsKicks(t.kicks, earlier) && TellsHitters(t.hitters, earlier) && Remembers(t.clock, earlier)
      && t.clock.play == PlayOver(earlier)
      && Step(t, last.event, last.at).clock.play == PlayOver(events)
      && Step(t, last.event, last.at).clock.team == Holder(events)
    ensures TellsKicks(Step(t, events[|events| - 1].event, events[|events| - 1].at).kicks, events)
  {
    hide Counted, TellsHitters, TellsKicks, Remembers, UpdateClock, OnBallHit, OnGoalScored, OnRoundStarted,
         OnCountdownBegin, OnBoostPickup, PauseClock, UnpauseClock, OnUpdateState, Holder;
    var last := events[|events| - 1];
    StepClock(t, last.event, last.at);
    match last.event
    case Updated(_) => UpdateStep(t, events);
    case RoundStarted => RoundStep(t, events);
    case GoalScored(_, _) => GoalStep(t, events);
    case BallWasHit(_) => HitStep(t, events);
    case _ => OtherStep(t, events);
  }
}
