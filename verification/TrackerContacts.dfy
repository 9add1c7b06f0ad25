/**
 Ball contacts and kickoffs over whole runs of the tracker. The game reports a hit on
 every physics frame of one contact; the tracker merges them on line, keeping only the
 last frame's time and the contact's fastest speed. The definition it must meet is the
 plain one: cut a player's frames wherever more than TOUCH_MERGE seconds pass, and
 count the pieces.
 */
module TrackerContacts {
  import opened Options
  import opened TrackerSpec
  import opened TrackerTime

  // ---------------------------------------------------------------- the plain definition

  predicate Joined(a: Frame, b: Frame) {
    b.at - a.at <= 0.03
  }

  function Flatten(chains: seq<seq<Frame>>): seq<Frame> {
    if chains == [] then [] else Flatten(chains[..|chains| - 1]) + chains[|chains| - 1]
  }

  predicate IsChain(chain: seq<Frame>) {
    chain != [] && forall i | 0 < i < |chain| :: Joined(chain[i - 1], chain[i])
  }

  /** The chains of consecutive frames, cut exactly where the gap is too long. */
  predicate IsChaining(frames: seq<Frame>, chains: seq<seq<Frame>>) {
    && Flatten(chains) == frames
    && (forall i | 0 <= i < |chains| :: IsChain(chains[i]))
    && (forall i | 0 < i < |chains| :: !Joined(chains[i - 1][|chains[i - 1]| - 1], chains[i][0]))
  }

  /** The speed of a contact is its fastest frame. */
  function Fastest(chain: seq<Frame>): (r: real)
    requires chain != []
    ensures exists i | 0 <= i < |chain| :: chain[i].speed == r
    ensures forall i | 0 <= i < |chain| :: chain[i].speed <= r
  {
    var last := chain[|chain| - 1].speed;
    if |chain| == 1 then last else MaxR(Fastest(chain[..|chain| - 1]), last)
  }

  predicate NoneEmpty(chains: seq<seq<Frame>>) {
    forall i | 0 <= i < |chains| :: chains[i] != []
  }

  function SpeedSum(chains: seq<seq<Frame>>): real
    requires NoneEmpty(chains)
  {
    if chains == [] then 0.0 else SpeedSum(chains[..|chains| - 1]) + Fastest(chains[|chains| - 1])
  }

  function HardChains(chains: seq<seq<Frame>>): nat
    requires NoneEmpty(chains)
  {
    if chains == [] then 0
    else HardChains(chains[..|chains| - 1]) + (if Fastest(chains[|chains| - 1]) >= 100.0 then 1 else 0)
  }

  /** Cut after each long gap. */
  function Chains(frames: seq<Frame>): (chains: seq<seq<Frame>>)
    ensures chains == [] <==> frames == []
    ensures NoneEmpty(chains)
  {
    var n := |frames|;
    if n == 0 then []
    else
      var before := Chains(frames[..n - 1]);
      if n > 1 && Joined(frames[n - 2], frames[n - 1])
      then before[|before| - 1 := before[|before| - 1] + [frames[n - 1]]]
      else before + [[frames[n - 1]]]
  }

  lemma FlattenExtended(chains: seq<seq<Frame>>, f: Frame)
    requires chains != []
    ensures Flatten(chains[|chains| - 1 := chains[|chains| - 1] + [f]]) == Flatten(chains) + [f]
    ensures Flatten(chains + [[f]]) == Flatten(chains) + [f]
  {
    var longer := chains[|chains| - 1 := chains[|chains| - 1] + [f]];
    assert longer[..|chains| - 1] == chains[..|chains| - 1];
    assert (chains + [[f]])[..|chains|] == chains;
  }

  function LastFrame(chains: seq<seq<Frame>>): Frame
    requires chains != [] && NoneEmpty(chains)
  {
    var c := chains[|chains| - 1];
    c[|c| - 1]
  }

  lemma ChainingExtended(frames: seq<Frame>, chains: seq<seq<Frame>>, f: Frame)
    requires IsChaining(frames, chains) && chains != [] && NoneEmpty(chains) && Joined(LastFrame(chains), f)
    ensures IsChaining(frames + [f], chains[|chains| - 1 := chains[|chains| - 1] + [f]])
  {
    FlattenExtended(chains, f);
    assert IsChain(chains[|chains| - 1]);
  }

  lemma FirstChaining(f: Frame)
    ensures IsChaining([f], [[f]])
  {
    assert [[f]][..0] == [];
    assert Flatten([[f]]) == [] + [f];
  }

  lemma ChainingPushed(frames: seq<Frame>, chains: seq<seq<Frame>>, f: Frame)
    requires IsChaining(frames, chains) && NoneEmpty(chains) && chains != [] && !Joined(LastFrame(chains), f)
    ensures IsChaining(frames + [f], chains + [[f]])
  {
    FlattenExtended(chains, f);
  }

  /** There is a chaining, */
  lemma {:induction false} ChainsExist(frames: seq<Frame>)
    ensures IsChaining(frames, Chains(frames))
    ensures frames != [] ==> LastFrame(Chains(frames)) == frames[|frames| - 1]
  {
    if frames == [] {
    } else {
      var n := |frames|;
      var earlier := frames[..n - 1];
      ChainsExist(earlier);
      assert frames == earlier + [frames[n - 1]];
      if n > 1 && Joined(frames[n - 2], frames[n - 1]) {
        ChainingExtended(earlier, Chains(earlier), frames[n - 1]);
      } else if n > 1 {
        ChainingPushed(earlier, Chains(earlier), frames[n - 1]);
      } else {
        FirstChaining(frames[0]);
        assert frames == [frames[0]];
      }
    }
  }

  lemma LastOfFlattened(chains: seq<seq<Frame>>)
    requires chains != [] && NoneEmpty(chains)
    ensures var all := Flatten(chains); var c := chains[|chains| - 1];
      && all != [] && all[|all| - 1] == c[|c| - 1]
      && (|c| == 1 ==> Flatten(chains[..|chains| - 1]) == all[..|all| - 1])
      && Flatten(chains[|chains| - 1 := c[..|c| - 1]]) == all[..|all| - 1]
  {
    var c := chains[|chains| - 1];
    assert chains[|chains| - 1 := c[..|c| - 1]][..|chains| - 1] == chains[..|chains| - 1];
  }

  lemma SomeChain(frames: seq<Frame>, chains: seq<seq<Frame>>)
    requires IsChaining(frames, chains) && frames != []
    ensures chains != [] && NoneEmpty(chains) && LastFrame(chains) == frames[|frames| - 1]
  {
    LastOfFlattened(chains);
  }

  /** A last contact of one frame is cut off from the frames before it. */
  lemma LastAlone(frames: seq<Frame>, chains: seq<seq<Frame>>)
    requires IsChaining(frames, chains) && NoneEmpty(chains) && chains != [] && |chains[|chains| - 1]| == 1
    ensures var n := |frames|;
      && n > 0 && IsChaining(frames[..n - 1], chains[..|chains| - 1])
      && (n > 1 ==> !Joined(frames[n - 2], frames[n - 1]))
  {
    LastOfFlattened(chains);
    if |chains| > 1 {
      LastOfFlattened(chains[..|chains| - 1]);
    }
  }

  /** In a longer one the last two frames are joined. */
  lemma LastJoined(frames: seq<Frame>, chains: seq<seq<Frame>>)
    requires IsChaining(frames, chains) && NoneEmpty(chains) && chains != [] && |chains[|chains| - 1]| > 1
    ensures var n := |frames|; var c := chains[|chains| - 1];
      n > 1 && IsChaining(frames[..n - 1], chains[|chains| - 1 := c[..|c| - 1]]) && Joined(frames[n - 2], frames[n - 1])
  {
    LastOfFlattened(chains);
    var c := chains[|chains| - 1];
    LastOfFlattened(chains[|chains| - 1 := c[..|c| - 1]]);
    assert Joined(c[|c| - 2], c[|c| - 1]);
  }

  /** and only one. */
  lemma {:induction false} ChainsAreUnique(frames: seq<Frame>, chains: seq<seq<Frame>>)
    requires IsChaining(frames, chains)
    ensures chains == Chains(frames)
    decreases |frames|
  {
    if frames == [] {
      if chains != [] {
        LastOfFlattened(chains);
      }
    } else {
      SomeChain(frames, chains);
      var n := |frames|;
      var c := chains[|chains| - 1];
      if |c| == 1 {
        LastAlone(frames, chains);
        ChainsAreUnique(frames[..n - 1], chains[..|chains| - 1]);
        assert c == [frames[n - 1]];
        assert chains == chains[..|chains| - 1] + [c];
      } else {
        LastJoined(frames, chains);
        var shorter := chains[|chains| - 1 := c[..|c| - 1]];
        ChainsAreUnique(frames[..n - 1], shorter);
        assert c == c[..|c| - 1] + [c[|c| - 1]];
        assert chains == shorter[|chains| - 1 := shorter[|chains| - 1] + [frames[n - 1]]];
      }
    }
  }

  // ---------------------------------------------------------------- the on-line form meets it

  function Fold(frames: seq<Frame>): Hitter {
    if frames == [] then HITTER0 else Touch(Fold(frames[..|frames| - 1]), frames[|frames| - 1])
  }

  predicate Matches(h: Hitter, chains: seq<seq<Frame>>)
    requires NoneEmpty(chains)
  {
    h.hits == |chains| && h.speedSum == SpeedSum(chains) && h.hardHits == HardChains(chains)
  }

  lemma ExtendedSums(chains: seq<seq<Frame>>, c: seq<Frame>)
    requires chains != [] && NoneEmpty(chains) && c != []
    ensures var old_ := Fastest(chains[|chains| - 1]); var new_ := Fastest(c); var longer := chains[|chains| - 1 := c];
      && NoneEmpty(longer)
      && SpeedSum(longer) == SpeedSum(chains) - old_ + new_
      && HardChains(longer) == HardChains(chains) - (if old_ >= 100.0 then 1 else 0)
                               + (if new_ >= 100.0 then 1 else 0)
  {
    assert chains[|chains| - 1 := c][..|chains| - 1] == chains[..|chains| - 1];
  }

  lemma PushedSums(chains: seq<seq<Frame>>, f: Frame)
    requires NoneEmpty(chains)
    ensures var longer := chains + [[f]];
      && NoneEmpty(longer)
      && SpeedSum(longer) == SpeedSum(chains) + f.speed
      && HardChains(longer) == HardChains(chains) + (if f.speed >= 100.0 then 1 else 0)
  {
    assert (chains + [[f]])[..|chains|] == chains;
    assert Fastest([f]) == f.speed;
  }

  /** `h` is where the tracker stands after frames cut into `chains`. */
  predicate Follows(h: Hitter, frames: seq<Frame>, chains: seq<seq<Frame>>)
    requires NoneEmpty(chains)
  {
    && Matches(h, chains)
    && (frames == [] <==> chains == [])
    && h.last == if frames == [] then None
                 else Some(Frame(frames[|frames| - 1].at, Fastest(chains[|chains| - 1])))
  }

  lemma FastestExtended(c: seq<Frame>, f: Frame)
    requires c != []
    ensures Fastest(c + [f]) == MaxR(Fastest(c), f.speed)
  {
    assert (c + [f])[..|c|] == c;
  }

  lemma TouchExtends(h: Hitter, frames: seq<Frame>, chains: seq<seq<Frame>>, f: Frame)
    requires NoneEmpty(chains) && Follows(h, frames, chains)
    requires frames != [] && Joined(frames[|frames| - 1], f)
    ensures var longer := chains[|chains| - 1 := chains[|chains| - 1] + [f]];
            NoneEmpty(longer) && Follows(Touch(h, f), frames + [f], longer)
  {
    var c := chains[|chains| - 1];
    FastestExtended(c, f);
    ExtendedSums(chains, c + [f]);
    MergedTouch(h, f, Fastest(c));
  }

  /** A merged frame raises the contact to the faster of the two speeds. */
  lemma MergedTouch(h: Hitter, f: Frame, before: real)
    requires Merges(h, f.at) && h.last.value.speed == before
    ensures var after := MaxR(before, f.speed); var t := Touch(h, f);
      && t.hits == h.hits && t.speedSum == h.speedSum - before + after && t.last == Some(Frame(f.at, after))
      && t.hardHits == h.hardHits - (if before >= 100.0 then 1 else 0) + (if after >= 100.0 then 1 else 0)
  {}

  lemma TouchPushes(h: Hitter, frames: seq<Frame>, chains: seq<seq<Frame>>, f: Frame)
    requires NoneEmpty(chains) && Follows(h, frames, chains)
    requires frames == [] || !Joined(frames[|frames| - 1], f)
    ensures NoneEmpty(chains + [[f]]) && Follows(Touch(h, f), frames + [f], chains + [[f]])
  {
    PushedSums(chains, f);
    assert Fastest([f]) == f.speed;
  }

  lemma {:induction false} FoldMatches(frames: seq<Frame>)
    ensures Follows(Fold(frames), frames, Chains(frames))
  {
    if frames == [] {
    } else {
      var n := |frames|;
      var earlier := frames[..n - 1];
      FoldMatches(earlier);
      assert frames == earlier + [frames[n - 1]];
      if n > 1 && Joined(frames[n - 2], frames[n - 1]) {
        TouchExtends(Fold(earlier), earlier, Chains(earlier), frames[n - 1]);
      } else {
        TouchPushes(Fold(earlier), earlier, Chains(earlier), frames[n - 1]);
      }
    }
  }

  // ---------------------------------------------------------------- over runs

  /** A player's frames in one reported hit, which may name the player more than once. */
  function HitFrames(hits: seq<Hit>, id: string, f: Frame): seq<Frame> {
    if hits == [] then []
    else
      var before := HitFrames(hits[..|hits| - 1], id, f);
      if hits[|hits| - 1].id == id then before + [f] else before
  }

  function FramesOf(events: seq<Timed>, id: string): seq<Frame> {
    if events == [] then []
    else
      var last := events[|events| - 1];
      var before := FramesOf(events[..|events| - 1], id);
      if last.event.BallWasHit?
      then before + HitFrames(last.event.hit.hitters, id, Frame(last.at, last.event.hit.speed))
      else before
  }

  function Contacts(t: Tracker, id: string): Hitter {
    HitterOf(t.hitters, id).(firstTouches := 0)
  }

  lemma HitTouchesOne(t: Tracker, h: Hit, first: bool, f: Frame, id: string)
    requires id != ""
    ensures Contacts(OnHit(t, h, first, f), id)
         == if h.id == id then Touch(HitterOf(t.hitters, id), f).(firstTouches := 0) else Contacts(t, id)
  {
    hide Touch, Merges, SetLast;
  }

  lemma TouchOfContacts(h: Hitter, f: Frame)
    ensures Touch(h, f).(firstTouches := 0) == Touch(h.(firstTouches := 0), f)
  {}

  lemma FoldOneMore(frames: seq<Frame>, f: Frame)
    ensures Fold(frames + [f]) == Touch(Fold(frames), f)
  {
    hide Touch;
    assert (frames + [f])[..|frames|] == frames;
  }

  lemma OneHit(t: Tracker, h: Hit, first: bool, f: Frame, id: string, frames: seq<Frame>)
    requires id != "" && Contacts(t, id) == Fold(frames)
    ensures Contacts(OnHit(t, h, first, f), id) == Fold(if h.id == id then frames + [f] else frames)
  {
    hide OnHit, Fold, Touch;
    HitTouchesOne(t, h, first, f, id);
    TouchOfContacts(HitterOf(t.hitters, id), f);
    FoldOneMore(frames, f);
  }

  lemma {:induction false} HitsFold(t: Tracker, hits: seq<Hit>, first: bool, f: Frame, id: string, frames: seq<Frame>)
    requires id != "" && Contacts(t, id) == Fold(frames)
    ensures Contacts(OnHits(t, hits, first, f), id) == Fold(frames + HitFrames(hits, id, f))
  {
    if hits == [] {
      assert frames + [] == frames;
    } else {
      var earlier := hits[..|hits| - 1];
      HitsFold(t, earlier, first, f, id, frames);
      var all := frames + HitFrames(earlier, id, f);
      OneHit(OnHits(t, earlier, first, f), hits[|hits| - 1], first, f, id, all);
      assert hits[|hits| - 1].id == id ==> all + [f] == frames + HitFrames(hits, id, f);
    }
  }

  lemma StepFolds(t: Tracker, e: Event, at: real, id: string, frames: seq<Frame>)
    requires id != "" && Contacts(t, id) == Fold(frames)
    ensures Contacts(Step(t, e, at), id)
         == Fold(if e.BallWasHit? then frames + HitFrames(e.hit.hitters, id, Frame(at, e.hit.speed)) else frames)
  {
    match e
    case BallWasHit(hit) =>
      if hit.hitters == [] {
        assert frames + [] == frames;
      } else {
        HitsFold(InPlay(t), hit.hitters, t.kicks.awaiting, Frame(at, hit.speed), id, frames);
      }
    case _ =>
  }

  lemma {:induction false} RunFolds(events: seq<Timed>, id: string)
    requires id != ""
    ensures Contacts(Run(events), id) == Fold(FramesOf(events, id))
  {
    if events == [] {
    } else {
      var earlier := events[..|events| - 1];
      RunFolds(earlier, id);
      StepFolds(Run(earlier), events[|events| - 1].event, events[|events| - 1].at, id, FramesOf(earlier, id));
    }
  }

  /** The fastest of the frames, 0 when there is none. */
  ghost predicate IsFastest(frames: seq<Frame>, v: real) {
    && v >= 0.0 && (forall i | 0 <= i < |frames| :: frames[i].speed <= v)
    && (v > 0.0 ==> exists i | 0 <= i < |frames| :: frames[i].speed == v)
  }

  lemma {:induction false} FoldFastest(frames: seq<Frame>)
    ensures IsFastest(frames, Fold(frames).maxSpeed)
  {
    if frames != [] {
      var init, f := frames[..|frames| - 1], frames[|frames| - 1];
      FoldFastest(init);
      hide Fold;
      TouchFastest(Fold(init), f);
      assert Fold(frames).maxSpeed == MaxR(Fold(init).maxSpeed, f.speed) by { FoldLast(frames); }
      var before := Fold(init).maxSpeed;
      if before >= f.speed && before > 0.0 {
        var i :| 0 <= i < |init| && init[i].speed == before;
        assert frames[i].speed == before;
      }
      assert forall i | 0 <= i < |init| :: frames[i] == init[i];
    }
  }

  lemma FoldLast(frames: seq<Frame>)
    requires frames != []
    ensures Fold(frames) == Touch(Fold(frames[..|frames| - 1]), frames[|frames| - 1])
  {}

  lemma TouchFastest(h: Hitter, f: Frame)
    ensures Touch(h, f).maxSpeed == MaxR(h.maxSpeed, f.speed)
  {}

  /**
   For every run and player, however the player's frames are cut at the long gaps: hits counts the pieces, the
   speed sum adds up their fastest frames, the hard hits are the pieces whose fastest frame is hard, and the
   top speed is that of the fastest frame of all.
   */
  lemma ContactsAreChains(events: seq<Timed>, id: string, chains: seq<seq<Frame>>)
    requires id != "" && IsChaining(FramesOf(events, id), chains)
    ensures NoneEmpty(chains) && Matches(HitterOf(Run(events).hitters, id), chains)
    ensures IsFastest(FramesOf(events, id), HitterOf(Run(events).hitters, id).maxSpeed)
  {
    RunFolds(events, id);
    FoldFastest(FramesOf(events, id));
    FoldMatches(FramesOf(events, id));
    ChainsAreUnique(FramesOf(events, id), chains);
    assert Contacts(Run(events), id).hits == HitterOf(Run(events).hitters, id).hits;
    hide IsFastest;
  }

  // ---------------------------------------------------------------- first touches

  predicate Room(t: Tracker, id: string) {
    HitterOf(t.hitters, id).firstTouches + (if t.kicks.awaiting then 1 else 0) <= |t.kicks.kickoffs|
  }

  /** One reported hit gives a player at most one first touch, even if it names the player twice. */
  lemma {:induction false} HitsFirstTouch(t: Tracker, hits: seq<Hit>, first: bool, f: Frame, id: string)
    requires id != ""
    ensures var u := OnHits(t, hits, first, f);
      var was := HitterOf(t.hitters, id); var is_ := HitterOf(u.hitters, id);
      && |u.kicks.kickoffs| == |t.kicks.kickoffs| && u.kicks.awaiting == t.kicks.awaiting
      && (is_ == was || Merges(is_, f.at))
      && is_.firstTouches <= was.firstTouches + (if first && is_ != was then 1 else 0)
  {
    if hits == [] {
    } else {
      HitsFirstTouch(t, hits[..|hits| - 1], first, f, id);
    }
  }

  lemma StepKeepsRoom(t: Tracker, e: Event, at: real, id: string)
    requires id != "" && Room(t, id)
    ensures Room(Step(t, e, at), id)
  {
    match e
    case BallWasHit(hit) =>
      if hit.hitters != [] {
        HitsFirstTouch(InPlay(t), hit.hitters, t.kicks.awaiting, Frame(at, hit.speed), id);
      }
    case _ =>
  }

  /** No player has more first touches than kickoffs were recorded. */
  lemma {:induction false} FirstTouchesAreKickoffs(events: seq<Timed>, id: string)
    requires id != ""
    ensures Room(Run(events), id)
    ensures HitterOf(Run(events).hitters, id).firstTouches <= |Run(events).kicks.kickoffs|
  {
    if events == [] {
    } else {
      var earlier := events[..|events| - 1];
      FirstTouchesAreKickoffs(earlier, id);
      StepKeepsRoom(Run(earlier), events[|events| - 1].event, events[|events| - 1].at, id);
    }
  }

  // ---------------------------------------------------------------- kickoff records

  /** What a kickoff record keeps once known. */
  predicate Completes(k: Kickoff, l: Kickoff) {
    && l.play == k.play
    && (k.firstTouchId != "" ==> l.firstTouchId == k.firstTouchId && l.firstTouchTeam == k.firstTouchTeam)
    && (k.goalTeam != -1 ==> l.goalTeam == k.goalTeam)
  }

  /** Kickoffs are never dropped or reordered, only the latest is still filled in. */
  predicate Extends(ks: seq<Kickoff>, ls: seq<Kickoff>) {
    && |ks| <= |ls|
    && (forall i | 0 <= i < |ks| - 1 :: ls[i] == ks[i])
    && (ks != [] ==> Completes(ks[|ks| - 1], ls[|ks| - 1]))
  }

  lemma {:induction false} HitsExtendKickoffs(t: Tracker, hits: seq<Hit>, first: bool, f: Frame)
    ensures Extends(t.kicks.kickoffs, OnHits(t, hits, first, f).kicks.kickoffs)
    ensures |t.kicks.kickoffs| == |OnHits(t, hits, first, f).kicks.kickoffs|
  {
    if hits == [] {
    } else {
      HitsExtendKickoffs(t, hits[..|hits| - 1], first, f);
    }
  }

  /**
   Every step keeps the kickoffs recorded so far: earlier ones stay as they are, and in
   the latest one a first touch or a goal, once written, is not overwritten.
   */
  lemma StepExtendsKickoffs(t: Tracker, e: Event, at: real)
    ensures Extends(t.kicks.kickoffs, Step(t, e, at).kicks.kickoffs)
  {
    match e
    case BallWasHit(hit) =>
      if hit.hitters != [] {
        HitsExtendKickoffs(InPlay(t), hit.hitters, t.kicks.awaiting, Frame(at, hit.speed));
      }
    case _ =>
  }
}
