/**
 The database job queue (src/database/DatabaseManager.cpp): requests and one worker,
 as atomic steps under the queue's mutex. `JobQueues` is the queue on values with its
 invariant over every interleaving; the class below it is the queue as the program has
 it.
 */
module JobQueues {
  import opened Options
  import opened Seqs

  const MAX_WAITING: nat := 100

  datatype Priority = Critical | Normal | Coalescable

  /** `work` names what the job does. */
  datatype Job = Job(work: nat, priority: Priority, key: string) {
    predicate Keyed() {
      priority == Coalescable && key != ""
    }
  }

  datatype Reply = Refused | Queued | Covered

  datatype Queue = Queue(jobs: seq<Job>, pending: set<string>, stopped: bool)

  const EMPTY := Queue([], {}, false)

  /** How many critical jobs stand at the front. */
  function Criticals(jobs: seq<Job>): (n: nat)
    ensures n <= |jobs|
    ensures forall i | 0 <= i < n :: jobs[i].priority == Critical
    ensures n < |jobs| ==> jobs[n].priority != Critical
  {
    if jobs != [] && jobs[0].priority == Critical then 1 + Criticals(jobs[1..]) else 0
  }

  function Insert(jobs: seq<Job>, j: Job): seq<Job> {
    if j.priority == Critical then jobs[..Criticals(jobs)] + [j] + jobs[Criticals(jobs)..] else jobs + [j]
  }

  function ReplyTo(q: Queue, j: Job): Reply {
    if q.stopped then Refused
    else if j.Keyed() && j.key in q.pending then Covered
    else if |q.jobs| > MAX_WAITING && j.priority != Critical then Refused
    else Queued
  }

  function Enqueue(q: Queue, j: Job): Queue {
    if ReplyTo(q, j) != Queued then q
    else q.(jobs := Insert(q.jobs, j), pending := if j.Keyed() then q.pending + {j.key} else q.pending)
  }

  function Release(pending: set<string>, j: Job): set<string> {
    if j.Keyed() then pending - {j.key} else pending
  }

  // ---------------------------------------------------------------- runs

  datatype Event = Request(job: Job) | Take | Finish | Stop | Exit

  /** The queue, the worker, and what happened so far. */
  datatype Trace = Trace(q: Queue, running: Option<Job>, exited: bool,
                         accepted: seq<Job>, finished: seq<Job>)

  const START := Trace(EMPTY, None, false, [], [])

  predicate Enabled(t: Trace, e: Event) {
    match e
    case Request(_) => true
    case Take => !t.exited && t.running.None? && t.q.jobs != []
    case Finish => t.running.Some?
    case Stop => true
    case Exit => !t.exited && t.running.None? && t.q.stopped && t.q.jobs == []
  }

  /** A step that is not enabled waits: nothing happens. */
  function Step(t: Trace, e: Event): Trace {
    if !Enabled(t, e) then t
    else
      match e
      case Request(j) =>
        t.(q := Enqueue(t.q, j), accepted := if ReplyTo(t.q, j) == Queued then t.accepted + [j] else t.accepted)
      case Take => t.(q := t.q.(jobs := t.q.jobs[1..]), running := Some(t.q.jobs[0]))
      case Finish =>
        t.(q := t.q.(pending := Release(t.q.pending, t.running.value)), running := None,
           finished := t.finished + [t.running.value])
      case Stop => t.(q := t.q.(stopped := true))
      case Exit => t.(exited := true)
  }

  ghost function Run(events: seq<Event>): Trace {
    if events == [] then START else Step(Run(events[..|events| - 1]), events[|events| - 1])
  }

  // ---------------------------------------------------------------- the invariant

  function Of(jobs: seq<Job>, critical: bool): seq<Job> {
    if jobs == [] then []
    else
      var rest := Of(jobs[..|jobs| - 1], critical);
      if (jobs[|jobs| - 1].priority == Critical) == critical then rest + [jobs[|jobs| - 1]] else rest
  }

  /** Jobs taken up so far, in order. */
  function Started(t: Trace): seq<Job> {
    if t.running.Some? then t.finished + [t.running.value] else t.finished
  }

  /** Jobs accepted but not finished. */
  function Unfinished(t: Trace): seq<Job> {
    if t.running.Some? then [t.running.value] + t.q.jobs else t.q.jobs
  }

  predicate CriticalsFirst(jobs: seq<Job>) {
    forall i, j | 0 <= i < j < |jobs| && jobs[j].priority == Critical :: jobs[i].priority == Critical
  }

  /** Every accepted job of a class has started or waits, in acceptance order. */
  predicate KeepsOrder(t: Trace, critical: bool) {
    Of(Started(t), critical) + Of(t.q.jobs, critical) == Of(t.accepted, critical)
  }

  predicate DistinctKeys(jobs: seq<Job>) {
    forall i, j | 0 <= i < j < |jobs| && jobs[i].Keyed() && jobs[j].Keyed() :: jobs[i].key != jobs[j].key
  }

  ghost predicate KeysAreUnfinished(jobs: seq<Job>, pending: set<string>) {
    && (forall i | 0 <= i < |jobs| && jobs[i].Keyed() :: jobs[i].key in pending)
    && (forall key | key in pending :: exists i | 0 <= i < |jobs| :: jobs[i].Keyed() && jobs[i].key == key)
    && DistinctKeys(jobs)
  }

  ghost predicate Good(t: Trace) {
    && CriticalsFirst(t.q.jobs)
    && KeepsOrder(t, true) && KeepsOrder(t, false)
    && KeysAreUnfinished(Unfinished(t), t.q.pending)
    && |Of(t.q.jobs, false)| <= 101
    && (t.exited ==> t.q.stopped && t.running.None? && t.q.jobs == [])
  }

  // ---------------------------------------------------------------- filters

  lemma {:induction false} OfConcat(a: seq<Job>, b: seq<Job>, critical: bool)
    ensures Of(a + b, critical) == Of(a, critical) + Of(b, critical)
  {
    if b == [] {
      assert a + b == a;
    } else {
      assert (a + b)[..|a + b| - 1] == a + b[..|b| - 1];
      OfConcat(a, b[..|b| - 1], critical);
    }
  }

  lemma {:induction false} OfLength(jobs: seq<Job>, critical: bool)
    ensures |Of(jobs, critical)| <= |jobs|
  {
    if jobs != [] {
      OfLength(jobs[..|jobs| - 1], critical);
    }
  }

  lemma {:induction false} OfOneClass(jobs: seq<Job>, critical: bool)
    requires forall i | 0 <= i < |jobs| :: (jobs[i].priority == Critical) == critical
    ensures Of(jobs, critical) == jobs && Of(jobs, !critical) == []
  {
    if jobs != [] {
      OfOneClass(jobs[..|jobs| - 1], critical);
      assert jobs == jobs[..|jobs| - 1] + [jobs[|jobs| - 1]];
    }
  }

  lemma OfOne(j: Job, critical: bool)
    ensures Of([j], critical) == if (j.priority == Critical) == critical then [j] else []
  {
    assert [j][..0] == [];
  }

  predicate AllOf(jobs: seq<Job>, critical: bool) {
    forall i | 0 <= i < |jobs| :: (jobs[i].priority == Critical) == critical
  }

  lemma OfParts(a: seq<Job>, b: seq<Job>, critical: bool)
    requires AllOf(a, true) && AllOf(b, false)
    ensures Of(a + b, critical) == if critical then a else b
  {
    OfConcat(a, b, critical);
    OfOneClass(a, true);
    OfOneClass(b, false);
    if critical {
      assert a + [] == a;
    } else {
      assert [] + b == b;
    }
  }

  lemma OfSplit(a: seq<Job>, j: Job, b: seq<Job>, critical: bool)
    requires AllOf(a, true) && AllOf(b, false) && j.priority == Critical
    ensures Of(a + b, critical) == if critical then a else b
    ensures Of(a + [j] + b, critical) == if critical then a + [j] else b
  {
    OfParts(a, b, critical);
    OfParts(a + [j], b, critical);
  }

  /** Insertion puts a job last among its class. */
  lemma OfInserted(jobs: seq<Job>, j: Job, critical: bool)
    requires CriticalsFirst(jobs)
    ensures Of(Insert(jobs, j), critical)
         == if (j.priority == Critical) == critical then Of(jobs, critical) + [j] else Of(jobs, critical)
  {
    if j.priority == Critical {
      var n := Criticals(jobs);
      assert jobs == jobs[..n] + jobs[n..];
      OfSplit(jobs[..n], j, jobs[n..], critical);
    } else {
      OfOne(j, critical);
      OfConcat(jobs, [j], critical);
    }
  }

  lemma InsertKeepsCriticalsFirst(jobs: seq<Job>, j: Job)
    requires CriticalsFirst(jobs)
    ensures CriticalsFirst(Insert(jobs, j))
  {
    var n := Criticals(jobs);
    assert forall i | n <= i < |jobs| :: jobs[i].priority != Critical;
  }

  // ---------------------------------------------------------------- every step keeps it

  lemma OrderAfterRequest(t: Trace, j: Job, critical: bool)
    requires CriticalsFirst(t.q.jobs) && KeepsOrder(t, critical)
    ensures KeepsOrder(Step(t, Request(j)), critical)
  {
    hide Insert, Of, ReplyTo, CriticalsFirst;
    if ReplyTo(t.q, j) == Queued {
      OfInserted(t.q.jobs, j, critical);
      OfOne(j, critical);
      OfConcat(t.accepted, [j], critical);
      Associates(Of(Started(t), critical), Of(t.q.jobs, critical), Of([j], critical));
      assert Of(t.accepted, critical) + [] == Of(t.accepted, critical);
    }
  }

  lemma OrderAfterTake(t: Trace, critical: bool)
    requires Enabled(t, Take) && KeepsOrder(t, critical)
    ensures KeepsOrder(Step(t, Take), critical)
  {
    var j, rest := t.q.jobs[0], t.q.jobs[1..];
    assert t.q.jobs == [j] + rest;
    OfConcat([j], rest, critical);
    OfConcat(t.finished, [j], critical);
    Associates(Of(t.finished, critical), Of([j], critical), Of(rest, critical));
  }

  lemma KeysAfterRequest(t: Trace, j: Job)
    requires KeysAreUnfinished(Unfinished(t), t.q.pending)
    ensures var u := Step(t, Request(j)); KeysAreUnfinished(Unfinished(u), u.q.pending)
  {
    if ReplyTo(t.q, j) == Queued {
      UnfinishedAfterRequest(t, j);
      KeysAfterInsertAt(Unfinished(t), InsertAt(t, j), j, t.q.pending);
    }
  }

  /** Where a queued job goes among the unfinished ones. */
  function InsertAt(t: Trace, j: Job): (n: nat)
    ensures n <= |Unfinished(t)|
  {
    |Unfinished(t)| - |t.q.jobs| + if j.priority == Critical then Criticals(t.q.jobs) else |t.q.jobs|
  }

  function Running(t: Trace): seq<Job> {
    if t.running.Some? then [t.running.value] else []
  }

  lemma UnfinishedIs(t: Trace)
    ensures Unfinished(t) == Running(t) + t.q.jobs && |Running(t)| == |Unfinished(t)| - |t.q.jobs|
  {}

  lemma RequestQueues(t: Trace, j: Job)
    requires ReplyTo(t.q, j) == Queued
    ensures var u := Step(t, Request(j)); u.q.jobs == Insert(t.q.jobs, j) && Running(u) == Running(t)
  {
    hide Insert;
  }

  lemma UnfinishedAfterRequest(t: Trace, j: Job)
    requires ReplyTo(t.q, j) == Queued
    ensures var before := Unfinished(t); var n := InsertAt(t, j);
      Unfinished(Step(t, Request(j))) == before[..n] + [j] + before[n..]
  {
    hide ReplyTo, Step, Insert, Running, Unfinished, Criticals;
    var k := if j.priority == Critical then Criticals(t.q.jobs) else |t.q.jobs|;
    RequestQueues(t, j);
    InsertSplits(t.q.jobs, j, k);
    UnfinishedIs(t);
    UnfinishedIs(Step(t, Request(j)));
    SplitsBehind(Running(t), t.q.jobs, j, k);
  }

  lemma InsertSplits(jobs: seq<Job>, j: Job, k: nat)
    requires k == if j.priority == Critical then Criticals(jobs) else |jobs|
    ensures Insert(jobs, j) == jobs[..k] + [j] + jobs[k..]
  {
    if j.priority != Critical { assert jobs + [j] == jobs[..k] + [j] + jobs[k..]; }
  }

  lemma SplitsBehind(a: seq<Job>, b: seq<Job>, j: Job, k: nat)
    requires k <= |b|
    ensures var n := |a| + k; a + (b[..k] + [j] + b[k..]) == (a + b)[..n] + [j] + (a + b)[n..]
  {
    var n := |a| + k;
    assert (a + b)[..n] == a + b[..k] && (a + b)[n..] == b[k..];
  }

  lemma KeysAfterInsertAt(jobs: seq<Job>, n: nat, j: Job, pending: set<string>)
    requires n <= |jobs| && KeysAreUnfinished(jobs, pending) && (j.Keyed() ==> j.key !in pending)
    ensures KeysAreUnfinished(jobs[..n] + [j] + jobs[n..], if j.Keyed() then pending + {j.key} else pending)
  {
    assert jobs == jobs[..n] + jobs[n..];
    KeysAfterInsert(jobs[..n], j, jobs[n..], pending);
  }

  lemma DistinctAfterInsert(a: seq<Job>, j: Job, b: seq<Job>)
    requires DistinctKeys(a + b)
    requires j.Keyed() ==> forall i | 0 <= i < |a + b| && (a + b)[i].Keyed() :: (a + b)[i].key != j.key
    ensures DistinctKeys(a + [j] + b)
  {
    var jobs := a + [j] + b;
    forall i | 0 <= i < |jobs| && i != |a| ensures jobs[i] == (a + b)[if i < |a| then i else i - 1] {}
  }

  lemma KeysAfterInsert(a: seq<Job>, j: Job, b: seq<Job>, pending: set<string>)
    requires KeysAreUnfinished(a + b, pending) && (j.Keyed() ==> j.key !in pending)
    ensures KeysAreUnfinished(a + [j] + b, if j.Keyed() then pending + {j.key} else pending)
  {
    var jobs := a + [j] + b;
    var after := if j.Keyed() then pending + {j.key} else pending;
    forall i | 0 <= i < |jobs| && i != |a| && jobs[i].Keyed() ensures jobs[i].key in pending {
      assert jobs[i] == (a + b)[if i < |a| then i else i - 1];
    }
    forall key | key in after ensures exists i | 0 <= i < |jobs| :: jobs[i].Keyed() && jobs[i].key == key {
      if key in pending {
        var i :| 0 <= i < |a + b| && (a + b)[i].Keyed() && (a + b)[i].key == key;
        assert jobs[if i < |a| then i else i + 1] == (a + b)[i];
      } else {
        assert jobs[|a|] == j;
      }
    }
    forall i | 0 <= i < |a + b| && (a + b)[i].Keyed() ensures j.Keyed() ==> (a + b)[i].key != j.key {
      assert (a + b)[i].key in pending;
    }
    DistinctAfterInsert(a, j, b);
  }

  lemma KeysAfterFinish(t: Trace)
    requires Enabled(t, Finish) && KeysAreUnfinished(Unfinished(t), t.q.pending)
    ensures var u := Step(t, Finish); KeysAreUnfinished(Unfinished(u), u.q.pending)
  {
    var jobs := Unfinished(t);
    var j := t.running.value;
    assert jobs[1..] == t.q.jobs;
    forall i | 0 <= i < |t.q.jobs| && t.q.jobs[i].Keyed() ensures t.q.jobs[i].key in Release(t.q.pending, j) {
      assert t.q.jobs[i] == jobs[i + 1] && jobs[0] == j;
    }
    forall key | key in Release(t.q.pending, j)
      ensures exists i | 0 <= i < |t.q.jobs| :: t.q.jobs[i].Keyed() && t.q.jobs[i].key == key
    {
      var i :| 0 <= i < |jobs| && jobs[i].Keyed() && jobs[i].key == key;
      assert i > 0 && jobs[i] == t.q.jobs[i - 1];
    }
    forall i, k | 0 <= i < k < |t.q.jobs| && t.q.jobs[i].Keyed() && t.q.jobs[k].Keyed()
      ensures t.q.jobs[i].key != t.q.jobs[k].key
    {
      assert t.q.jobs[i] == jobs[i + 1] && t.q.jobs[k] == jobs[k + 1];
    }
  }

  lemma BoundAfterRequest(t: Trace, j: Job)
    requires CriticalsFirst(t.q.jobs) && |Of(t.q.jobs, false)| <= 101
    ensures |Of(Step(t, Request(j)).q.jobs, false)| <= 101
  {
    if ReplyTo(t.q, j) == Queued {
      OfInserted(t.q.jobs, j, false);
      OfLength(t.q.jobs, false);
    }
  }

  lemma RequestIsGood(t: Trace, j: Job)
    requires Good(t)
    ensures Good(Step(t, Request(j)))
  {
    OrderAfterRequest(t, j, true);
    OrderAfterRequest(t, j, false);
    KeysAfterRequest(t, j);
    BoundAfterRequest(t, j);
    if ReplyTo(t.q, j) == Queued {
      InsertKeepsCriticalsFirst(t.q.jobs, j);
    }
  }

  lemma RestIsFine(first: Job, rest: seq<Job>)
    requires CriticalsFirst([first] + rest)
    ensures CriticalsFirst(rest) && |Of(rest, false)| <= |Of([first] + rest, false)|
  {
    var jobs := [first] + rest;
    OfConcat([first], rest, false);
    hide Of;
    forall i, j | 0 <= i < j < |rest| && rest[j].priority == Critical ensures rest[i].priority == Critical {
      assert jobs[i + 1] == rest[i] && jobs[j + 1] == rest[j];
    }
  }

  lemma UnfinishedAfterTake(t: Trace)
    requires Enabled(t, Take)
    ensures var u := Step(t, Take); Unfinished(u) == Unfinished(t) && t.q.jobs == [t.q.jobs[0]] + u.q.jobs
  {}

  lemma TakeIsGood(t: Trace)
    requires Good(t) && Enabled(t, Take)
    ensures Good(Step(t, Take))
  {
    hide KeysAreUnfinished, KeepsOrder, Of, Unfinished, CriticalsFirst;
    OrderAfterTake(t, true);
    OrderAfterTake(t, false);
    UnfinishedAfterTake(t);
    RestIsFine(t.q.jobs[0], Step(t, Take).q.jobs);
  }

  lemma FinishIsGood(t: Trace)
    requires Good(t) && Enabled(t, Finish)
    ensures Good(Step(t, Finish))
  {
    KeysAfterFinish(t);
  }

  lemma StepIsGood(t: Trace, e: Event)
    requires Good(t)
    ensures Good(Step(t, e))
  {
    if Enabled(t, e) {
      match e
      case Request(j) => RequestIsGood(t, j);
      case Take => TakeIsGood(t);
      case Finish => FinishIsGood(t);
      case _ =>
    }
  }

  lemma {:induction false} RunIsGood(events: seq<Event>)
    ensures Good(Run(events))
  {
    if events == [] {
    } else {
      RunIsGood(events[..|events| - 1]);
      StepIsGood(Run(events[..|events| - 1]), events[|events| - 1]);
    }
  }

  // ---------------------------------------------------------------- what follows

  /**
   In every reachable state: accepted jobs of a class run in acceptance order; the job the
   worker would take is non-critical only if no critical job waits; at most 101 non-critical
   jobs wait; a critical job is refused only after stop.
   */
  lemma QueueIsFair(events: seq<Event>, j: Job)
    ensures var t := Run(events);
      && (forall critical :: Of(Started(t), critical) <= Of(t.accepted, critical))
      && (t.q.jobs != [] && t.q.jobs[0].priority != Critical ==> Of(t.q.jobs, true) == [])
      && |Of(t.q.jobs, false)| <= 101
      && (j.priority == Critical ==> (ReplyTo(t.q, j) == Refused <==> t.q.stopped))
  {
    RunIsGood(events);
    var t := Run(events);
    assert KeepsOrder(t, true) && KeepsOrder(t, false);
    if t.q.jobs != [] && t.q.jobs[0].priority != Critical {
      OfOneClass(t.q.jobs, false);
    }
  }

  predicate HasKey(jobs: seq<Job>, key: string) {
    exists i | 0 <= i < |jobs| :: jobs[i].Keyed() && jobs[i].key == key
  }

  /** A request is answered as covered exactly when a job of its key is queued or running. */
  lemma CoveredIffUnfinished(events: seq<Event>, j: Job)
    requires j.Keyed() && !Run(events).q.stopped
    ensures var t := Run(events);
      ReplyTo(t.q, j) == Covered <==> HasKey(Unfinished(t), j.key)
  {
    RunIsGood(events);
  }

  /** An unfinished job does the work that is asked for under the same key. */
  ghost predicate HasJobFor(t: Trace, j: Job) {
    && j.priority == Coalescable && j.key != ""
    && exists i | 0 <= i < |Unfinished(t)| :: Unfinished(t)[i].priority == Coalescable && Unfinished(t)[i].key == j.key
  }

  /**
   Until the queue stops, a request that no unfinished job covers is queued exactly when it is critical or at
   most 100 jobs wait, and then waits as one more; one that is not queued changes nothing.
   */
  lemma AcceptedIff(events: seq<Event>, j: Job)
    requires !Run(events).q.stopped
    ensures var t := Run(events); var next := Step(t, Request(j));
      && (ReplyTo(t.q, j) == Covered <==> HasJobFor(t, j))
      && (!HasJobFor(t, j) ==> (ReplyTo(t.q, j) == Queued <==> j.priority == Critical || |t.q.jobs| <= 100))
      && (ReplyTo(t.q, j) == Queued ==> next.accepted == t.accepted + [j] && |next.q.jobs| == |t.q.jobs| + 1)
      && (ReplyTo(t.q, j) != Queued ==> next == t)
  {
    var t := Run(events);
    RunIsGood(events);
    assert HasJobFor(t, j) <==> j.Keyed() && HasKey(Unfinished(t), j.key);
    if j.Keyed() {
      CoveredIffUnfinished(events, j);
    }
    hide Good, HasKey, HasJobFor, Unfinished, Run;
  }

  /** After stop nothing is accepted any more. */
  lemma StoppedRefuses(t: Trace, j: Job)
    requires t.q.stopped
    ensures ReplyTo(t.q, j) == Refused && Step(t, Request(j)) == t && Step(t, Stop).q.stopped
  {}

  /** Requests for `n` different jobs that nothing makes critical or coalescable. */
  function Requests(n: nat): seq<Event> {
    if n == 0 then [] else Requests(n - 1) + [Request(Job(n - 1, Normal, ""))]
  }

  lemma {:induction false} Filling(n: nat)
    requires n <= 101
    ensures var t := Run(Requests(n)); |t.q.jobs| == n && !t.q.stopped
  {
    if n > 0 {
      Filling(n - 1);
      assert Requests(n)[..|Requests(n)| - 1] == Requests(n - 1);
    }
  }

  /** The 101st job is still taken, and then only critical ones. */
  lemma QueueFills(j: Job)
    requires j.priority == Normal
    ensures var t := Run(Requests(100)); |t.q.jobs| == 100 && ReplyTo(t.q, j) == Queued
    ensures var t := Run(Requests(101)); |t.q.jobs| == 101 && ReplyTo(t.q, j) == Refused
    ensures ReplyTo(Run(Requests(101)).q, j.(priority := Critical)) == Queued
  {
    hide Run, Requests;
    Filling(100);
    Filling(101);
  }

  ghost predicate RunsKey(t: Trace, key: string) {
    t.running.Some? && t.running.value.Keyed() && t.running.value.key == key
  }

  lemma KeyInRestIff(first: Job, rest: seq<Job>, key: string)
    requires DistinctKeys([first] + rest) && HasKey([first] + rest, key)
    ensures HasKey(rest, key) <==> !(first.Keyed() && first.key == key)
  {
    var jobs := [first] + rest;
    if HasKey(rest, key) {
      var i :| 0 <= i < |rest| && rest[i].Keyed() && rest[i].key == key;
      assert jobs[0] == first && jobs[i + 1] == rest[i];
    }
    if !(first.Keyed() && first.key == key) {
      var i :| 0 <= i < |jobs| && jobs[i].Keyed() && jobs[i].key == key;
      assert jobs[i] == rest[i - 1];
    }
  }

  lemma PendingKeyIsQueuedIff(t: Trace, key: string)
    requires KeysAreUnfinished(Unfinished(t), t.q.pending) && key in t.q.pending
    ensures HasKey(t.q.jobs, key) <==> !RunsKey(t, key)
  {
    assert DistinctKeys(Unfinished(t)) && HasKey(Unfinished(t), key);
    hide KeysAreUnfinished, DistinctKeys, HasKey;
    if t.running.Some? {
      KeyInRestIff(t.running.value, t.q.jobs, key);
    }
  }

  /**
   A covered request is served by a job that begins after it exactly when the running job is not of its
   key; otherwise the only work done for it began before it.
   */
  lemma CoveredIsServedLaterIff(events: seq<Event>, j: Job)
    requires j.Keyed() && ReplyTo(Run(events).q, j) == Covered
    ensures var t := Run(events); HasKey(t.q.jobs, j.key) <==> !RunsKey(t, j.key)
  {
    RunIsGood(events);
    PendingKeyIsQueuedIff(Run(events), j.key);
  }

  /** It does happen that the running job is the only one. */
  lemma CoveredByRunning(j: Job)
    requires j.Keyed()
    ensures var t := Run([Request(j), Take]); t.q.jobs == [] && RunsKey(t, j.key) && ReplyTo(t.q, j) == Covered
  {
    var events := [Request(j), Take];
    assert events[..1] == [Request(j)] && events[..1][..0] == [];
    assert Run(events[..1][..0]) == START;
    assert Run(events[..1]) == Step(START, Request(j));
    assert Insert([], j) == [j];
  }

  /** The worker exits only when every accepted job has run, each class in acceptance order. */
  lemma ExitMeansDrained(events: seq<Event>)
    requires Run(events).exited
    ensures var t := Run(events);
      && t.q.stopped && t.q.jobs == [] && t.running.None?
      && Of(t.finished, true) == Of(t.accepted, true) && Of(t.finished, false) == Of(t.accepted, false)
  {
    RunIsGood(events);
    var t := Run(events);
    assert KeepsOrder(t, true) && KeepsOrder(t, false);
  }

  /** What the worker still has to do. */
  function WorkLeft(t: Trace): nat {
    2 * |t.q.jobs| + (if t.running.Some? then 1 else 0) + (if t.exited then 0 else 1)
  }

  predicate IsWork(e: Event) {
    e.Take? || e.Finish? || e.Exit?
  }

  /** After stop every step of the worker takes one unit off its work, and no other event adds to it. */
  lemma WorkShrinks(t: Trace, e: Event)
    requires t.q.stopped
    ensures Step(t, e).q.stopped
    ensures WorkLeft(Step(t, e)) == WorkLeft(t) - (if Enabled(t, e) && IsWork(e) then 1 else 0)
  {}

  ghost function After(t: Trace, events: seq<Event>): Trace {
    if events == [] then t else Step(After(t, events[..|events| - 1]), events[|events| - 1])
  }

  /** How many of the events were steps of the worker. */
  ghost function WorkDone(t: Trace, events: seq<Event>): nat {
    if events == [] then 0
    else
      var earlier := events[..|events| - 1];
      var last := events[|events| - 1];
      WorkDone(t, earlier) + (if Enabled(After(t, earlier), last) && IsWork(last) then 1 else 0)
  }

  /**
   Once stopped, whatever else happens, the worker exits after exactly the steps that its
   queue asks for, and until then one of them is always enabled.
   */
  lemma {:induction false} StoppedQueueDrains(t: Trace, events: seq<Event>)
    requires Good(t) && t.q.stopped
    ensures var u := After(t, events);
      && Good(u) && u.q.stopped
      && WorkDone(t, events) + WorkLeft(u) == WorkLeft(t)
      && (u.exited <==> WorkDone(t, events) == WorkLeft(t))
      && (u.exited || Enabled(u, Take) || Enabled(u, Finish) || Enabled(u, Exit))
  {
    hide Good, Step, Enabled;
    if events == [] {
      ExitedMeansDone(t);
    } else {
      var earlier := events[..|events| - 1];
      StoppedQueueDrains(t, earlier);
      StepIsGood(After(t, earlier), events[|events| - 1]);
      WorkShrinks(After(t, earlier), events[|events| - 1]);
      ExitedMeansDone(After(t, events));
    }
  }

  lemma ExitedMeansDone(t: Trace)
    requires Good(t) && t.q.stopped
    ensures t.exited <==> WorkLeft(t) == 0
    ensures t.exited || Enabled(t, Take) || Enabled(t, Finish) || Enabled(t, Exit)
  {}
}

module JobWorker {
  import opened Options
  import opened JobQueues

  class DbJobQueue {
    var jobs: seq<Job>
    var pending: set<string>
    var stopWorker: bool

    ghost function View(): Queue
      reads this
    {
      Queue(jobs, pending, stopWorker)
    }

    constructor ()
      ensures View() == EMPTY
    {
      jobs, pending, stopWorker := [], {}, false;
    }

    /** The key is put down before the size check and taken back when the job is dropped. */
    method EnqueueDbJob(j: Job) returns (ok: bool)
      modifies this
      ensures View() == Enqueue(old(View()), j)
      ensures ok <==> ReplyTo(old(View()), j) != Refused
      ensures forall t: Trace | t.q == old(View()) :: Step(t, Request(j)).q == View()
    {
      if stopWorker {
        return false;
      }
      if j.priority == Coalescable && j.key != "" {
        if j.key in pending {
          return true;
        }
        pending := pending + {j.key};
      }
      if |jobs| > MAX_WAITING {
        if j.priority != Critical {
          if j.priority == Coalescable && j.key != "" {
            pending := pending - {j.key};
          }
          return false;
        }
      }
      if j.priority == Critical {
        var at := 0;
        while at < |jobs| && jobs[at].priority == Critical
          invariant at <= |jobs| && forall i | 0 <= i < at :: jobs[i].priority == Critical
        {
          at := at + 1;
        }
        jobs := jobs[..at] + [j] + jobs[at..];
      } else {
        jobs := jobs + [j];
      }
      return true;
    }

    method Stop()
      modifies this`stopWorker
      ensures stopWorker
      ensures forall t: Trace | t.q == old(View()) :: Step(t, JobQueues.Stop).q == View()
    {
      stopWorker := true;
    }

    /** The worker's first critical section, entered when there is a job. */
    method TakeJob() returns (j: Job)
      requires jobs != []
      modifies this`jobs
      ensures j == old(jobs)[0] && jobs == old(jobs)[1..]
      ensures forall t: Trace | t.q == old(View()) && Enabled(t, Take) ::
                Step(t, Take).q == View() && Step(t, Take).running == Some(j)
    {
      j := jobs[0];
      jobs := jobs[1..];
    }

    /** The worker's second critical section, after the job ran or threw. */
    method FinishJob(j: Job)
      modifies this`pending
      ensures pending == Release(old(pending), j)
      ensures forall t: Trace | t.q == old(View()) && t.running == Some(j) :: Step(t, Finish).q == View()
    {
      if j.priority == Coalescable && j.key != "" {
        pending := pending - {j.key};
      }
    }

    /** The worker loop from the stop request on: it runs what is queued, in order, and ends. */
    method DrainAfterStop() returns (ran: seq<Job>)
      requires stopWorker
      modifies this
      ensures ran == old(jobs) && jobs == [] && stopWorker
      ensures pending == ReleaseAll(old(pending), old(jobs))
      ensures forall t: Trace | t.q == old(View()) && t.running.None? && !t.exited ::
                var u := After(t, Alternating(|t.q.jobs|)); u.q == View() && u.finished == t.finished + ran
    {
      forall t: Trace | t.q == View() && t.running.None? && !t.exited
        ensures After(t, Alternating(|t.q.jobs|)) == Drained(t, |t.q.jobs|)
      {
        DrainsStepByStep(t, |t.q.jobs|);
      }
      ran := [];
      while true
        invariant stopWorker && ran + jobs == old(jobs)
        invariant pending == ReleaseAll(old(pending), ran)
        decreases |jobs|
      {
        if stopWorker && jobs == [] {
          break;
        }
        var j := TakeJob();
        assert (ran + [j])[..|ran|] == ran;
        FinishJob(j);
        ran := ran + [j];
      }
    }
  }

  function ReleaseAll(pending: set<string>, jobs: seq<Job>): set<string> {
    if jobs == [] then pending else Release(ReleaseAll(pending, jobs[..|jobs| - 1]), jobs[|jobs| - 1])
  }

  /** `n` jobs taken and finished in turn. */
  function Alternating(n: nat): seq<Event> {
    if n == 0 then [] else Alternating(n - 1) + [Take, Finish]
  }

  function Drained(t: Trace, n: nat): Trace
    requires n <= |t.q.jobs|
  {
    t.(q := t.q.(jobs := t.q.jobs[n..], pending := ReleaseAll(t.q.pending, t.q.jobs[..n])),
       finished := t.finished + t.q.jobs[..n])
  }

  lemma OneMoreDrained(t: Trace, n: nat)
    requires t.running.None? && !t.exited && n < |t.q.jobs|
    ensures Step(Step(Drained(t, n), Take), Finish) == Drained(t, n + 1)
  {
    assert t.q.jobs[..n + 1][..n] == t.q.jobs[..n];
    assert t.q.jobs[n..][1..] == t.q.jobs[n + 1..];
  }

  lemma AfterTwo(t: Trace, events: seq<Event>, first: Event, second: Event)
    ensures After(t, events + [first, second]) == Step(Step(After(t, events), first), second)
  {
    hide Step;
    var one := events + [first];
    var two := events + [first, second];
    assert one[..|one| - 1] == events && two[..|two| - 1] == one;
  }

  /** What the loop does, as steps of the protocol. */
  lemma {:induction false} DrainsStepByStep(t: Trace, n: nat)
    requires t.running.None? && !t.exited && n <= |t.q.jobs|
    ensures After(t, Alternating(n)) == Drained(t, n)
  {
    hide Step;
    if n == 0 {
      assert t.finished + t.q.jobs[..0] == t.finished;
    } else {
      hide Drained;
      DrainsStepByStep(t, n - 1);
      AfterTwo(t, Alternating(n - 1), Take, Finish);
      OneMoreDrained(t, n - 1);
    }
  }
}
