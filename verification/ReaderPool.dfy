/**
 The pool of read connections (src/database/ReaderPool.cpp) and the leases on them, as
 atomic steps under the pool's mutex. Connections and leases are names; which lease
 object a move takes from and to is part of the step. `ReaderPools` is the protocol with
 its invariant over every interleaving; the classes below it are the pool and a lease
 as the program has them.
 */
module ReaderPools {
  import opened Options

  type Conn = nat
  type LeaseId = nat

  /** What a lease object holds: a connection whose BEGIN is still to come, one in use, or nothing. */
  datatype Held = Nothing | Starting(conn: Conn) | Leased(conn: Conn)

  /**
   `leases` has every lease object that lives; `waiting` counts the shutdowns in progress;
   `taken` and `returned` count, per connection, how often it left the pool and came back.
   */
  datatype Pool = Pool(connections: seq<Conn>, available: seq<Conn>, stopping: bool, waiting: nat,
                       leases: map<LeaseId, Held>, taken: multiset<Conn>, returned: multiset<Conn>)

  const EMPTY := Pool([], [], false, 0, map[], multiset{}, multiset{})

  datatype Event =
    | Fill(conns: seq<Conn>)
    | BeginShutdown
    | FinishShutdown
    | Acquire(id: LeaseId)
    | Begin(id: LeaseId, ok: bool)
    | MoveConstruct(from: LeaseId, into: LeaseId)
    | MoveAssign(from: LeaseId, into: LeaseId)
    | Destroy(id: LeaseId)

  predicate NoDuplicates(s: seq<Conn>) {
    forall i, j | 0 <= i < j < |s| :: s[i] != s[j]
  }

  /** A lease object exists for its owner once its constructor is through. */
  predicate Built(p: Pool, id: LeaseId) {
    id in p.leases && !p.leases[id].Starting?
  }

  predicate Enabled(p: Pool, e: Event) {
    match e
    case Fill(new_) => NoDuplicates(new_) && forall c | c in new_ :: c !in p.connections
    case BeginShutdown => true
    case FinishShutdown => p.waiting > 0 && |p.available| == |p.connections|
    case Acquire(id) => id !in p.leases && (p.stopping || p.available != [])
    case Begin(id, _) => id in p.leases && p.leases[id].Starting?
    case MoveConstruct(from, into) => Built(p, from) && into !in p.leases
    case MoveAssign(from, into) => Built(p, from) && Built(p, into)
    case Destroy(id) => Built(p, id)
  }

  /** The connection a lease object held comes back; the object no longer holds it. */
  function Return(p: Pool, h: Held): Pool {
    if h.Nothing? then p
    else p.(available := p.available + [h.conn], returned := p.returned + multiset{h.conn})
  }

  /** A step that is not enabled waits: nothing happens. */
  function Step(p: Pool, e: Event): Pool {
    if !Enabled(p, e) then p
    else
      match e
      case Fill(new_) => p.(stopping := false, connections := p.connections + new_, available := p.available + new_)
      case BeginShutdown => p.(stopping := true, waiting := p.waiting + 1)
      case FinishShutdown => p.(connections := [], available := [], waiting := p.waiting - 1)
      case Acquire(id) =>
        if p.stopping then p.(leases := p.leases[id := Nothing])
        else
          var c := p.available[|p.available| - 1];
          p.(available := p.available[..|p.available| - 1], leases := p.leases[id := Starting(c)],
             taken := p.taken + multiset{c})
      case Begin(id, ok) =>
        if ok then p.(leases := p.leases[id := Leased(p.leases[id].conn)])
        else Return(p.(leases := p.leases[id := Nothing]), p.leases[id])
      case MoveConstruct(from, into) => p.(leases := p.leases[into := p.leases[from]][from := Nothing])
      case MoveAssign(from, into) =>
        if from == into then p
        else Return(p.(leases := p.leases[into := p.leases[from]][from := Nothing]), p.leases[into])
      case Destroy(id) => Return(p.(leases := p.leases - {id}), p.leases[id])
  }

  ghost function Run(events: seq<Event>): Pool {
    if events == [] then EMPTY else Step(Run(events[..|events| - 1]), events[|events| - 1])
  }

  // ---------------------------------------------------------------- the invariant

  predicate Out(p: Pool, c: Conn) {
    c in p.connections && c !in p.available
  }

  predicate Holds(leases: map<LeaseId, Held>, id: LeaseId, c: Conn) {
    id in leases && !leases[id].Nothing? && leases[id].conn == c
  }

  /** Every connection is available or held, never both; available ones are listed once, held ones held once. */
  ghost predicate Partition(p: Pool) {
    && NoDuplicates(p.connections) && NoDuplicates(p.available)
    && (forall c | c in p.available :: c in p.connections)
    && (forall c | Out(p, c) :: exists id :: Holds(p.leases, id, c))
    && (forall id, c | Holds(p.leases, id, c) :: Out(p, c))
    && (forall id, other, c | Holds(p.leases, id, c) && Holds(p.leases, other, c) :: id == other)
  }

  /** Every connection that left has come back exactly once, unless it is still out. */
  ghost predicate Balanced(p: Pool) {
    forall c :: p.taken[c] == p.returned[c] + (if Out(p, c) then 1 else 0)
  }

  ghost predicate Good(p: Pool) {
    Partition(p) && Balanced(p)
  }

  // ---------------------------------------------------------------- every step keeps it

  lemma FillIsGood(p: Pool, new_: seq<Conn>)
    requires Good(p) && Enabled(p, Fill(new_))
    ensures Good(Step(p, Fill(new_)))
  {
    assert forall c :: Out(Step(p, Fill(new_)), c) <==> Out(p, c);
    DistinctJoined(p.connections, new_);
    DistinctJoined(p.available, new_);
  }

  lemma DistinctJoined(a: seq<Conn>, b: seq<Conn>)
    requires NoDuplicates(a) && NoDuplicates(b) && forall c | c in b :: c !in a
    ensures NoDuplicates(a + b)
  {
    forall i, j | 0 <= i < j < |a + b| ensures (a + b)[i] != (a + b)[j] {
      if i < |a| <= j {
        assert a[i] in a && b[j - |a|] in b;
      }
    }
  }

  function Elements(s: seq<Conn>): set<Conn> {
    set c | c in s
  }

  lemma {:induction false} SizeOfDistinct(s: seq<Conn>)
    requires NoDuplicates(s)
    ensures |Elements(s)| == |s|
  {
    if s != [] {
      var init, last := s[..|s| - 1], s[|s| - 1];
      SizeOfDistinct(init);
      assert s == init + [last];
      assert Elements(s) == Elements(init) + {last};
      assert last !in Elements(init);
    }
  }

  lemma {:induction false} SubsetSize(a: set<Conn>, b: set<Conn>)
    requires a <= b
    ensures |a| <= |b|
    decreases a
  {
    if a != {} {
      var x :| x in a;
      SubsetSize(a - {x}, b - {x});
    }
  }

  /** All connections in the pool again means that no lease is outstanding. */
  lemma AllAvailable(p: Pool)
    requires Partition(p) && |p.available| == |p.connections|
    ensures forall c :: !Out(p, c)
  {
    SizeOfDistinct(p.available);
    SizeOfDistinct(p.connections);
    forall c ensures !Out(p, c) {
      if Out(p, c) {
        SubsetSize(Elements(p.available), Elements(p.connections) - {c});
      }
    }
  }

  lemma ShutdownIsGood(p: Pool)
    requires Good(p) && Enabled(p, FinishShutdown)
    ensures Good(Step(p, FinishShutdown))
    ensures forall id, c :: !Holds(p.leases, id, c)
  {
    AllAvailable(p);
    assert forall c :: !Out(Step(p, FinishShutdown), c);
  }

  lemma AcquireIsGood(p: Pool, id: LeaseId)
    requires Good(p) && Enabled(p, Acquire(id))
    ensures Good(Step(p, Acquire(id)))
  {
    var q := Step(p, Acquire(id));
    if p.stopping {
      assert forall l, c :: Holds(q.leases, l, c) <==> Holds(p.leases, l, c);
      SameHolders(p, q);
    } else {
      HandedOut(p, q, id, p.available[|p.available| - 1]);
    }
  }

  lemma SameHolders(p: Pool, q: Pool)
    requires Good(p) && q == p.(leases := q.leases)
    requires forall l, c :: Holds(q.leases, l, c) <==> Holds(p.leases, l, c)
    ensures Good(q)
  {
    forall c | Out(q, c) ensures exists id :: Holds(q.leases, id, c) {
      assert Out(p, c);
      var id :| Holds(p.leases, id, c);
      assert Holds(q.leases, id, c);
    }
  }

  lemma HandedOut(p: Pool, q: Pool, id: LeaseId, c: Conn)
    requires Good(p) && id !in p.leases && p.available != [] && c == p.available[|p.available| - 1]
    requires q == p.(available := p.available[..|p.available| - 1], leases := p.leases[id := Starting(c)],
                     taken := p.taken + multiset{c})
    ensures Good(q)
  {
    assert p.available == q.available + [c];
    assert c in p.available && c !in q.available;
    assert forall d :: Out(q, d) <==> Out(p, d) || d == c;
    assert forall l, d :: Holds(q.leases, l, d) <==> Holds(p.leases, l, d) || (l == id && d == c);
    forall d | Out(q, d) ensures exists l :: Holds(q.leases, l, d) {
      if d == c {
        assert Holds(q.leases, id, c);
      } else {
        var l :| Holds(p.leases, l, d);
        assert Holds(q.leases, l, d);
      }
    }
  }

  /** A move: `into` holds what `from` held. */
  lemma HandedOver(p: Pool, q: Pool, from: LeaseId, into: LeaseId)
    requires Good(p) && from in p.leases && (into == from || into !in p.leases || p.leases[into].Nothing?)
    requires q == p.(leases := q.leases)
    requires forall id, c :: Holds(q.leases, id, c)
               <==> if id == into then Holds(p.leases, from, c) else id != from && Holds(p.leases, id, c)
    ensures Good(q)
  {
    forall c | Out(q, c) ensures exists id :: Holds(q.leases, id, c) {
      assert Out(p, c);
      var id :| Holds(p.leases, id, c);
      assert Holds(q.leases, if id == from then into else id, c);
    }
  }

  /** A connection goes back: its holder lets go of it. */
  lemma GivenBack(p: Pool, q: Pool, id: LeaseId)
    requires Good(p) && id in p.leases && !p.leases[id].Nothing?
    requires q == Return(p, p.leases[id]).(leases := q.leases)
    requires forall l, c :: Holds(q.leases, l, c) <==> l != id && Holds(p.leases, l, c)
    ensures Good(q)
  {
    var back := p.leases[id].conn;
    assert Holds(p.leases, id, back);
    assert forall c :: Out(q, c) <==> Out(p, c) && c != back;
    forall c | Out(q, c) ensures exists l :: Holds(q.leases, l, c) {
      var l :| Holds(p.leases, l, c);
      assert Holds(q.leases, l, c);
    }
  }

  lemma BeginIsGood(p: Pool, id: LeaseId, ok: bool)
    requires Good(p) && Enabled(p, Begin(id, ok))
    ensures Good(Step(p, Begin(id, ok)))
  {
    if ok {
      HandedOver(p, Step(p, Begin(id, ok)), id, id);
    } else {
      GivenBack(p, Step(p, Begin(id, ok)), id);
    }
  }

  lemma DestroyIsGood(p: Pool, id: LeaseId)
    requires Good(p) && Enabled(p, Destroy(id))
    ensures Good(Step(p, Destroy(id)))
  {
    var q := Step(p, Destroy(id));
    if p.leases[id].Nothing? {
      assert forall l, c :: Holds(q.leases, l, c) <==> Holds(p.leases, l, c);
      HandedOver(p, q, id, id);
    } else {
      GivenBack(p, q, id);
    }
  }

  lemma MoveIsGood(p: Pool, from: LeaseId, into: LeaseId)
    requires Good(p) && from in p.leases && from != into && (into in p.leases ==> p.leases[into].Nothing?)
    ensures Good(p.(leases := p.leases[into := p.leases[from]][from := Nothing]))
  {
    HandedOver(p, p.(leases := p.leases[into := p.leases[from]][from := Nothing]), from, into);
  }

  lemma AssignIsGood(p: Pool, from: LeaseId, into: LeaseId)
    requires Good(p) && Enabled(p, MoveAssign(from, into))
    ensures Good(Step(p, MoveAssign(from, into)))
  {
    if from != into {
      var h := p.leases[into];
      if h.Nothing? {
        MoveIsGood(p, from, into);
      } else {
        var emptied := Return(p, h).(leases := p.leases[into := Nothing]);
        GivenBack(p, emptied, into);
        MoveIsGood(emptied, from, into);
        assert emptied.leases[into := emptied.leases[from]][from := Nothing]
            == p.leases[into := p.leases[from]][from := Nothing];
      }
    }
  }

  lemma StepIsGood(p: Pool, e: Event)
    requires Good(p)
    ensures Good(Step(p, e))
  {
    if Enabled(p, e) {
      match e
      case Fill(new_) => FillIsGood(p, new_);
      case BeginShutdown => assert forall c :: Out(Step(p, e), c) <==> Out(p, c);
      case FinishShutdown => ShutdownIsGood(p);
      case Acquire(id) => AcquireIsGood(p, id);
      case Begin(id, ok) => BeginIsGood(p, id, ok);
      case MoveConstruct(from, into) => MoveIsGood(p, from, into);
      case MoveAssign(from, into) => AssignIsGood(p, from, into);
      case Destroy(id) => DestroyIsGood(p, id);
    }
  }

  lemma {:induction false} RunIsGood(events: seq<Event>)
    ensures Good(Run(events))
  {
    if events == [] {
    } else {
      RunIsGood(events[..|events| - 1]);
      StepIsGood(Run(events[..|events| - 1]), events[|events| - 1]);
    }
  }

  // ---------------------------------------------------------------- what follows

  /** Conservation, in every reachable state, through any chain of moves and assignments. */
  lemma ConnectionsAreConserved(events: seq<Event>, c: Conn)
    ensures var p := Run(events);
      && NoDuplicates(p.available) && NoDuplicates(p.connections)
      && (c in p.connections <==> (c in p.available || exists id :: Holds(p.leases, id, c)))
      && !(c in p.available && exists id :: Holds(p.leases, id, c))
      && (forall id, other | Holds(p.leases, id, c) && Holds(p.leases, other, c) :: id == other)
      && p.taken[c] == p.returned[c] + (if exists id :: Holds(p.leases, id, c) then 1 else 0)
  {
    RunIsGood(events);
  }

  /** No connection out means that all are back. */
  lemma NoneOut(p: Pool)
    requires Partition(p) && forall c :: !Out(p, c)
    ensures |p.available| == |p.connections|
  {
    SizeOfDistinct(p.available);
    SizeOfDistinct(p.connections);
    assert forall c :: c in Elements(p.connections) ==> !Out(p, c) && c in Elements(p.available);
    assert Elements(p.available) == Elements(p.connections);
  }

  /**
   A shutdown in progress can clear the pool if and only if no lease object holds a connection; every
   connection that was ever handed out has then come back.
   */
  lemma ShutdownWaitsForLeases(events: seq<Event>)
    requires Run(events).waiting > 0
    ensures var p := Run(events);
      && (Enabled(p, FinishShutdown) <==> forall id, c :: !Holds(p.leases, id, c))
      && (Enabled(p, FinishShutdown) ==> forall c :: p.taken[c] == p.returned[c])
  {
    hide Run;
    RunIsGood(events);
    var p := Run(events);
    if Enabled(p, FinishShutdown) {
      ShutdownIsGood(p);
      AllAvailable(p);
    } else if forall id, c :: !Holds(p.leases, id, c) {
      NoneOut(p);
    }
  }

  // ---------------------------------------------------------------- who gets which connection

  /** Until the pool stops, an acquisition gets the connection that came back last; afterwards none. */
  lemma AcquireMeans(p: Pool, id: LeaseId)
    requires Enabled(p, Acquire(id))
    ensures var q := Step(p, Acquire(id)); var n := |p.available|;
      && q.connections == p.connections && q.stopping == p.stopping && q.leases - {id} == p.leases && id in q.leases
      && (p.stopping ==> q.leases[id] == Nothing && q.available == p.available && q.taken == p.taken)
      && (!p.stopping ==> q.leases[id] == Starting(p.available[n - 1]) && q.available == p.available[..n - 1])
  {
    assert p.leases[id := Nothing] - {id} == p.leases;
  }

  /** A lease is usable once its transaction began; else its connection goes back at once. */
  lemma BeginMeans(p: Pool, id: LeaseId)
    requires id in p.leases && p.leases[id].Starting?
    ensures var q := Step(p, Begin(id, true));
      q.leases == p.leases[id := Leased(p.leases[id].conn)] && q.available == p.available
    ensures var q := Step(p, Begin(id, false));
      q.leases == p.leases[id := Nothing] && q.available == p.available + [p.leases[id].conn]
  {}

  /** What a lease object held is back in the pool when it is overwritten or destroyed; a move hands it over. */
  lemma MovesMean(p: Pool, from: LeaseId, into: LeaseId)
    requires Built(p, from) && Built(p, into)
    ensures var q := Step(p, MoveAssign(from, into));
      && (from == into ==> q == p)
      && (from != into ==> q.leases[into] == p.leases[from] && q.leases[from] == Nothing)
      && q.leases - {from, into} == p.leases - {from, into}
      && q.available == p.available + (if from == into || p.leases[into] == Nothing then [] else [p.leases[into].conn])
    ensures var q := Step(p, Destroy(into));
      q.leases == p.leases - {into}
      && q.available == p.available + (if p.leases[into] == Nothing then [] else [p.leases[into].conn])
  {
    assert p.available + [] == p.available;
    if from != into {
      assert p.leases[into := p.leases[from]][from := Nothing] - {from, into} == p.leases - {from, into};
    }
  }

  ghost function After(p: Pool, events: seq<Event>): Pool {
    if events == [] then p else Step(After(p, events[..|events| - 1]), events[|events| - 1])
  }

  /** From the request to shut down until the pool is filled again no connection is handed out. */
  lemma {:induction false} ShutdownHandsOutNothing(p: Pool, events: seq<Event>)
    requires forall i | 0 <= i < |events| :: !events[i].Fill?
    ensures var stopped := Step(p, BeginShutdown); var q := After(stopped, events);
      q.stopping && q.taken == p.taken
  {
    if events != [] {
      ShutdownHandsOutNothing(p, events[..|events| - 1]);
      assert !events[|events| - 1].Fill?;
    }
  }
}

module ReaderLeases {
  import opened Options
  import opened ReaderPools

  /** The connections that could be opened, in order. */
  function Opened(outcomes: seq<Option<Conn>>): seq<Conn> {
    if outcomes == [] then []
    else
      var before := Opened(outcomes[..|outcomes| - 1]);
      var last := outcomes[|outcomes| - 1];
      if last.Some? then before + [last.value] else before
  }

  /** An acquisition is two steps of the protocol, unless the pool is stopping. */
  function Acquired(p: Pool, id: LeaseId, begun: bool): Pool {
    var q := Step(p, Acquire(id));
    if p.stopping then q else Step(q, Begin(id, begun))
  }

  /** After a move construction `into` holds what `from` held; nothing but the two leases changes. */
  ghost predicate MovesOver(p: Pool, from: LeaseId, into: LeaseId, moved: Held, left: Held) {
    var q := Step(p, MoveConstruct(from, into));
    && q == p.(leases := q.leases) && from in q.leases && into in q.leases
    && q.leases[into] == moved && q.leases[from] == left
  }

  lemma MoveHandsOver(p: Pool, from: LeaseId, into: LeaseId)
    requires Enabled(p, MoveConstruct(from, into))
    ensures MovesOver(p, from, into, p.leases[from], Nothing)
  {}

  class PoolState {
    var connections: seq<Conn>
    var available: seq<Conn>
    var stopping: bool

    /** What the pool object knows of the protocol's state. */
    ghost predicate Shows(p: Pool)
      reads this
    {
      connections == p.connections && available == p.available && stopping == p.stopping
    }

    constructor ()
      ensures Shows(EMPTY)
      ensures connections == [] && available == [] && !stopping
    {
      connections, available, stopping := [], [], false;
    }

    method BeginShutdown()
      modifies this`stopping
      ensures stopping
      ensures forall p | old(Shows(p)) :: Shows(Step(p, Event.BeginShutdown))
    {
      stopping := true;
    }

    /** What the condition variable waited for is required: the wait itself is the protocol's business. */
    method FinishShutdown()
      requires |available| == |connections|
      modifies this`connections, this`available
      ensures connections == [] && available == []
      ensures forall p | old(Shows(p)) && p.waiting > 0 ::
                Enabled(p, Event.FinishShutdown) && Shows(Step(p, Event.FinishShutdown))
    {
      available := [];
      connections := [];
    }

    /** The section after the shutdown; another thread may have filled the pool in between. */
    method Fill(outcomes: seq<Option<Conn>>) returns (ok: bool)
      modifies this
      ensures !stopping
      ensures connections == old(connections) + Opened(outcomes) && available == old(available) + Opened(outcomes)
      ensures ok <==> connections != []
      ensures forall p | old(Shows(p)) && Enabled(p, Event.Fill(Opened(outcomes))) ::
                Shows(Step(p, Event.Fill(Opened(outcomes))))
    {
      stopping := false;
      var i := 0;
      while i < |outcomes|
        invariant i <= |outcomes| && !stopping
        invariant connections == old(connections) + Opened(outcomes[..i])
        invariant available == old(available) + Opened(outcomes[..i])
      {
        assert outcomes[..i + 1][..i] == outcomes[..i];
        if outcomes[i].Some? {
          available := available + [outcomes[i].value];
          connections := connections + [outcomes[i].value];
        }
        i := i + 1;
      }
      assert outcomes[..i] == outcomes;
      ok := connections != [];
    }

    method Return(c: Conn)
      modifies this`available
      ensures available == old(available) + [c]
    {
      available := available + [c];
    }

    /** `begun` is whether BEGIN succeeded on the connection taken. */
    method Acquire(begun: bool) returns (lease: Lease)
      requires stopping || available != []
      modifies this`available
      ensures fresh(lease) && lease.Valid()
      ensures if stopping then lease.conn == None && available == old(available)
              else var c := old(available)[|old(available)| - 1]; var rest := old(available)[..|old(available)| - 1];
                if begun then lease.conn == Some(c) && lease.home == this && available == rest
                else lease.conn == None && available == rest + [c]
      ensures forall p, id | old(Shows(p)) && id !in p.leases ::
                var q := Acquired(p, id, begun);
                Enabled(p, Event.Acquire(id)) && Shows(q) && id in q.leases && q.leases[id] == lease.Holding()
    {
      if stopping || available == [] {
        lease := new Lease.Empty();
        return;
      }
      var c := available[|available| - 1];
      available := available[..|available| - 1];
      if !begun {
        Return(c);
        lease := new Lease.Empty();
        return;
      }
      lease := new Lease(c, this);
    }
  }

  class Lease {
    var conn: Option<Conn>
    /** The pool its return function puts the connection back into. */
    var home: PoolState?

    predicate Valid()
      reads this
    {
      conn.Some? ==> home != null
    }

    ghost function Holding(): Held
      reads this
    {
      if conn.Some? then Leased(conn.value) else Nothing
    }

    constructor Empty()
      ensures Valid() && conn == None
    {
      conn, home := None, null;
    }

    constructor (c: Conn, pool: PoolState)
      ensures Valid() && conn == Some(c) && home == pool
    {
      conn, home := Some(c), pool;
    }

    constructor MovedFrom(other: Lease)
      requires other.Valid()
      modifies other
      ensures Valid() && other.Valid() && conn == old(other.conn) && other.conn == None
      ensures conn.Some? ==> home == old(other.home)
      ensures forall p, from, into | Enabled(p, MoveConstruct(from, into)) && p.leases[from] == old(other.Holding()) ::
                MovesOver(p, from, into, Holding(), other.Holding())
    {
      conn, home := other.conn, other.home;
      new;
      other.conn := None;
      forall p, from, into | Enabled(p, MoveConstruct(from, into)) {
        MoveHandsOver(p, from, into);
      }
    }

    method GiveBack()
      requires Valid() && conn.Some?
      modifies home`available
      ensures home.available == old(home.available) + [conn.value]
    {
      home.Return(conn.value);
    }

    /** Moving a lease onto itself changes nothing; otherwise what it held goes back first. */
    method Assign(other: Lease)
      requires Valid() && other.Valid()
      modifies this, other, if home != null then {home} else {}
      ensures Valid() && other.Valid()
      ensures this == other ==> conn == old(conn) && (old(home) != null ==> old(home).available == old(home.available))
      ensures this != other ==> conn == old(other.conn) && other.conn == None
      ensures this != other && conn.Some? ==> home == old(other.home)
      ensures this != other && old(home) != null ==>
                old(home).available == old(home.available) + (if old(conn).Some? then [old(conn).value] else [])
      ensures forall p, from, into |
                  && Enabled(p, MoveAssign(from, into)) && (from == into <==> this == other)
                  && p.leases[into] == old(Holding()) && p.leases[from] == old(other.Holding()) ::
                var q := Step(p, MoveAssign(from, into));
                q.leases[into] == Holding() && q.leases[from] == other.Holding()
      ensures forall p, from, into |
                  && old(home != null && home.Shows(p)) && Enabled(p, MoveAssign(from, into))
                  && (from == into <==> this == other) && p.leases[into] == old(Holding()) ::
                old(home).Shows(Step(p, MoveAssign(from, into)))
    {
      if this != other {
        if conn.Some? {
          GiveBack();
        }
        conn := other.conn;
        home := other.home;
        other.conn := None;
      }
    }

    method Destroy()
      requires Valid()
      modifies this, if home != null then {home} else {}
      ensures Valid() && conn == None
      ensures old(home) != null ==>
                old(home).available == old(home.available) + (if old(conn).Some? then [old(conn).value] else [])
      ensures forall p, id |
                  && old(home != null && home.Shows(p)) && Enabled(p, Event.Destroy(id))
                  && p.leases[id] == old(Holding()) ::
                old(home).Shows(Step(p, Event.Destroy(id)))
    {
      if conn.Some? {
        GiveBack();
        conn := None;
      }
    }
  }
}
