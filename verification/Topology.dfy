/** Forward and reverse adjacency lists, the dirty set and Kahn's sort (src/topology.rs). */
module Topologies {
  import opened Nodes

  type Adjacency = map<NodeId, seq<NodeId>>

  function Listed(m: Adjacency, id: NodeId): seq<NodeId> {
    if id in m then m[id] else []
  }

  /** The value of a topology: node to its dependencies, node to its dependents. */
  datatype Edges = Edges(deps: Adjacency, dependents: Adjacency) {
    function Deps(n: NodeId): seq<NodeId> { Listed(deps, n) }

    function Dependents(n: NodeId): seq<NodeId> { Listed(dependents, n) }

    /** A change of `m` will be propagated to `n`. */
    predicate Linked(m: NodeId, n: NodeId) { n in Dependents(m) }

    /** Every reverse edge is justified by a dependency and has exactly its multiplicity.
        A dependency may have lost its reverse edge altogether: that happens when the node
        depended on is removed. */
    ghost predicate Coherent() {
      forall m, n :: Linked(m, n) ==>
        m in Deps(n) && multiset(Dependents(m))[n] == multiset(Deps(n))[m]
    }
  }

  // ----- specification of the two updates -----

  /** What the list `before` becomes once `id` is pushed for each occurrence of `x` in `ds`. */
  function Pushed(before: seq<NodeId>, id: NodeId, ds: seq<NodeId>, x: NodeId): seq<NodeId> {
    if ds == [] then before else
    var r := Pushed(before, id, ds[..|ds| - 1], x);
    if ds[|ds| - 1] == x then r + [id] else r
  }

  lemma {:induction false} PushedCounts(before: seq<NodeId>, id: NodeId, ds: seq<NodeId>, x: NodeId)
    ensures multiset(Pushed(before, id, ds, x)) == multiset(before)[id := multiset(before)[id] + multiset(ds)[x]]
  {
    if ds != [] {
      PushedCounts(before, id, ds[..|ds| - 1], x);
      assert ds == ds[..|ds| - 1] + [ds[|ds| - 1]];
    }
  }

  lemma {:induction false} PushedNone(before: seq<NodeId>, id: NodeId, ds: seq<NodeId>, x: NodeId)
    requires x !in ds
    ensures Pushed(before, id, ds, x) == before
  {
    if ds != [] {
      assert ds[|ds| - 1] in ds;
      PushedNone(before, id, ds[..|ds| - 1], x);
    }
  }

  /** The list without the nodes in `gone`. */
  function Keep(s: seq<NodeId>, gone: set<NodeId>): (r: seq<NodeId>)
    ensures forall x :: x in r <==> x in s && x !in gone
    ensures (forall x :: x in gone ==> x !in s) ==> r == s
  {
    if s == [] then [] else
    assert s == s[..|s| - 1] + [s[|s| - 1]];
    var r' := Keep(s[..|s| - 1], gone);
    if s[|s| - 1] in gone then r' else r' + [s[|s| - 1]]
  }

  lemma {:induction false} KeepCounts(s: seq<NodeId>, gone: set<NodeId>, x: NodeId)
    ensures multiset(Keep(s, gone))[x] == if x in gone then 0 else multiset(s)[x]
  {
    if s != [] {
      KeepCounts(s[..|s| - 1], gone, x);
      assert s == s[..|s| - 1] + [s[|s| - 1]];
    }
  }

  lemma {:induction false} KeepTwice(s: seq<NodeId>, a: set<NodeId>, b: set<NodeId>)
    ensures Keep(Keep(s, a), b) == Keep(s, a + b)
  {
    if s != [] {
      var init, last := s[..|s| - 1], s[|s| - 1];
      KeepTwice(init, a, b);
      if last !in a {
        assert (Keep(init, a) + [last])[..|Keep(init, a)|] == Keep(init, a);
      }
    }
  }

  function Added(e: Edges, id: NodeId, ds: seq<NodeId>): Edges {
    Edges(e.deps[id := ds],
          map x | x in e.dependents.Keys + Elems(ds) + {id} ::
            Pushed(e.Dependents(x), id, ds, x))
  }

  function Removed(e: Edges, id: NodeId): Edges {
    Edges(e.deps - {id},
          map x | x in e.dependents.Keys - {id} ::
            if x in e.Deps(id) then Keep(e.dependents[x], {id}) else e.dependents[x])
  }

  lemma AddedEdge(e: Edges, id: NodeId, ds: seq<NodeId>, m: NodeId, n: NodeId)
    ensures multiset(Added(e, id, ds).Dependents(m))[n] ==
            multiset(e.Dependents(m))[n] + if n == id then multiset(ds)[m] else 0
    ensures Added(e, id, ds).Linked(m, n) <==> e.Linked(m, n) || (n == id && m in ds)
  {
    var a := Added(e, id, ds);
    PushedCounts(e.Dependents(m), id, ds, m);
    assert m in multiset(ds) <==> m in ds;
    assert n in multiset(e.Dependents(m)) <==> n in e.Dependents(m);
    assert n in multiset(a.Dependents(m)) <==> n in a.Dependents(m);
  }

  /** Adding a node that is not yet in the topology links it to each of its dependencies with
      full multiplicity, touches no other edge, and keeps the topology coherent. */
  lemma AddedEdges(e: Edges, id: NodeId, ds: seq<NodeId>)
    requires e.Coherent() && id !in e.deps
    ensures forall n :: Added(e, id, ds).Deps(n) == if n == id then ds else e.Deps(n)
    ensures forall m, n :: Added(e, id, ds).Linked(m, n) <==> e.Linked(m, n) || (n == id && m in ds)
    ensures Added(e, id, ds).Coherent()
  {
    var a := Added(e, id, ds);
    forall m, n
      ensures a.Linked(m, n) <==> e.Linked(m, n) || (n == id && m in ds)
      ensures a.Linked(m, n) ==>
                m in a.Deps(n) && multiset(a.Dependents(m))[n] == multiset(a.Deps(n))[m]
    {
      AddedEdge(e, id, ds, m, n);
      assert !e.Linked(m, id);
      assert n in multiset(e.Dependents(m)) <==> e.Linked(m, n);
    }
  }

  lemma RemovedEdge(e: Edges, id: NodeId, m: NodeId, n: NodeId)
    requires e.Coherent()
    ensures multiset(Removed(e, id).Dependents(m))[n] ==
            if m == id || n == id then 0 else multiset(e.Dependents(m))[n]
    ensures Removed(e, id).Linked(m, n) <==> m != id && n != id && e.Linked(m, n)
  {
    var r := Removed(e, id);
    KeepCounts(e.Dependents(m), {id}, n);
    assert n in multiset(r.Dependents(m)) <==> n in r.Dependents(m);
    assert n in multiset(e.Dependents(m)) <==> n in e.Dependents(m);
    assert e.Linked(m, id) ==> m in e.Deps(id);
  }

  /** Removing a node from a coherent topology erases every edge into and out of it, touches
      no other edge, and keeps the topology coherent. */
  lemma RemovedEdges(e: Edges, id: NodeId)
    requires e.Coherent()
    ensures forall n :: Removed(e, id).Deps(n) == if n == id then [] else e.Deps(n)
    ensures forall m, n :: Removed(e, id).Linked(m, n) <==> m != id && n != id && e.Linked(m, n)
    ensures Removed(e, id).Coherent()
  {
    var r := Removed(e, id);
    forall m, n
      ensures r.Linked(m, n) <==> m != id && n != id && e.Linked(m, n)
      ensures r.Linked(m, n) ==>
                m in r.Deps(n) && multiset(r.Dependents(m))[n] == multiset(r.Deps(n))[m]
    {
      RemovedEdge(e, id, m, n);
    }
  }

  function KeptIn(m: Adjacency, gone: set<NodeId>): Adjacency {
    map x | x in m.Keys - gone :: Keep(m[x], gone)
  }

  /** Removing several nodes at once. */
  function RemovedAll(e: Edges, gone: set<NodeId>): Edges {
    Edges(e.deps - gone, KeptIn(e.dependents, gone))
  }

  lemma RemovedIsRemovedAll(e: Edges, id: NodeId)
    requires e.Coherent()
    ensures Removed(e, id) == RemovedAll(e, {id})
  {
    var a, b := Removed(e, id), RemovedAll(e, {id});
    forall x | x in a.dependents ensures a.dependents[x] == b.dependents[x] {
      assert id in e.dependents[x] ==> e.Linked(x, id);
    }
    assert a.dependents == b.dependents;
  }

  lemma KeptTwice(m: Adjacency, first: set<NodeId>, second: set<NodeId>)
    ensures KeptIn(KeptIn(m, first), second) == KeptIn(m, first + second)
  {
    var a, b := KeptIn(KeptIn(m, first), second), KeptIn(m, first + second);
    assert a.Keys == m.Keys - first - second == m.Keys - (first + second) == b.Keys;
    forall x | x in a ensures a[x] == b[x] {
      KeepTwice(m[x], first, second);
    }
  }

  lemma RemovedAllTwice(e: Edges, first: set<NodeId>, second: set<NodeId>)
    ensures RemovedAll(RemovedAll(e, first), second) == RemovedAll(e, first + second)
  {
    KeptTwice(e.dependents, first, second);
    assert e.deps - first - second == e.deps - (first + second);
  }

  lemma RemovedNone(e: Edges)
    ensures RemovedAll(e, {}) == e
  {
    assert RemovedAll(e, {}).deps == e.deps;
    assert RemovedAll(e, {}).dependents == e.dependents;
  }

  // ----- the dirty set -----

  /** `p` follows reverse edges from a node of `from` to `n`, taking at least one. */
  ghost predicate DownPath(e: Edges, from: set<NodeId>, n: NodeId, p: seq<NodeId>) {
    && |p| >= 2 && p[0] in from && p[|p| - 1] == n
    && forall i, j :: 0 <= i && i + 1 == j < |p| ==> e.Linked(p[i], p[j])
  }

  ghost predicate Downstream(e: Edges, from: set<NodeId>, n: NodeId) {
    exists p :: DownPath(e, from, n, p)
  }

  lemma DownstreamStep(e: Edges, from: set<NodeId>, m: NodeId, n: NodeId)
    requires m in from || Downstream(e, from, m)
    requires e.Linked(m, n)
    ensures Downstream(e, from, n)
  {
    if m in from {
      assert DownPath(e, from, n, [m, n]);
    } else {
      var p :| DownPath(e, from, m, p);
      assert DownPath(e, from, n, p + [n]);
    }
  }

  lemma {:induction false} DownPathStays(e: Edges, from: set<NodeId>, n: NodeId, p: seq<NodeId>,
                                         closed: set<NodeId>)
    requires DownPath(e, from, n, p)
    requires forall m, k :: (m in from || m in closed) && e.Linked(m, k) ==> k in closed
    ensures n in closed
  {
    var q := p[..|p| - 1];
    if |q| == 1 {
      assert e.Linked(p[0], p[1]);
    } else {
      assert DownPath(e, from, q[|q| - 1], q);
      DownPathStays(e, from, q[|q| - 1], q, closed);
      assert e.Linked(p[|p| - 2], p[|p| - 1]);
    }
  }

  /** The dirty set is the least set closed under dependents that contains the dependents of
      the updated nodes. */
  lemma DownstreamLeast(e: Edges, from: set<NodeId>, n: NodeId, closed: set<NodeId>)
    requires Downstream(e, from, n)
    requires forall m, k :: (m in from || m in closed) && e.Linked(m, k) ==> k in closed
    ensures n in closed
  {
    var p :| DownPath(e, from, n, p);
    DownPathStays(e, from, n, p, closed);
  }

  /** All names that occur in some list of dependents. */
  ghost function Names(m: Adjacency): (names: set<NodeId>)
    ensures forall k, x :: k in m && x in m[k] ==> x in names
  {
    set k, x | k in m && x in m[k] :: x
  }

  // ----- Kahn's sort -----

  /** How many of the listed nodes lie in `s`, counting repeats. */
  function CountIn(ds: seq<NodeId>, s: set<NodeId>): nat {
    if ds == [] then 0 else CountIn(ds[..|ds| - 1], s) + if ds[|ds| - 1] in s then 1 else 0
  }

  lemma {:induction false} CountZero(ds: seq<NodeId>, s: set<NodeId>)
    ensures CountIn(ds, s) == 0 <==> forall d :: d in ds ==> d !in s
  {
    if ds != [] {
      CountZero(ds[..|ds| - 1], s);
      assert ds == ds[..|ds| - 1] + [ds[|ds| - 1]];
    }
  }

  lemma {:induction false} CountRemove(ds: seq<NodeId>, s: set<NodeId>, m: NodeId)
    requires m in s
    ensures CountIn(ds, s) == CountIn(ds, s - {m}) + multiset(ds)[m]
  {
    if ds != [] {
      CountRemove(ds[..|ds| - 1], s, m);
      assert ds == ds[..|ds| - 1] + [ds[|ds| - 1]];
    }
  }

  /** The dirty nodes whose completion `n` has not been told about, once `ran` have run. */
  ghost function Unresolved(e: Edges, dirty: set<NodeId>, ran: set<NodeId>, n: NodeId): set<NodeId> {
    set m | m in dirty && !(m in ran && e.Linked(m, n))
  }

  ghost function Pending(e: Edges, dirty: set<NodeId>, ran: set<NodeId>, n: NodeId): nat {
    CountIn(e.Deps(n), Unresolved(e, dirty, ran, n))
  }

  /** Running one more node lowers each count by exactly the number of its reverse edges, so
      no decrement in that round can meet a zero. */
  lemma PendingStep(e: Edges, dirty: set<NodeId>, ran: set<NodeId>, m: NodeId, n: NodeId)
    requires e.Coherent() && m in dirty && m !in ran
    ensures Pending(e, dirty, ran, n) ==
            Pending(e, dirty, ran + {m}, n) + multiset(e.Dependents(m))[n]
  {
    var before, after := Unresolved(e, dirty, ran, n), Unresolved(e, dirty, ran + {m}, n);
    if e.Linked(m, n) {
      assert after == before - {m};
      CountRemove(e.Deps(n), before, m);
    } else {
      assert after == before;
      assert n !in multiset(e.Dependents(m));
    }
  }

  /** Every dirty dependency of `n` is in `done` and reported to `n`. */
  ghost predicate Settled(e: Edges, dirty: set<NodeId>, done: seq<NodeId>, n: NodeId) {
    forall d :: d in e.Deps(n) && d in dirty ==> d in done && e.Linked(d, n)
  }

  lemma PendingZero(e: Edges, dirty: set<NodeId>, done: seq<NodeId>, n: NodeId)
    ensures Pending(e, dirty, Elems(done), n) == 0 <==> Settled(e, dirty, done, n)
  {
    CountZero(e.Deps(n), Unresolved(e, dirty, Elems(done), n));
  }

  /** A run order: dirty nodes without repetition, each after all its dirty dependencies. */
  ghost predicate RunOrder(e: Edges, dirty: set<NodeId>, order: seq<NodeId>) {
    order == [] ||
    var before, n := order[..|order| - 1], order[|order| - 1];
    RunOrder(e, dirty, before) && n in dirty && n !in before && Settled(e, dirty, before, n)
  }

  lemma RunOrderExtends(e: Edges, dirty: set<NodeId>, order: seq<NodeId>, n: NodeId)
    requires RunOrder(e, dirty, order) && Settled(e, dirty, order, n) && n in dirty && n !in order
    ensures RunOrder(e, dirty, order + [n])
  {
    assert (order + [n])[..|order|] == order;
  }

  lemma {:induction false} RunOrderPrefix(e: Edges, dirty: set<NodeId>, order: seq<NodeId>, i: nat)
    requires RunOrder(e, dirty, order) && i <= |order|
    ensures RunOrder(e, dirty, order[..i])
    ensures i < |order| ==> Settled(e, dirty, order[..i], order[i]) && order[i] in dirty && order[i] !in order[..i]
  {
    if i < |order| - 1 {
      RunOrderPrefix(e, dirty, order[..|order| - 1], i);
      assert order[..|order| - 1][..i] == order[..i];
    } else if i == |order| {
      assert order[..i] == order;
    }
  }

  lemma RunOrderElems(e: Edges, dirty: set<NodeId>, order: seq<NodeId>)
    requires RunOrder(e, dirty, order)
    ensures NoDup(order) && Elems(order) <= dirty
  {
    forall i, j | 0 <= i < j < |order| ensures order[i] != order[j] {
      RunOrderPrefix(e, dirty, order, j);
      assert order[i] in order[..j];
    }
    forall n | n in order ensures n in dirty {
      var i :| 0 <= i < |order| && order[i] == n;
      RunOrderPrefix(e, dirty, order, i);
    }
  }

  /** A run order that leaves out only nodes which wait for something that never comes. */
  ghost predicate KahnOrder(e: Edges, dirty: set<NodeId>, order: seq<NodeId>) {
    && RunOrder(e, dirty, order)
    && forall n {:trigger Settled(e, dirty, order, n)} ::
         n in dirty && Settled(e, dirty, order, n) ==> n in order
  }

  /** Whatever order the hash maps are iterated in, the same nodes are sorted. */
  lemma {:induction false} KahnSameNodes(e: Edges, dirty: set<NodeId>, o1: seq<NodeId>, o2: seq<NodeId>)
    requires RunOrder(e, dirty, o1) && KahnOrder(e, dirty, o2)
    ensures forall n :: n in o1 ==> n in o2
  {
    if o1 != [] {
      var last := |o1| - 1;
      KahnSameNodes(e, dirty, o1[..last], o2);
      assert Settled(e, dirty, o2, o1[last]);
      assert o1 == o1[..last] + [o1[last]];
    }
  }

  /** `p` climbs from dependency to dependent inside `within`. */
  ghost predicate Chain(deps: Adjacency, within: set<NodeId>, p: seq<NodeId>) {
    && |p| >= 1
    && (forall i :: 0 <= i < |p| ==> p[i] in within)
    && (forall i, j :: 0 <= i && i + 1 == j < |p| ==> p[i] in Listed(deps, p[j]))
  }

  ghost predicate Cyclic(deps: Adjacency, within: set<NodeId>) {
    exists p :: Chain(deps, within, p) && |p| >= 2 && p[0] == p[|p| - 1]
  }

  ghost predicate HasDepIn(deps: Adjacency, s: set<NodeId>, n: NodeId) {
    exists d :: d in Listed(deps, n) && d in s
  }

  ghost predicate Stuck(deps: Adjacency, s: set<NodeId>) {
    s != {} && forall n {:trigger HasDepIn(deps, s, n)} :: n in s ==> HasDepIn(deps, s, n)
  }

  /** In a set where every node has a dependency inside the set one can climb down forever. */
  lemma {:induction false} LongChain(deps: Adjacency, s: set<NodeId>, k: nat) returns (p: seq<NodeId>)
    requires k >= 1 && Stuck(deps, s)
    ensures |p| == k && Chain(deps, s, p)
    decreases k
  {
    if k == 1 {
      var n :| n in s;
      p := [n];
    } else {
      var q := LongChain(deps, s, k - 1);
      assert HasDepIn(deps, s, q[0]);
      var d :| d in Listed(deps, q[0]) && d in s;
      p := [d] + q;
    }
  }

  lemma {:induction false} Pigeonhole(p: seq<NodeId>, s: set<NodeId>) returns (i: nat, j: nat)
    requires |p| > |s| && forall k :: 0 <= k < |p| ==> p[k] in s
    ensures i < j < |p| && p[i] == p[j]
    decreases |p|
  {
    var last := |p| - 1;
    if k :| 0 <= k < last && p[k] == p[last] {
      i, j := k, last;
    } else {
      assert |s - {p[last]}| == |s| - 1;
      i, j := Pigeonhole(p[..last], s - {p[last]});
    }
  }

  lemma StuckIsCyclic(deps: Adjacency, within: set<NodeId>, s: set<NodeId>)
    requires Stuck(deps, s) && s <= within
    ensures Cyclic(deps, within)
  {
    var p := LongChain(deps, s, |s| + 1);
    var i, j := Pigeonhole(p, s);
    var c := p[i..j + 1];
    forall k, l | 0 <= k && k + 1 == l < |c| ensures c[k] in Listed(deps, c[l]) {
      assert c[k] == p[i + k] && c[l] == p[i + l];
    }
    assert Chain(deps, within, c);
    assert c[0] == c[|c| - 1];
  }

  /** Along a chain of sorted nodes positions strictly increase. */
  lemma {:induction false} ChainClimbs(e: Edges, dirty: set<NodeId>, order: seq<NodeId>, p: seq<NodeId>)
    requires RunOrder(e, dirty, order) && Elems(order) == dirty
    requires Chain(e.deps, dirty, p) && |p| >= 2
    ensures exists i, j :: 0 <= i < j < |order| && order[i] == p[0] && order[j] == p[|p| - 1]
  {
    var q := p[..|p| - 1];
    var n := p[|p| - 1];
    var j :| 0 <= j < |order| && order[j] == n;
    assert p[|p| - 2] in e.Deps(n);
    RunOrderPrefix(e, dirty, order, j);
    var m :| 0 <= m < j && order[m] == p[|p| - 2];
    if |q| >= 2 {
      ChainClimbs(e, dirty, order, q);
      var a, b :| 0 <= a < b < |order| && order[a] == q[0] && order[b] == q[|q| - 1];
      RunOrderElems(e, dirty, order);
      assert b == m;
      assert order[a] == p[0] && a < j;
    }
  }

  /** Every dependency between two nodes of the set still has its reverse edge. */
  ghost predicate AllLinked(e: Edges, within: set<NodeId>) {
    forall n, d :: n in within && d in within && d in e.Deps(n) ==> e.Linked(d, n)
  }

  lemma CoveringOrderIsSound(e: Edges, dirty: set<NodeId>, order: seq<NodeId>)
    requires RunOrder(e, dirty, order) && Elems(order) == dirty
    ensures !Cyclic(e.deps, dirty) && AllLinked(e, dirty)
  {
    if Cyclic(e.deps, dirty) {
      var p :| Chain(e.deps, dirty, p) && |p| >= 2 && p[0] == p[|p| - 1];
      ChainClimbs(e, dirty, order, p);
      RunOrderElems(e, dirty, order);
      assert false;
    }
    forall n, d | n in dirty && d in dirty && d in e.Deps(n) ensures e.Linked(d, n) {
      var j :| 0 <= j < |order| && order[j] == n;
      RunOrderPrefix(e, dirty, order, j);
    }
  }

  lemma UnsortedWaits(e: Edges, dirty: set<NodeId>, order: seq<NodeId>, n: NodeId)
    requires KahnOrder(e, dirty, order) && AllLinked(e, dirty) && n in dirty && n !in order
    ensures HasDepIn(e.deps, dirty - Elems(order), n)
  {
    assert !Settled(e, dirty, order, n);
    var d :| d in e.Deps(n) && d in dirty && !(d in order && e.Linked(d, n));
    assert d in Listed(e.deps, n) && d in dirty - Elems(order);
  }

  lemma UnsortedIsStuck(e: Edges, dirty: set<NodeId>, order: seq<NodeId>)
    requires KahnOrder(e, dirty, order) && AllLinked(e, dirty) && Elems(order) != dirty
    ensures Cyclic(e.deps, dirty)
  {
    var stuck := dirty - Elems(order);
    RunOrderElems(e, dirty, order);
    assert !(dirty <= Elems(order) && Elems(order) <= dirty);
    var left :| left in dirty && left !in Elems(order);
    assert left in stuck;
    forall n | n in stuck ensures HasDepIn(e.deps, stuck, n) {
      UnsortedWaits(e, dirty, order, n);
    }
    StuckIsCyclic(e.deps, dirty, stuck);
  }

  /** The sort covers the whole dirty set exactly when every dependency inside it still has
      its reverse edge and these dependencies form no cycle. */
  lemma KahnCovers(e: Edges, dirty: set<NodeId>, order: seq<NodeId>)
    requires KahnOrder(e, dirty, order)
    ensures Elems(order) == dirty <==> !Cyclic(e.deps, dirty) && AllLinked(e, dirty)
  {
    if Elems(order) == dirty {
      CoveringOrderIsSound(e, dirty, order);
    } else if AllLinked(e, dirty) {
      UnsortedIsStuck(e, dirty, order);
    }
  }

  /** The nodes whose count has reached zero are those already sorted and those queued, and
      no node is both or queued twice. */
  ghost predicate Frontier(ran: set<NodeId>, queue: seq<NodeId>, inDegree: map<NodeId, nat>) {
    && NoDup(queue)
    && (forall n :: n in queue ==> n !in ran)
    && (forall n :: n in ran || n in queue <==> n in inDegree && inDegree[n] == 0)
  }

  lemma FrontierPop(ran: set<NodeId>, queue: seq<NodeId>, inDegree: map<NodeId, nat>)
    requires Frontier(ran, queue, inDegree) && queue != []
    ensures Frontier(ran + {queue[0]}, queue[1..], inDegree)
  {
    assert queue == [queue[0]] + queue[1..];
  }

  /** Each count is the number of dirty dependencies the node still waits for. */
  ghost predicate Counts(e: Edges, dirty: set<NodeId>, ran: set<NodeId>, inDegree: map<NodeId, nat>) {
    inDegree.Keys == dirty &&
    forall n {:trigger inDegree[n]} :: n in inDegree ==> inDegree[n] == Pending(e, dirty, ran, n)
  }

  /** What holds between two rounds of the sort. */
  ghost predicate Sorting(e: Edges, dirty: set<NodeId>, sorted: seq<NodeId>, queue: seq<NodeId>,
                          inDegree: map<NodeId, nat>) {
    && RunOrder(e, dirty, sorted) && Counts(e, dirty, Elems(sorted), inDegree)
    && Frontier(Elems(sorted), queue, inDegree)
  }

  /** `after` is `before` once the dependents of `node` have been told that it is done. */
  ghost predicate Decremented(e: Edges, node: NodeId, before: map<NodeId, nat>, after: map<NodeId, nat>) {
    && after.Keys == before.Keys
    && forall n :: n in before ==> before[n] == after[n] + multiset(e.Dependents(node))[n]
  }

  /** Taking the first queued node extends the run order, and its dependents can be told. */
  lemma RoundStarts(e: Edges, dirty: set<NodeId>, sorted: seq<NodeId>, queue: seq<NodeId>,
                    inDegree: map<NodeId, nat>)
    requires e.Coherent() && Sorting(e, dirty, sorted, queue, inDegree) && queue != []
    ensures queue[0] in dirty && queue[0] !in sorted
    ensures RunOrder(e, dirty, sorted + [queue[0]])
    ensures Frontier(Elems(sorted + [queue[0]]), queue[1..], inDegree)
    ensures forall n :: n in inDegree ==> multiset(e.Dependents(queue[0]))[n] <= inDegree[n]
  {
    var node, ran := queue[0], Elems(sorted);
    FrontierPop(ran, queue, inDegree);
    assert node in queue;
    PendingZero(e, dirty, sorted, node);
    RunOrderExtends(e, dirty, sorted, node);
    assert Elems(sorted + [node]) == ran + {node};
    forall n | n in inDegree ensures multiset(e.Dependents(node))[n] <= inDegree[n] {
      PendingStep(e, dirty, ran, node, n);
    }
  }

  lemma RoundEnds(e: Edges, dirty: set<NodeId>, sorted: seq<NodeId>, node: NodeId,
                  before: map<NodeId, nat>, after: map<NodeId, nat>)
    requires e.Coherent() && node in dirty && node !in sorted
    requires Counts(e, dirty, Elems(sorted), before) && Decremented(e, node, before, after)
    ensures Counts(e, dirty, Elems(sorted + [node]), after)
    ensures dirty - Elems(sorted + [node]) < dirty - Elems(sorted)
  {
    assert Elems(sorted + [node]) == Elems(sorted) + {node};
    forall n | n in after ensures after[n] == Pending(e, dirty, Elems(sorted) + {node}, n) {
      PendingStep(e, dirty, Elems(sorted), node, n);
    }
    assert node in dirty - Elems(sorted);
  }

  /** The counts once every node in `told` has been told of. */
  ghost predicate CountedDown(before: map<NodeId, nat>, after: map<NodeId, nat>, told: seq<NodeId>) {
    after.Keys == before.Keys && forall n :: n in before ==> after[n] + multiset(told)[n] == before[n]
  }

  lemma PrefixCounts(ds: seq<NodeId>, k: nat)
    requires k < |ds|
    ensures ds[..k + 1] == ds[..k] + [ds[k]]
    ensures forall n :: multiset(ds[..k] + [ds[k]])[n] <= multiset(ds)[n]
  {
    assert ds == (ds[..k] + [ds[k]]) + ds[k + 1..];
  }

  lemma CountedDownOne(before: map<NodeId, nat>, after: map<NodeId, nat>, told: seq<NodeId>, d: NodeId)
    requires CountedDown(before, after, told)
    requires forall n :: n in before ==> multiset(told + [d])[n] <= before[n]
    ensures d in after ==> after[d] >= 1
    ensures CountedDown(before, if d in after && after[d] >= 1 then after[d := after[d] - 1] else after, told + [d])
  {
    assert multiset(told + [d])[d] == multiset(told)[d] + 1;
  }

  lemma FrontierGrows(ran: set<NodeId>, queue: seq<NodeId>, counts: map<NodeId, nat>, d: NodeId)
    requires Frontier(ran, queue, counts) && d in counts && counts[d] >= 1
    ensures Frontier(ran, if counts[d] == 1 then queue + [d] else queue, counts[d := counts[d] - 1])
  {
  }

  lemma FrontierStarts(dirty: set<NodeId>, queue: seq<NodeId>, inDegree: map<NodeId, nat>)
    requires inDegree.Keys == dirty && NoDup(queue)
    requires Elems(queue) == set n | n in dirty && inDegree[n] == 0
    ensures Frontier({}, queue, inDegree)
  {
    assert forall n :: n in queue <==> n in Elems(queue);
  }

  lemma SortEnds(e: Edges, dirty: set<NodeId>, sorted: seq<NodeId>, inDegree: map<NodeId, nat>)
    requires RunOrder(e, dirty, sorted) && Counts(e, dirty, Elems(sorted), inDegree)
    requires Frontier(Elems(sorted), [], inDegree)
    ensures KahnOrder(e, dirty, sorted)
  {
    forall n | n in dirty && Settled(e, dirty, sorted, n) ensures n in sorted {
      PendingZero(e, dirty, sorted, n);
      assert n in inDegree && inDegree[n] == 0;
    }
  }

  // ----- updating the lists of dependents, one element at a time -----

  /** `id` has been pushed for each occurrence in `ds`. */
  ghost predicate PushedSoFar(e: Edges, id: NodeId, ds: seq<NodeId>, m: Adjacency) {
    m.Keys == e.dependents.Keys + Elems(ds) && forall x :: x in m ==> m[x] == Pushed(e.Dependents(x), id, ds, x)
  }

  lemma PushOne(e: Edges, id: NodeId, ds: seq<NodeId>, d: NodeId, m: Adjacency)
    requires PushedSoFar(e, id, ds, m)
    ensures PushedSoFar(e, id, ds + [d], m[d := Listed(m, d) + [id]])
  {
    assert (ds + [d])[..|ds|] == ds;
    if d !in m {
      PushedNone(e.Dependents(d), id, ds, d);
    }
  }

  lemma AllPushed(e: Edges, id: NodeId, ds: seq<NodeId>, m: Adjacency)
    requires PushedSoFar(e, id, ds, m)
    ensures Edges(e.deps[id := ds], m[id := Listed(m, id)]) == Added(e, id, ds)
  {
    if id !in ds {
      PushedNone(e.Dependents(id), id, ds, id);
    }
    var a, b := m[id := Listed(m, id)], Added(e, id, ds).dependents;
    assert a.Keys == b.Keys;
    forall x | x in a ensures a[x] == b[x] { }
  }

  /** `id` has been taken out of the lists of the nodes in `ds`. */
  ghost predicate StrippedSoFar(e: Edges, id: NodeId, ds: seq<NodeId>, m: Adjacency) {
    m.Keys == e.dependents.Keys &&
    forall x :: x in m ==> m[x] == if x in ds then Keep(e.dependents[x], {id}) else e.dependents[x]
  }

  lemma StripOne(e: Edges, id: NodeId, ds: seq<NodeId>, d: NodeId, m: Adjacency)
    requires StrippedSoFar(e, id, ds, m)
    ensures StrippedSoFar(e, id, ds + [d], if d in m then m[d := Keep(m[d], {id})] else m)
  {
  }

  lemma AllStripped(e: Edges, id: NodeId, m: Adjacency)
    requires StrippedSoFar(e, id, e.Deps(id), m)
    ensures Edges(e.deps - {id}, m - {id}) == Removed(e, id)
  {
    assert m - {id} == Removed(e, id).dependents;
  }

  // ----- the mutable topology -----

  class Topology {
    var deps: Adjacency
    var dependents: Adjacency

    ghost function View(): Edges
      reads this
    {
      Edges(deps, dependents)
    }

    constructor ()
      ensures View() == Edges(map[], map[])
    {
      deps, dependents := map[], map[];
    }

    method AddNode(id: NodeId, ds: seq<NodeId>)
      modifies this
      ensures View() == Added(old(View()), id, ds)
    {
      ghost var e, done := View(), [];
      var k := 0;
      while k < |ds|
        invariant 0 <= k <= |ds| && done == ds[..k] && deps == e.deps
        invariant PushedSoFar(e, id, done, dependents)
      {
        PushOne(e, id, done, ds[k], dependents);
        dependents := dependents[ds[k] := Listed(dependents, ds[k]) + [id]];
        done := done + [ds[k]];
        k := k + 1;
      }
      assert done == ds;
      AllPushed(e, id, ds, dependents);
      deps := deps[id := ds];
      dependents := dependents[id := Listed(dependents, id)];
    }

    method RemoveNode(id: NodeId)
      modifies this
      ensures View() == Removed(old(View()), id)
    {
      ghost var e := View();
      if id in deps {
        var ds := deps[id];
        deps := deps - {id};
        ghost var done := [];
        var k := 0;
        while k < |ds|
          invariant 0 <= k <= |ds| && done == ds[..k] && deps == e.deps - {id}
          invariant StrippedSoFar(e, id, done, dependents)
        {
          StripOne(e, id, done, ds[k], dependents);
          if ds[k] in dependents {
            dependents := dependents[ds[k] := Keep(dependents[ds[k]], {id})];
          }
          done := done + [ds[k]];
          k := k + 1;
        }
        assert done == ds;
      }
      AllStripped(e, id, dependents);
      assert deps == e.deps - {id};
      dependents := dependents - {id};
    }

    /** The dirty set is exactly the set of nodes reachable from the updated ones by one or
        more reverse edges, whether or not the graph has cycles. */
    method DirtySet(sources: set<NodeId>) returns (dirty: set<NodeId>)
      ensures forall n :: n in dirty <==> Downstream(View(), sources, n)
    {
      ghost var e := View();
      ghost var universe := Names(dependents);
      ghost var expanded: set<NodeId> := {};
      dirty := {};
      var queue := InAnyOrder(sources);
      while queue != []
        invariant View() == e
        invariant dirty <= universe
        invariant forall n :: n in dirty ==> Downstream(e, sources, n)
        invariant forall n :: n in queue ==> n in sources || n in dirty
        invariant forall n :: n in sources || n in dirty ==> n in queue || n in expanded
        invariant forall m, n :: m in expanded && e.Linked(m, n) ==> n in dirty
        decreases universe - dirty, |queue|
      {
        var node := queue[0];
        queue := queue[1..];
        ghost var dirty0, queue0 := dirty, queue;
        if node in dependents {
          var ds := dependents[node];
          var k := 0;
          while k < |ds|
            invariant 0 <= k <= |ds|
            invariant dirty0 <= dirty <= universe
            invariant dirty == dirty0 ==> queue == queue0
            invariant forall n :: n in dirty ==> Downstream(e, sources, n)
            invariant forall n :: n in queue ==> n in sources || n in dirty
            invariant forall n :: n in queue0 ==> n in queue
            invariant forall n :: n in dirty ==> n in dirty0 || n in queue
            invariant forall n :: n in ds[..k] ==> n in dirty
          {
            assert ds[..k + 1] == ds[..k] + [ds[k]];
            assert ds[k] in universe;
            DownstreamStep(e, sources, node, ds[k]);
            if ds[k] !in dirty {
              dirty := dirty + {ds[k]};
              queue := queue + [ds[k]];
            }
            k := k + 1;
          }
        }
        expanded := expanded + {node};
      }
      forall n | Downstream(e, sources, n) ensures n in dirty {
        DownstreamLeast(e, sources, n, dirty);
      }
    }

    /** Kahn's algorithm restricted to the dirty set. Repeated dependencies and lost reverse
        edges are allowed; the subtraction never saturates because a coherent topology
        decrements a count at most as often as it was counted. */
    method TopoSort(dirty: set<NodeId>) returns (sorted: seq<NodeId>)
      requires View().Coherent()
      ensures KahnOrder(View(), dirty, sorted)
    {
      ghost var e := View();
      if dirty == {} {
        return [];
      }
      var inDegree := InDegrees(dirty);
      var queue := InAnyOrder(set n | n in dirty && inDegree[n] == 0);
      FrontierStarts(dirty, queue, inDegree);
      sorted := [];
      assert Elems(sorted) == {};
      while queue != []
        invariant Sorting(e, dirty, sorted, queue, inDegree)
        decreases dirty - Elems(sorted)
      {
        var node := queue[0];
        RoundStarts(e, dirty, sorted, queue, inDegree);
        ghost var sorted0, inDegree0 := sorted, inDegree;
        queue := queue[1..];
        sorted := sorted + [node];
        inDegree, queue := Release(Elems(sorted), node, inDegree, queue);
        RoundEnds(e, dirty, sorted0, node, inDegree0, inDegree);
      }
      SortEnds(e, dirty, sorted, inDegree);
    }

    /** The number of dirty dependencies of each dirty node, counting repeats. */
    method InDegrees(dirty: set<NodeId>) returns (inDegree: map<NodeId, nat>)
      ensures Counts(View(), dirty, {}, inDegree)
    {
      inDegree := map[];
      var rest := dirty;
      while rest != {}
        invariant rest <= dirty && inDegree.Keys == dirty - rest
        invariant forall n {:trigger inDegree[n]} ::
                    n in inDegree ==> inDegree[n] == Pending(View(), dirty, {}, n)
      {
        var node :| node in rest;
        rest := rest - {node};
        inDegree := inDegree[node := 0];
        if node in deps {
          inDegree := inDegree[node := CountIn(deps[node], dirty)];
        }
        assert Unresolved(View(), dirty, {}, node) == dirty;
      }
    }

    /** One round of the sort: tell the dependents of `node` that it is done, queueing those
        that were waiting for nothing else. */
    method Release(ghost ran: set<NodeId>, node: NodeId, inDegree: map<NodeId, nat>, queue: seq<NodeId>)
      returns (inDegree': map<NodeId, nat>, queue': seq<NodeId>)
      requires Frontier(ran, queue, inDegree)
      requires forall n :: n in inDegree ==> multiset(Listed(dependents, node))[n] <= inDegree[n]
      ensures Decremented(View(), node, inDegree, inDegree')
      ensures Frontier(ran, queue', inDegree')
    {
      inDegree', queue' := inDegree, queue;
      if node in dependents {
        var ds := dependents[node];
        ghost var told := [];
        var k := 0;
        while k < |ds|
          invariant 0 <= k <= |ds| && told == ds[..k]
          invariant CountedDown(inDegree, inDegree', told) && Frontier(ran, queue', inDegree')
        {
          var d := ds[k];
          PrefixCounts(ds, k);
          CountedDownOne(inDegree, inDegree', told, d);
          if d in inDegree' {
            FrontierGrows(ran, queue', inDegree', d);
            inDegree' := inDegree'[d := if inDegree'[d] == 0 then 0 else inDegree'[d] - 1];
            if inDegree'[d] == 0 {
              queue' := queue' + [d];
            }
          }
          told := told + [d];
          k := k + 1;
        }
        assert told == ds;
      }
    }
  }

  /** Iterating a hash set: each element once, in an order the caller cannot predict. */
  method InAnyOrder(s: set<NodeId>) returns (order: seq<NodeId>)
    ensures NoDup(order) && Elems(order) == s
  {
    order := [];
    var rest := s;
    while rest != {}
      invariant NoDup(order) && rest <= s && Elems(order) == s - rest
    {
      var x :| x in rest;
      order := order + [x];
      rest := rest - {x};
    }
  }
}
