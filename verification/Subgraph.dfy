/** Subgraphs (src/subgraph.rs): building descriptors, merging them, and what dropping the
    handle undoes. */
module Subgraphs {
  import opened Nodes
  import opened Topologies
  import opened Propagation
  import opened CycleLaws
  import opened Lifecycle
  import opened Activation
  import opened Runs

  function DescribedIds(ds: seq<Descriptor>): (r: seq<NodeId>)
    ensures |r| == |ds| && forall i :: 0 <= i < |ds| ==> r[i] == ds[i].id
  {
    seq(|ds|, i requires 0 <= i < |ds| => ds[i].id)
  }

  /** What a builder guarantees: descriptors have distinct ids, and the registered ids are
      exactly the described ones. */
  ghost predicate WellBuilt(g: Subgraph) {
    NoDup(DescribedIds(g.descriptors)) && Elems(DescribedIds(g.descriptors)) == Elems(g.nodeIds)
  }

  class SubgraphBuilder {
    var descriptors: seq<Descriptor>
    var nodeIds: seq<NodeId>
    var registered: set<NodeId>

    ghost predicate Valid()
      reads this
    {
      WellBuilt(Subgraph(descriptors, nodeIds)) && registered == Elems(nodeIds)
    }

    constructor ()
      ensures Valid() && descriptors == [] && nodeIds == []
    {
      descriptors, nodeIds, registered := [], [], {};
    }

    /** Describes a node once; registering it again only counts the id again. */
    method RegisterNode(id: NodeId, kind: NodeKind, deps: seq<NodeId>, impl: NodeImpl) returns (isNew: bool)
      requires Valid()
      modifies this
      ensures Valid() && nodeIds == old(nodeIds) + [id]
      ensures isNew <==> id !in old(nodeIds)
      ensures descriptors == if isNew then old(descriptors) + [Descriptor(id, kind, deps, impl)] else old(descriptors)
    {
      ghost var ids := DescribedIds(descriptors);
      nodeIds := nodeIds + [id];
      assert Elems(nodeIds) == old(registered) + {id};
      if id in registered {
        return false;
      }
      registered := registered + {id};
      descriptors := descriptors + [Descriptor(id, kind, deps, impl)];
      assert DescribedIds(descriptors) == ids + [id];
      assert id !in Elems(ids);
      return true;
    }

    method Build() returns (g: Subgraph)
      requires Valid()
      ensures WellBuilt(g) && g == Subgraph(descriptors, nodeIds)
    {
      g := Subgraph(descriptors, nodeIds);
    }
  }

  // ----- merging -----

  function RegisteredAll(s: State, ds: seq<Descriptor>): State {
    if ds == [] then s else
    var d := ds[|ds| - 1];
    Registered(RegisteredAll(s, ds[..|ds| - 1]), d.id, d.kind, d.deps, d.impl)
  }

  /** `states` is what activating the sinks among `ids`, in order, goes through. */
  ghost predicate SinksActivated(ids: seq<NodeId>, states: seq<State>) {
    |states| == |ids| + 1 &&
    forall i {:trigger ids[i]} :: 0 <= i < |ids| ==>
      SinkActivated(states[i], states[i + 1], ids[i])
  }

  /** A listed sink is activated; any other listed node is left alone. */
  ghost predicate SinkActivated(s: State, t: State, id: NodeId) {
    if IsKind(s.entries, id, Sink) then Step(s, Activate(id), t) else t == s
  }

  /** Merging: all descriptors are registered, then the sinks are activated. */
  ghost predicate Merged(s: State, g: Subgraph, states: seq<State>, t: State) {
    SinksActivated(g.nodeIds, states) && states[0] == RegisteredAll(s, g.descriptors) && states[|g.nodeIds|] == t
  }

  lemma {:induction false} RegisteredAllKeepsInvariant(s: State, ds: seq<Descriptor>)
    requires Invariant(s)
    ensures Invariant(RegisteredAll(s, ds))
    ensures RegisteredAll(s, ds) == s.(entries := RegisteredAll(s, ds).entries)
  {
    if ds != [] {
      var d := ds[|ds| - 1];
      RegisteredAllKeepsInvariant(s, ds[..|ds| - 1]);
      RegisteredKeepsInvariant(RegisteredAll(s, ds[..|ds| - 1]), d.id, d.kind, d.deps, d.impl);
    }
  }

  // ----- what a merge registers and activates -----

  /** The descriptors of the listed ids have been registered: a new node is what its descriptor
      says, held once; a known node is held once more and otherwise left alone. */
  ghost predicate EntriesMerged(before: Entries, after: Entries, ds: seq<Descriptor>) {
    && (forall d :: d in ds ==> d.id in after)
    && (forall d :: d in ds && d.id in before ==>
          after[d.id] == before[d.id].(refCount := before[d.id].refCount + 1))
    && (forall d :: d in ds && d.id !in before ==> after[d.id] == Entry(d.kind, d.deps, 1, d.impl))
    && (forall n :: n in before && n !in DescribedIds(ds) ==> n in after && after[n] == before[n])
    && (forall n :: n in after ==> n in before || n in DescribedIds(ds))
  }

  lemma EntriesMergedOneMore(before: Entries, mid: Entries, ds: seq<Descriptor>, d: Descriptor)
    requires EntriesMerged(before, mid, ds) && d.id !in DescribedIds(ds)
    ensures EntriesMerged(before, WithNode(mid, d.id, d.kind, d.deps, d.impl), ds + [d])
  {
    assert DescribedIds(ds + [d]) == DescribedIds(ds) + [d.id];
    forall x | x in ds ensures x.id in DescribedIds(ds) {
      var i :| 0 <= i < |ds| && ds[i] == x;
      assert DescribedIds(ds)[i] == x.id;
    }
  }

  lemma {:induction false} RegisteredAllEntries(s: State, ds: seq<Descriptor>)
    requires NoDup(DescribedIds(ds))
    ensures EntriesMerged(s.entries, RegisteredAll(s, ds).entries, ds)
  {
    if ds != [] {
      var init, d := ds[..|ds| - 1], ds[|ds| - 1];
      DistinctInit(ds);
      RegisteredAllEntries(s, init);
      EntriesMergedOneMore(s.entries, RegisteredAll(s, init).entries, init, d);
    }
  }

  lemma DistinctInit(ds: seq<Descriptor>)
    requires ds != [] && NoDup(DescribedIds(ds))
    ensures
      var init, d := ds[..|ds| - 1], ds[|ds| - 1];
      ds == init + [d] && NoDup(DescribedIds(init)) && d.id !in DescribedIds(init)
  {
    assert DescribedIds(ds) == DescribedIds(ds[..|ds| - 1]) + [ds[|ds| - 1].id];
  }

  /** Some listed sink reaches the node through nodes that `r` has registered and not activated. */
  ghost predicate ReachedBySink(r: State, ids: seq<NodeId>, n: NodeId) {
    exists id :: id in ids && IsKind(r.entries, id, Sink) && Reaches(r, id, n)
  }

  /** Activating the sinks among `ids` has led from `r` to `t`. */
  ghost predicate SinksSpread(r: State, ids: seq<NodeId>, t: State) {
    && Invariant(t) && Grown(r, t) && ClosedUnderDeps(r, t.active - r.active, t.active)
    && (forall n :: n in t.active <==> n in r.active || ReachedBySink(r, ids, n))
  }

  lemma PathSeenBefore(r: State, u: State, id: NodeId, n: NodeId)
    requires u.entries == r.entries && r.active <= u.active && Reaches(u, id, n)
    ensures Reaches(r, id, n)
  {
    var p :| InactivePath(u, id, n, p);
    assert InactivePath(r, id, n, p);
  }

  lemma SinkSpreads(r: State, u: State, v: State, ids: seq<NodeId>, id: NodeId)
    requires SinksSpread(r, ids, u) && IsKind(u.entries, id, Sink) && ActivationEffect(u, v, id)
    ensures SinksSpread(r, ids + [id], v)
  {
    ActivationKeepsInvariant(u, v, id);
    GrownTwice(r, u, v);
    forall n | n in v.active && n !in r.active ensures ReachedBySink(r, ids + [id], n) {
      if n in u.active {
        assert ReachedBySink(r, ids, n);
      } else {
        PathSeenBefore(r, u, id, n);
      }
    }
    forall n | ReachedBySink(r, ids + [id], n) ensures n in v.active {
      var from :| from in ids + [id] && IsKind(r.entries, from, Sink) && Reaches(r, from, n);
      if from in ids {
        assert ReachedBySink(r, ids, n);
      } else {
        var p :| InactivePath(r, id, n, p);
        PathIsActivated(r, v.active, id, n, p);
      }
    }
  }

  lemma NothingSpreads(r: State, u: State, ids: seq<NodeId>, id: NodeId)
    requires SinksSpread(r, ids, u) && !IsKind(r.entries, id, Sink)
    ensures SinksSpread(r, ids + [id], u)
  {
    forall n ensures ReachedBySink(r, ids + [id], n) <==> ReachedBySink(r, ids, n) { }
  }

  lemma {:induction false} SinksSpreadAlong(r: State, ids: seq<NodeId>, states: seq<State>, i: nat)
    requires SinksActivated(ids, states) && states[0] == r && Invariant(r) && i <= |ids|
    ensures SinksSpread(r, ids[..i], states[i])
  {
    if i == 0 {
      GrownSelf(r);
    } else {
      SinksSpreadAlong(r, ids, states, i - 1);
      var u, v, id := states[i - 1], states[i], ids[i - 1];
      assert SinkActivated(u, v, id);
      assert ids[..i] == ids[..i - 1] + [id];
      if IsKind(u.entries, id, Sink) {
        SinkSpreads(r, u, v, ids[..i - 1], id);
      } else {
        NothingSpreads(r, u, ids[..i - 1], id);
      }
    }
  }

  /** A merge activates exactly what the listed sinks reach through inactive nodes of the merged
      registry: in particular every listed sink. */
  lemma MergeActivatesExactly(s: State, g: Subgraph, states: seq<State>, t: State)
    requires Invariant(s) && Merged(s, g, states, t)
    ensures forall n :: n in t.active <==> n in s.active || ReachedBySink(s.(entries := t.entries), g.nodeIds, n)
    ensures forall id :: id in g.nodeIds && IsKind(t.entries, id, Sink) ==> id in t.active
    ensures Grown(s.(entries := t.entries), t)
  {
    var r, ids := RegisteredAll(s, g.descriptors), g.nodeIds;
    RegisteredAllKeepsInvariant(s, g.descriptors);
    SinksSpreadAlong(r, ids, states, |ids|);
    assert ids[..|ids|] == ids;
    forall id | id in ids && IsKind(t.entries, id, Sink) ensures id in t.active {
      if id !in r.active {
        ReachesSelf(r, id);
        assert ReachedBySink(r, ids, id);
      }
    }
  }

  /** The registry after merging what a builder has built: its nodes in addition, as described,
      and one more reference to each node that was known. */
  lemma MergeRegistersExactly(s: State, g: Subgraph, states: seq<State>, t: State)
    requires Invariant(s) && Merged(s, g, states, t) && WellBuilt(g)
    ensures EntriesMerged(s.entries, t.entries, g.descriptors)
  {
    RegisteredAllEntries(s, g.descriptors);
    RegisteredAllKeepsInvariant(s, g.descriptors);
    SinksSpreadAlong(RegisteredAll(s, g.descriptors), g.nodeIds, states, |g.nodeIds|);
  }

  // ----- merges in runs -----

  /** Each descriptor names dependencies that are registered by then, and compute nodes are
      the built-in strict ones. */
  ghost predicate AllAllowed(s: State, ds: seq<Descriptor>) {
    ds == [] ||
    var d := ds[|ds| - 1];
    AllAllowed(s, ds[..|ds| - 1]) &&
    Allowed(RegisteredAll(s, ds[..|ds| - 1]), Register(d.id, d.kind, d.deps, d.impl))
  }

  lemma {:induction false} RegisteredAllIsReachable(s: State, ds: seq<Descriptor>)
    requires Reachable(s) && AllAllowed(s, ds)
    ensures Reachable(RegisteredAll(s, ds))
  {
    if ds != [] {
      var init, d := ds[..|ds| - 1], ds[|ds| - 1];
      RegisteredAllIsReachable(s, init);
      RegisteredIsReachable(RegisteredAll(s, init), d.id, d.kind, d.deps, d.impl);
    }
  }

  lemma {:induction false} SinksKeepReachable(ids: seq<NodeId>, states: seq<State>, i: nat)
    requires SinksActivated(ids, states) && i <= |ids| && Reachable(states[0])
    ensures Reachable(states[i])
  {
    if i > 0 {
      SinksKeepReachable(ids, states, i - 1);
      assert SinkActivated(states[i - 1], states[i], ids[i - 1]);
      if IsKind(states[i - 1].entries, ids[i - 1], Sink) {
        ActivatedIsReachable(states[i - 1], states[i], ids[i - 1]);
      }
    }
  }

  /** A merge keeps everything that runs keep: values stay current and the graph acyclic. */
  lemma MergedIsReachable(s: State, g: Subgraph, states: seq<State>, t: State)
    requires Reachable(s) && AllAllowed(s, g.descriptors) && Merged(s, g, states, t)
    ensures Reachable(t)
  {
    RegisteredAllIsReachable(s, g.descriptors);
    SinksKeepReachable(g.nodeIds, states, |g.nodeIds|);
  }

  // ----- fresh subgraphs -----

  /** The state does not know the nodes at all: not as nodes, dependencies, keys or values. */
  ghost predicate Unknown(s: State, nodes: set<NodeId>) {
    && (forall n :: n in nodes ==> n !in s.entries && n !in s.edges.dependents && n !in s.store && n !in s.strategies)
    && (forall n, d :: n in s.entries && d in s.entries[n].deps ==> d !in nodes)
  }

  /** All dependencies of the described nodes are described. */
  ghost predicate SelfContained(g: Subgraph) {
    forall d, x :: d in g.descriptors && x in d.deps ==> x in Elems(g.nodeIds)
  }

  /** Inside the merged registry the fresh nodes are held once and depend on each other only;
      the old nodes are as before and depend on old nodes only. */
  ghost predicate Apart(s: State, entries: Entries, nodes: set<NodeId>) {
    && entries.Keys == s.entries.Keys + nodes && s.entries.Keys !! nodes
    && (forall n :: n in s.entries ==> entries[n] == s.entries[n] && forall d :: d in entries[n].deps ==> d !in nodes)
    && (forall n :: n in nodes ==> entries[n].refCount == 1 && forall d :: d in entries[n].deps ==> d in nodes)
  }

  /** `ids`, all fresh, have been registered once each. */
  ghost predicate FreshSoFar(before: Entries, entries: Entries, ids: seq<NodeId>, nodes: set<NodeId>) {
    && entries.Keys == before.Keys + Elems(ids)
    && (forall n :: n in before ==> entries[n] == before[n])
    && (forall n :: n in ids && n in entries ==>
          entries[n].refCount == 1 && forall x :: x in entries[n].deps ==> x in nodes)
  }

  lemma FreshOneMore(before: Entries, entries: Entries, ids: seq<NodeId>, nodes: set<NodeId>, d: Descriptor)
    requires FreshSoFar(before, entries, ids, nodes) && d.id !in ids && d.id !in before
    requires forall x :: x in d.deps ==> x in nodes
    ensures FreshSoFar(before, WithNode(entries, d.id, d.kind, d.deps, d.impl), ids + [d.id], nodes)
  {
    assert Elems(ids + [d.id]) == Elems(ids) + {d.id};
  }

  lemma {:induction false} RegisteredFresh(s: State, ds: seq<Descriptor>, nodes: set<NodeId>)
    requires Unknown(s, nodes) && NoDup(DescribedIds(ds))
    requires forall d :: d in ds ==> d.id in nodes && forall x :: x in d.deps ==> x in nodes
    ensures FreshSoFar(s.entries, RegisteredAll(s, ds).entries, DescribedIds(ds), nodes)
  {
    if ds != [] {
      var init, d := ds[..|ds| - 1], ds[|ds| - 1];
      assert d in ds && forall x :: x in init ==> x in ds;
      assert DescribedIds(ds) == DescribedIds(init) + [d.id];
      RegisteredFresh(s, init, nodes);
      FreshOneMore(s.entries, RegisteredAll(s, init).entries, DescribedIds(init), nodes, d);
    }
  }

  lemma MergedIsApart(s: State, g: Subgraph)
    requires WellBuilt(g) && SelfContained(g) && Unknown(s, Elems(g.nodeIds))
    ensures Apart(s, RegisteredAll(s, g.descriptors).entries, Elems(g.nodeIds))
  {
    var ids := DescribedIds(g.descriptors);
    forall d | d in g.descriptors ensures d.id in Elems(g.nodeIds) {
      var i :| 0 <= i < |g.descriptors| && g.descriptors[i] == d;
      assert ids[i] in Elems(ids);
    }
    RegisteredFresh(s, g.descriptors, Elems(g.nodeIds));
    assert forall n :: n in Elems(g.nodeIds) ==> n in Elems(ids);
  }

  lemma {:induction false} PathStaysInside(s: State, u: State, nodes: set<NodeId>, from: NodeId, n: NodeId,
                                           p: seq<NodeId>)
    requires Apart(s, u.entries, nodes) && from in nodes && InactivePath(u, from, n, p)
    ensures n in nodes
    decreases |p|
  {
    if |p| > 1 {
      assert p[1] in u.entries[p[0]].deps;
      assert InactivePath(u, p[1], n, p[1..]);
      PathStaysInside(s, u, nodes, p[1], n, p[1..]);
    }
  }

  lemma SinkStaysInside(s: State, u: State, v: State, nodes: set<NodeId>, sink: NodeId)
    requires Apart(s, u.entries, nodes) && sink in nodes && Invariant(u) && SinkActivated(u, v, sink)
    ensures Invariant(v) && Grown(u, v) && v.active - u.active <= nodes
  {
    if IsKind(u.entries, sink, Sink) {
      ActivationKeepsInvariant(u, v, sink);
      forall n | n in v.active - u.active ensures n in nodes {
        assert Reaches(u, sink, n);
        var p :| InactivePath(u, sink, n, p);
        PathStaysInside(s, u, nodes, sink, n, p);
      }
    } else {
      GrownSelf(u);
    }
  }

  /** Where activating the fresh sinks stands: only fresh nodes have been activated. */
  ghost predicate GrownInside(r: State, u: State, nodes: set<NodeId>) {
    Invariant(u) && Grown(r, u) && u.active - r.active <= nodes
  }

  lemma GrownInsideSelf(r: State, nodes: set<NodeId>)
    requires Invariant(r)
    ensures GrownInside(r, r, nodes)
  {
    GrownSelf(r);
  }

  lemma GrownInsideTwice(s: State, r: State, u: State, v: State, nodes: set<NodeId>, id: NodeId)
    requires GrownInside(r, u, nodes) && Apart(s, r.entries, nodes) && id in nodes && SinkActivated(u, v, id)
    ensures GrownInside(r, v, nodes)
  {
    SinkStaysInside(s, u, v, nodes, id);
    GrownTwice(r, u, v);
  }

  /** Activating the fresh sinks activates fresh nodes only. */
  lemma {:induction false} SinksStayInside(s: State, r: State, nodes: set<NodeId>, ids: seq<NodeId>, states: seq<State>,
                                           i: nat)
    requires SinksActivated(ids, states) && i <= |ids| && states[0] == r && forall id :: id in ids ==> id in nodes
    requires Invariant(r) && Apart(s, r.entries, nodes)
    ensures GrownInside(r, states[i], nodes)
  {
    if i == 0 {
      GrownInsideSelf(r, nodes);
    } else {
      SinksStayInside(s, r, nodes, ids, states, i - 1);
      var u, v, id := states[i - 1], states[i], ids[i - 1];
      assert SinkActivated(u, v, id);
      GrownInsideTwice(s, r, u, v, nodes, id);
    }
  }

  // ----- dropping the handle -----

  /** Releasing each fresh node at least once erases exactly the fresh nodes, however often
      ids repeat and whichever nodes the cascade reaches first. */
  lemma ErasesExactlyFresh(s: State, t: State, nodes: set<NodeId>, ids: seq<NodeId>, work: seq<NodeId>)
    requires Counted(t.entries) && Apart(s, t.entries, nodes) && Counted(s.entries)
    requires NoDup(ids) && Elems(ids) == nodes && Elems(work) == nodes
    ensures Elems(Released(t, work).1) == nodes
    ensures forall x :: x in s.entries ==> Demand(t.entries, work, Released(t, work).1, x) == 0
  {
    var gone := Released(t, work).1;
    forall x | x in s.entries ensures Demand(t.entries, work, ids, x) == 0 && x !in ids {
      assert x !in Elems(work) && x !in Elems(ids);
      assert forall n :: n in ids ==> n in Elems(ids);
      NoDemand(t.entries, work, ids, x);
    }
    assert Closed(t.entries, work, ids) by {
      forall x | x in t.entries && t.entries[x].refCount <= Demand(t.entries, work, ids, x) ensures x in ids {
        assert x in Elems(ids);
      }
    }
    ErasedIsLeast(t, work, ids);
    ReleasedIsBalanced(t, work);
    forall x | x in nodes ensures x in gone {
      assert x in Elems(work) && x in multiset(work);
    }
    assert forall x :: x in gone ==> x in Elems(ids);
    forall x | x in s.entries ensures Demand(t.entries, work, gone, x) == 0 {
      assert x !in Elems(work);
      NoDemand(t.entries, work, gone, x);
    }
  }

  lemma SameLength(a: seq<NodeId>, b: seq<NodeId>)
    requires a <= b && multiset(a) == multiset(b)
    ensures a == b
  {
    assert |multiset(a)| == |a| && |multiset(b)| == |b|;
  }

  lemma DepsRestored(s: State, r: State, t: State, nodes: set<NodeId>)
    requires Invariant(s) && r == s.(entries := r.entries) && Grown(r, t) && t.active - r.active <= nodes
    requires s.active !! nodes
    ensures t.edges.deps - nodes == s.edges.deps
  {
    forall n ensures n in t.edges.deps - nodes <==> n in s.edges.deps { }
    forall n | n in t.edges.deps - nodes ensures (t.edges.deps - nodes)[n] == s.edges.deps[n] { }
  }

  lemma KeysRestored(s: State, r: State, t: State, nodes: set<NodeId>)
    requires Apart(s, r.entries, nodes) && Grown(r, t) && t.active - r.active <= nodes && r.edges == s.edges
    requires forall n :: n in nodes ==> n !in s.edges.dependents
    ensures t.edges.dependents.Keys - nodes == s.edges.dependents.Keys
  {
    forall x | x in t.edges.dependents && x !in s.edges.dependents ensures x in nodes {
      assert Mentioned(r.entries, t.active - r.active, x);
    }
  }

  lemma ListsRestored(s: State, r: State, t: State, nodes: set<NodeId>)
    requires Invariant(s) && Unknown(s, nodes) && Apart(s, r.entries, nodes)
    requires r == s.(entries := r.entries) && Grown(r, t) && t.active - r.active <= nodes
    ensures KeptIn(t.edges.dependents, nodes) == s.edges.dependents
  {
    var kept := KeptIn(t.edges.dependents, nodes);
    KeysRestored(s, r, t, nodes);
    assert kept.Keys == s.edges.dependents.Keys;
    forall x | x in kept ensures kept[x] == s.edges.dependents[x] {
      DependentsRestored(s, r, t, nodes, x);
    }
  }

  /** The edges that fresh nodes added are exactly the edges their removal erases. */
  lemma EdgesRestored(s: State, r: State, t: State, nodes: set<NodeId>)
    requires Invariant(s) && Unknown(s, nodes) && Apart(s, r.entries, nodes)
    requires r == s.(entries := r.entries) && GrownInside(r, t, nodes)
    ensures RemovedAll(t.edges, nodes) == s.edges
  {
    DepsRestored(s, r, t, nodes);
    ListsRestored(s, r, t, nodes);
  }

  lemma SameCounts(s: State, r: State, t: State, nodes: set<NodeId>, x: NodeId)
    requires Apart(s, r.entries, nodes) && r == s.(entries := r.entries)
    requires Grown(r, t) && t.active - r.active <= nodes && x !in nodes
    ensures multiset(t.edges.Dependents(x)) == multiset(s.edges.Dependents(x))
  {
    forall n ensures multiset(t.edges.Dependents(x))[n] == multiset(s.edges.Dependents(x))[n] {
      if n in t.active - r.active {
        assert x !in r.entries[n].deps;
        assert x !in multiset(r.entries[n].deps);
      }
    }
  }

  lemma DependentsRestored(s: State, r: State, t: State, nodes: set<NodeId>, x: NodeId)
    requires Invariant(s) && Apart(s, r.entries, nodes) && r == s.(entries := r.entries)
    requires Grown(r, t) && t.active - r.active <= nodes && x !in nodes
    ensures t.edges.Dependents(x) == s.edges.Dependents(x)
    ensures forall n :: n in nodes ==> n !in s.edges.Dependents(x)
  {
    SameCounts(s, r, t, nodes, x);
    SameLength(s.edges.Dependents(x), t.edges.Dependents(x));
    forall n | n in nodes ensures n !in s.edges.Dependents(x) {
      assert s.edges.Linked(x, n) ==> x in s.edges.Deps(n);
    }
  }

  /** A cycle, sequential or parallel, on updates of the given nodes only. */
  ghost predicate CycledInside(nodes: set<NodeId>, t: State, u: State) {
    exists parallel, updates, sorted, order ::
      Cycled(t, u, parallel, updates, sorted, order) && Ids(updates) <= nodes
  }

  /** `uses` is what some number of such cycles goes through. */
  ghost predicate UsedInside(nodes: set<NodeId>, uses: seq<State>) {
    |uses| >= 1 && forall i, j :: 0 <= i && i + 1 == j < |uses| ==> CycledInside(nodes, uses[i], uses[j])
  }

  /** What depends on the fresh nodes is fresh. */
  lemma DirtyStaysInside(s: State, t: State, nodes: set<NodeId>, ids: set<NodeId>)
    requires Invariant(t) && Apart(s, t.entries, nodes) && ids <= nodes
    ensures Dirty(t.edges, ids) <= nodes
  {
    forall m, n | m in nodes && t.edges.Linked(m, n) ensures n in nodes {
      assert m in t.edges.Deps(n);
      assert n in t.active && m in t.entries[n].deps;
    }
    forall n | n in Dirty(t.edges, ids) ensures n in nodes {
      DownstreamLeast(t.edges, ids, n, nodes);
    }
  }

  lemma CycleStaysInside(s: State, t: State, u: State, nodes: set<NodeId>)
    requires Invariant(t) && Apart(s, t.entries, nodes) && CycledInside(nodes, t, u)
    ensures u == t.(store := u.store) && forall n :: n !in nodes ==> Get(u.store, n) == Get(t.store, n)
  {
    var parallel, updates, sorted, order :|
      Cycled(t, u, parallel, updates, sorted, order) && Ids(updates) <= nodes;
    if updates != [] {
      var dirty := Dirty(t.edges, Ids(updates));
      DirtyStaysInside(s, t, nodes, Ids(updates));
      RunOrderElems(t.edges, dirty, order);
      forall n | n !in nodes ensures Get(u.store, n) == Get(t.store, n) {
        assert n !in Elems(order);
        Applied(t.store, updates, n);
      }
    }
  }

  lemma {:induction false} UseStaysInside(s: State, nodes: set<NodeId>, uses: seq<State>, i: nat)
    requires UsedInside(nodes, uses) && i < |uses| && Invariant(uses[0]) && Apart(s, uses[0].entries, nodes)
    ensures uses[i] == uses[0].(store := uses[i].store)
    ensures forall n :: n !in nodes ==> Get(uses[i].store, n) == Get(uses[0].store, n)
  {
    if i > 0 {
      UseStaysInside(s, nodes, uses, i - 1);
      assert CycledInside(nodes, uses[i - 1], uses[i]);
      CycleStaysInside(s, uses[i - 1], uses[i], nodes);
    }
  }

  /** Round trip: merging a subgraph the engine knows nothing about, whose dependencies all
      lie inside it, then feeding it in any number of cycles, then dropping the handle and
      draining, gives back the state as it was: registry, counts, active nodes, guards, both
      topology maps, store and strategies. */
  lemma MergeUseDropRestores(s: State, g: Subgraph, states: seq<State>, t: State, uses: seq<State>, u: State,
                             work: seq<NodeId>)
    requires Invariant(s) && WellBuilt(g) && SelfContained(g) && Unknown(s, Elems(g.nodeIds))
    requires Merged(s, g, states, t) && Elems(work) == Elems(g.nodeIds)
    requires UsedInside(Elems(g.nodeIds), uses) && uses[0] == t && uses[|uses| - 1] == u
    ensures Counted(u.entries) && Released(u, work).0 == s
  {
    var nodes, r := Elems(g.nodeIds), RegisteredAll(s, g.descriptors);
    MergedIsApart(s, g);
    RegisteredAllKeepsInvariant(s, g.descriptors);
    SinksStayInside(s, r, nodes, g.nodeIds, states, |g.nodeIds|);
    UseStaysInside(s, nodes, uses, |uses| - 1);
    ErasesExactlyFresh(s, u, nodes, DescribedIds(g.descriptors), work);
    ReleasedIsSurvivors(u, work);
    EdgesRestored(s, r, t, nodes);
    RestRestored(s, r, t, nodes, work, Released(u, work).1);
    SameStore(u.store - nodes, t.store - nodes);
  }

  /** In particular when it is not used at all. */
  lemma MergeThenDropRestores(s: State, g: Subgraph, states: seq<State>, t: State, work: seq<NodeId>)
    requires Invariant(s) && WellBuilt(g) && SelfContained(g) && Unknown(s, Elems(g.nodeIds))
    requires Merged(s, g, states, t) && Elems(work) == Elems(g.nodeIds)
    ensures Counted(t.entries) && Released(t, work).0 == s
  {
    MergeUseDropRestores(s, g, states, t, [t], t, work);
  }

  lemma EntriesRestored(s: State, entries: Entries, nodes: set<NodeId>, work: seq<NodeId>, gone: seq<NodeId>)
    requires Apart(s, entries, nodes) && Elems(gone) == nodes
    requires forall x :: x in s.entries ==> Demand(entries, work, gone, x) == 0
    ensures Kept(entries, work, gone) == s.entries
  {
    var kept := Kept(entries, work, gone);
    assert kept.Keys == s.entries.Keys;
    forall n | n in kept ensures kept[n] == s.entries[n] { }
  }

  lemma RestRestored(s: State, r: State, t: State, nodes: set<NodeId>, work: seq<NodeId>, gone: seq<NodeId>)
    requires Invariant(s) && Unknown(s, nodes) && Apart(s, r.entries, nodes)
    requires r == s.(entries := r.entries) && Grown(r, t) && t.active - r.active <= nodes
    requires Elems(gone) == nodes && forall x :: x in s.entries ==> Demand(t.entries, work, gone, x) == 0
    requires RemovedAll(t.edges, nodes) == s.edges
    ensures Survivors(t, work, gone) == s
  {
    var u := Survivors(t, work, gone);
    EntriesRestored(s, t.entries, nodes, work, gone);
    ActivityRestored(s, r, t, nodes);
    assert u.active == s.active && u.guards == s.guards && u.store == s.store && u.strategies == s.strategies;
  }

  lemma ActivityRestored(s: State, r: State, t: State, nodes: set<NodeId>)
    requires Invariant(s) && Unknown(s, nodes) && r == s.(entries := r.entries) && Grown(r, t)
    requires t.active - r.active <= nodes
    ensures t.active - nodes == s.active && t.guards - nodes == s.guards
    ensures t.store - nodes == s.store && t.strategies - nodes == s.strategies
  {
    assert s.active !! nodes;
    forall n ensures Get(t.store - nodes, n) == Get(s.store, n) { }
    SameStore(t.store - nodes, s.store);
  }
}
