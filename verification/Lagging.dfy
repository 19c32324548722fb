/** Parallel cycles with dirty async nodes (src/scheduler.rs, src/engine.rs): the waves leave out
    what depends on these nodes, and the cycles on their results catch up. */
module Lagging {
  import opened Nodes
  import opened Topologies
  import opened Propagation
  import opened CycleLaws
  import opened Lifecycle
  import opened Activation
  import opened Runs

  /** Dependencies of active nodes are active. */
  ghost predicate DepsActive(s: State) {
    forall n, d :: n in s.active && n in s.entries && d in s.entries[n].deps ==> d in s.active
  }

  /** All that reachable states promise, except that compute nodes downstream of the `awaited`
      nodes may not have caught up. Even these hold no value that they could not compute. */
  ghost predicate CurrentBut(s: State, awaited: set<NodeId>) {
    && Structured(s) && AllStrict(s.entries) && DepsActive(s) && InactiveEmpty(s, {})
    && Supported(s.entries, s.active, s.store)
    && ConsistentBut(s.entries, s.active, s.store, Dirty(s.edges, awaited))
  }

  lemma NothingDirty(e: Edges)
    ensures Dirty(e, {}) == {}
  {
    forall n ensures n !in Dirty(e, {}) {
      if n in Dirty(e, {}) {
        DownstreamLeast(e, {}, n, {});
      }
    }
  }

  /** Reachable states are those in which nothing is awaited. */
  lemma ReachableIffNothingAwaited(s: State)
    ensures Reachable(s) <==> CurrentBut(s, {})
  {
    NothingDirty(s.edges);
    if Reachable(s) {
      ReachableIsConsistent(s);
      ConsistentIsSupported(s.entries, s.active, s.store);
    }
  }

  lemma DirtyGrows(e: Edges, i: set<NodeId>, j: set<NodeId>)
    requires i <= j
    ensures Dirty(e, i) <= Dirty(e, j)
  {
    DirtyUnion(e, i, j - i);
    assert i + (j - i) == j;
  }

  lemma {:induction false} ChainIsDownstream(e: Edges, within: set<NodeId>, p: seq<NodeId>)
    requires Chain(e.deps, within, p) && AllLinked(e, within) && |p| >= 2
    ensures p[|p| - 1] in Dirty(e, {p[0]})
    decreases |p|
  {
    var q := p[..|p| - 1];
    assert p[|p| - 2] in e.Deps(p[|p| - 1]);
    if |q| >= 2 {
      ChainIsDownstream(e, within, q);
    }
    DirtyClosed(e, {p[0]}, p[|p| - 2], p[|p| - 1]);
  }

  ghost function DirtyAsync(s: State, ids: set<NodeId>): set<NodeId> {
    set n | n in Dirty(s.edges, ids) && IsKind(s.entries, n, AsyncCompute)
  }

  lemma BlockedIsBehindAsync(s: State, ids: set<NodeId>, n: NodeId)
    requires Sortable(s.edges, Dirty(s.edges, ids)) && IsKind(s.entries, n, Compute)
    requires Blocked(s.entries, s.edges, Dirty(s.edges, ids), n)
    ensures n in Dirty(s.edges, DirtyAsync(s, ids))
  {
    var dirty := Dirty(s.edges, ids);
    var p :| BlockedBy(s.entries, s.edges, dirty, n, p);
    assert p[0] in DirtyAsync(s, ids);
    ChainIsDownstream(s.edges, dirty, p);
    DirtyGrows(s.edges, {p[0]}, DirtyAsync(s, ids));
  }

  /** What is awaited after a cycle: no longer the nodes whose values it drained, but in parallel
      also the async nodes that it made dirty. */
  ghost function AwaitedAfter(s: State, awaited: set<NodeId>, updates: Outputs, parallel: bool): set<NodeId> {
    (awaited - Ids(updates)) + if parallel then DirtyAsync(s, Ids(updates)) else {}
  }

  /** The dirty compute nodes that a cycle does not execute are behind its dirty async nodes. */
  lemma LeftOutIsAwaited(s: State, t: State, updates: Outputs, parallel: bool, sorted: seq<NodeId>,
                         order: seq<NodeId>, n: NodeId)
    requires Structured(s) && updates != [] && Cycled(s, t, parallel, updates, sorted, order)
    requires n in Dirty(s.edges, Ids(updates)) && n !in order && IsKind(s.entries, n, Compute)
    ensures parallel && n in Dirty(s.edges, DirtyAsync(s, Ids(updates)))
  {
    var dirty := Dirty(s.edges, Ids(updates));
    var rank := CycleCoversDirty(s, Ids(updates), sorted);
    assert n in Elems(sorted);
    WaveRunSet(s.entries, s.edges, dirty, sorted, order, n);
    BlockedIsBehindAsync(s, Ids(updates), n);
  }

  lemma AwaitedSplits(e: Edges, awaited: set<NodeId>, ids: set<NodeId>)
    ensures Dirty(e, awaited) <= Dirty(e, awaited - ids) + Dirty(e, ids)
  {
    DirtyUnion(e, awaited - ids, awaited * ids);
    assert (awaited - ids) + awaited * ids == awaited;
    DirtyGrows(e, awaited * ids, ids);
  }

  lemma StillLagging(s: State, t: State, updates: Outputs, parallel: bool, sorted: seq<NodeId>,
                     order: seq<NodeId>, awaited: set<NodeId>, n: NodeId)
    requires Structured(s) && updates != [] && Cycled(s, t, parallel, updates, sorted, order)
    requires n in Dirty(s.edges, awaited) + Dirty(s.edges, Ids(updates)) && n !in order && IsKind(s.entries, n, Compute)
    ensures n in Dirty(s.edges, AwaitedAfter(s, awaited, updates, parallel))
  {
    var after := AwaitedAfter(s, awaited, updates, parallel);
    AwaitedSplits(s.edges, awaited, Ids(updates));
    DirtyGrows(s.edges, awaited - Ids(updates), after);
    if n in Dirty(s.edges, Ids(updates)) {
      LeftOutIsAwaited(s, t, updates, parallel, sorted, order, n);
      DirtyGrows(s.edges, DirtyAsync(s, Ids(updates)), after);
    }
  }

  lemma RanIsDirty(s: State, t: State, updates: Outputs, parallel: bool, sorted: seq<NodeId>, order: seq<NodeId>)
    returns (rank: map<NodeId, nat>)
    requires Structured(s) && updates != [] && Cycled(s, t, parallel, updates, sorted, order)
    ensures Elems(order) <= Dirty(s.edges, Ids(updates)) <= s.active && Ranked(s.entries, Elems(order), rank)
  {
    rank := CycleCoversDirty(s, Ids(updates), sorted);
    RunOrderElems(s.edges, Dirty(s.edges, Ids(updates)), order);
  }

  /** Any cycle on input values, sequential or parallel, with or without dirty async nodes: it
      leaves exactly what is downstream of the awaited nodes to be caught up with. */
  lemma CycleLeavesAwaited(s: State, t: State, updates: Outputs, parallel: bool, sorted: seq<NodeId>,
                           order: seq<NodeId>, awaited: set<NodeId>)
    requires CurrentBut(s, awaited) && InputsOnly(s.entries, updates)
    requires Cycled(s, t, parallel, updates, sorted, order)
    ensures CurrentBut(t, AwaitedAfter(s, awaited, updates, parallel))
  {
    if updates == [] {
      NothingDirty(s.edges);
      assert Ids(updates) == {} && AwaitedAfter(s, awaited, updates, parallel) == awaited;
    } else {
      var rank := RanIsDirty(s, t, updates, parallel, sorted, order);
      var ran, lag, dirty := Elems(order), Dirty(s.edges, awaited), Dirty(s.edges, Ids(updates));
      CycleSettles(s.entries, if parallel then map[] else s.strategies, s.edges, s.active, updates, ran, rank, lag,
                   s.store, t.store);
      forall n | n in lag + dirty - ran && IsKind(s.entries, n, Compute)
        ensures n in Dirty(s.edges, AwaitedAfter(s, awaited, updates, parallel))
      {
        StillLagging(s, t, updates, parallel, sorted, order, awaited, n);
      }
      InactiveStayEmpty(s, t, updates, ran);
    }
  }

  lemma InactiveStayEmpty(s: State, t: State, updates: Outputs, ran: set<NodeId>)
    requires InactiveEmpty(s, {}) && t == s.(store := t.store) && ran <= s.active && InputsOnly(s.entries, updates)
    requires exists strategies :: Solves(s.entries, strategies, ran, Apply(s.store, updates), t.store)
    ensures InactiveEmpty(t, {})
  {
    var strategies :| Solves(s.entries, strategies, ran, Apply(s.store, updates), t.store);
    forall n | IsKind(t.entries, n, Compute) && n !in t.active ensures n !in t.store {
      Applied(s.store, updates, n);
      assert Get(t.store, n) == Get(s.store, n);
    }
  }

  /** After a parallel cycle from a reachable state, every active compute node to which no dirty
      async node leads is current. */
  lemma ParallelLeavesOnlyAwaited(s: State, t: State, updates: Outputs, sorted: seq<NodeId>, order: seq<NodeId>,
                                  n: NodeId)
    requires Reachable(s) && InputsOnly(s.entries, updates) && Cycled(s, t, true, updates, sorted, order)
    requires n in t.active && IsKind(t.entries, n, Compute) && n !in Dirty(s.edges, DirtyAsync(s, Ids(updates)))
    ensures Get(t.store, n) == Answer(t.entries, t.store, n)
  {
    ReachableIffNothingAwaited(s);
    CycleLeavesAwaited(s, t, updates, true, sorted, order, {});
    assert AwaitedAfter(s, {}, updates, true) == DirtyAsync(s, Ids(updates));
  }

  /** A cycle that drains a value of every awaited node, and in parallel makes no async node dirty,
      restores full currency: the state is as good as any reachable one. */
  lemma ResultsCatchUp(s: State, t: State, updates: Outputs, parallel: bool, sorted: seq<NodeId>,
                       order: seq<NodeId>, awaited: set<NodeId>)
    requires CurrentBut(s, awaited) && Cycled(s, t, parallel, updates, sorted, order)
    requires awaited <= Ids(updates) && Allowed(s, Cycle(updates, parallel, sorted, order))
    ensures Reachable(t)
  {
    CycleLeavesAwaited(s, t, updates, parallel, sorted, order, awaited);
    assert AwaitedAfter(s, awaited, updates, parallel) == {};
    ReachableIffNothingAwaited(t);
  }
}
