/** Cycles while a fresh subgraph is merged, seen from outside it (src/subgraph.rs,
    src/engine.rs): the rest of the engine behaves as if the subgraph were not there. */
module Coexistence {
  import opened Nodes
  import opened Topologies
  import opened Propagation
  import opened CycleLaws
  import opened Lifecycle
  import opened Activation
  import opened Runs
  import opened Subgraphs

  // ----- two topologies that agree outside some nodes -----

  /** `e` is `f` without the nodes and their edges; no edge of `f` crosses their border. */
  ghost predicate Restricts(e: Edges, f: Edges, nodes: set<NodeId>) {
    && (forall m, n :: m !in nodes ==> (f.Linked(m, n) <==> e.Linked(m, n)))
    && (forall m, n :: f.Linked(m, n) ==> (m in nodes <==> n in nodes))
    && (forall m, n :: e.Linked(m, n) ==> m !in nodes && n !in nodes)
    && (forall n :: n !in nodes ==> f.Deps(n) == e.Deps(n) && forall d :: d in f.Deps(n) ==> d !in nodes)
  }

  lemma DirtyOutside(e: Edges, f: Edges, nodes: set<NodeId>, ids: set<NodeId>)
    requires Restricts(e, f, nodes)
    ensures Dirty(f, ids) - nodes == Dirty(e, ids - nodes)
  {
    var inner, outer := Dirty(e, ids - nodes), Dirty(f, ids);
    forall m, n | (m in ids || m in inner + nodes) && f.Linked(m, n) ensures n in inner + nodes {
      if m !in nodes {
        DirtyClosed(e, ids - nodes, m, n);
      }
    }
    forall n | n in outer ensures n in inner + nodes { DownstreamLeast(f, ids, n, inner + nodes); }
    forall m, n | (m in ids - nodes || m in outer - nodes) && e.Linked(m, n) ensures n in outer - nodes {
      DirtyClosed(f, ids, m, n);
    }
    forall n | n in inner ensures n in outer - nodes { DownstreamLeast(e, ids - nodes, n, outer - nodes); }
  }

  lemma SettledOutside(e: Edges, f: Edges, nodes: set<NodeId>, dirty: set<NodeId>, order: seq<NodeId>, n: NodeId)
    requires Restricts(e, f, nodes) && n !in nodes
    ensures Settled(f, dirty, order, n) <==> Settled(e, dirty - nodes, Keep(order, nodes), n)
  {
  }

  lemma {:induction false} RunOrderOutside(e: Edges, f: Edges, nodes: set<NodeId>, dirty: set<NodeId>,
                                           order: seq<NodeId>)
    requires Restricts(e, f, nodes) && RunOrder(f, dirty, order)
    ensures RunOrder(e, dirty - nodes, Keep(order, nodes))
  {
    if order != [] {
      var before, n := order[..|order| - 1], order[|order| - 1];
      RunOrderOutside(e, f, nodes, dirty, before);
      if n !in nodes {
        SettledOutside(e, f, nodes, dirty, before, n);
        RunOrderExtends(e, dirty - nodes, Keep(before, nodes), n);
      }
    }
  }

  lemma KahnOutside(e: Edges, f: Edges, nodes: set<NodeId>, dirty: set<NodeId>, order: seq<NodeId>)
    requires Restricts(e, f, nodes) && KahnOrder(f, dirty, order)
    ensures KahnOrder(e, dirty - nodes, Keep(order, nodes))
  {
    RunOrderOutside(e, f, nodes, dirty, order);
    forall n | n in dirty - nodes && Settled(e, dirty - nodes, Keep(order, nodes), n) ensures n in Keep(order, nodes) {
      SettledOutside(e, f, nodes, dirty, order, n);
    }
  }

  /** The registries agree outside the nodes, and nothing outside depends on them. */
  ghost predicate SameOutside(small: Entries, big: Entries, nodes: set<NodeId>) {
    && small.Keys == big.Keys - nodes
    && forall n :: n in small ==> small[n] == big[n] && forall d :: d in small[n].deps ==> d !in nodes
  }

  lemma WavesOutside(small: Entries, big: Entries, e: Edges, f: Edges, nodes: set<NodeId>, dirty: set<NodeId>,
                     sorted: seq<NodeId>, order: seq<NodeId>)
    requires Restricts(e, f, nodes) && SameOutside(small, big, nodes) && WaveOrder(big, f, dirty, sorted, order)
    ensures WaveOrder(small, e, dirty - nodes, Keep(sorted, nodes), Keep(order, nodes))
  {
    RunOrderOutside(e, f, nodes, dirty, order);
    forall n | n in Keep(sorted, nodes) && !IsKind(small, n, AsyncCompute) &&
               Settled(e, dirty - nodes, Keep(order, nodes), n)
      ensures n in Keep(order, nodes)
    {
      SettledOutside(e, f, nodes, dirty, order, n);
    }
  }

  // ----- updates and stores -----

  /** The updates that are not for the nodes. */
  function OutsideOf(updates: Outputs, nodes: set<NodeId>): Outputs {
    if updates == [] then [] else
    var u := updates[|updates| - 1];
    var rest := OutsideOf(updates[..|updates| - 1], nodes);
    if u.0 in nodes then rest else rest + [u]
  }

  lemma {:induction false} IdsOutside(updates: Outputs, nodes: set<NodeId>)
    ensures Ids(OutsideOf(updates, nodes)) == Ids(updates) - nodes
  {
    if updates != [] {
      var init, u := updates[..|updates| - 1], updates[|updates| - 1];
      IdsOutside(init, nodes);
      IdsOneMore(init, u);
      assert updates == init + [u];
      if u.0 !in nodes {
        IdsOneMore(OutsideOf(init, nodes), u);
      }
    }
  }

  lemma IdsOneMore(updates: Outputs, u: (NodeId, Value))
    ensures Ids(updates + [u]) == Ids(updates) + {u.0}
  {
    assert u in updates + [u];
    forall n | n in Ids(updates) ensures n in Ids(updates + [u]) {
      var w :| w in updates && w.0 == n;
      assert w in updates + [u];
    }
  }

  lemma PutOutside(store: Store, n: NodeId, v: Value, nodes: set<NodeId>)
    ensures store[n := v] - nodes == if n in nodes then store - nodes else (store - nodes)[n := v]
  {
  }

  lemma {:induction false} ApplyOutside(store: Store, updates: Outputs, nodes: set<NodeId>)
    ensures Apply(store - nodes, OutsideOf(updates, nodes)) == Apply(store, updates) - nodes
  {
    if updates != [] {
      var init, u := updates[..|updates| - 1], updates[|updates| - 1];
      ApplyOutside(store, init, nodes);
      PutOutside(Apply(store, init), u.0, u.1, nodes);
      if u.0 !in nodes {
        var outside := OutsideOf(init, nodes);
        assert (outside + [u])[..|outside|] == outside;
      }
    }
  }

  lemma AnswerOutside(small: Entries, big: Entries, nodes: set<NodeId>, store: Store, n: NodeId)
    requires SameOutside(small, big, nodes) && n in small
    ensures Answer(small, store - nodes, n) == Answer(big, store, n)
  {
    ArgsAgree(store - nodes, store, small[n].deps);
  }

  lemma SolvesOutside(small: Entries, big: Entries, nodes: set<NodeId>, strategies: Strategies, ran: set<NodeId>,
                      before: Store, after: Store)
    requires SameOutside(small, big, nodes) && Solves(big, strategies, ran, before, after)
    ensures Solves(small, strategies, ran - nodes, before - nodes, after - nodes)
  {
    forall n ensures Get(after - nodes, n) ==
      if n in ran - nodes && IsKind(small, n, Compute)
      then Outcome(Strategy(strategies, n), Answer(small, after - nodes, n), Get(before - nodes, n))
      else Get(before - nodes, n)
    {
      GetOutside(after, nodes, n);
      GetOutside(before, nodes, n);
      if n in small {
        AnswerOutside(small, big, nodes, after, n);
      }
    }
  }

  lemma GetOutside(store: Store, nodes: set<NodeId>, n: NodeId)
    ensures Get(store - nodes, n) == if n in nodes then None else Get(store, n)
  {
  }

  // ----- a merged subgraph -----

  /** `t` is `s` with a fresh subgraph merged into it. */
  ghost predicate MergedInto(s: State, t: State, nodes: set<NodeId>) {
    && Invariant(s) && Invariant(t) && Unknown(s, nodes) && Apart(s, t.entries, nodes)
    && Grown(s.(entries := t.entries), t) && t.active - s.active <= nodes
  }

  lemma MergeIsMergedInto(s: State, g: Subgraph, states: seq<State>, t: State)
    requires Invariant(s) && WellBuilt(g) && SelfContained(g) && Unknown(s, Elems(g.nodeIds)) && Merged(s, g, states, t)
    ensures MergedInto(s, t, Elems(g.nodeIds))
  {
    var nodes, r := Elems(g.nodeIds), RegisteredAll(s, g.descriptors);
    MergedIsApart(s, g);
    RegisteredAllKeepsInvariant(s, g.descriptors);
    SinksStayInside(s, r, nodes, g.nodeIds, states, |g.nodeIds|);
    assert r == s.(entries := t.entries);
  }

  lemma EdgesOutside(s: State, t: State, nodes: set<NodeId>)
    requires MergedInto(s, t, nodes)
    ensures Restricts(s.edges, t.edges, nodes)
  {
    var r := s.(entries := t.entries);
    forall m | m !in nodes ensures t.edges.Dependents(m) == s.edges.Dependents(m) {
      DependentsRestored(s, r, t, nodes, m);
    }
    DepsRestored(s, r, t, nodes);
    assert forall n :: n !in nodes ==> t.edges.Deps(n) == s.edges.Deps(n) by {
      assert forall n :: n !in nodes ==> Listed(t.edges.deps - nodes, n) == Listed(t.edges.deps, n);
    }
    forall m, n | t.edges.Linked(m, n) ensures m in nodes <==> n in nodes {
      LinkInside(s, t, nodes, m, n);
    }
    forall m, n | s.edges.Linked(m, n) ensures m !in nodes && n !in nodes {
      assert m in s.edges.Deps(n);
    }
  }

  lemma LinkInside(s: State, t: State, nodes: set<NodeId>, m: NodeId, n: NodeId)
    requires Invariant(t) && Apart(s, t.entries, nodes) && t.edges.Linked(m, n)
    ensures m in nodes <==> n in nodes
  {
    assert m in t.edges.Deps(n) && n in t.active && n in t.entries && m in t.entries[n].deps;
  }

  /** The engine without the subgraph, with the values its own nodes have by now. */
  function Outside(s: State, u: State, nodes: set<NodeId>): State {
    s.(store := u.store - nodes)
  }

  /** What a cycle executes outside the nodes is what a cycle without them would execute. */
  lemma OrdersOutside(small: Entries, big: Entries, e: Edges, f: Edges, nodes: set<NodeId>, ids: set<NodeId>,
                      parallel: bool, sorted: seq<NodeId>, order: seq<NodeId>)
    requires Restricts(e, f, nodes) && SameOutside(small, big, nodes) && KahnOrder(f, Dirty(f, ids), sorted)
    requires parallel ==> WaveOrder(big, f, Dirty(f, ids), sorted, order)
    requires !parallel ==> order == sorted
    ensures
      var dirty := Dirty(e, ids - nodes);
      && KahnOrder(e, dirty, Keep(sorted, nodes)) && Elems(Keep(order, nodes)) == Elems(order) - nodes <= dirty
      && (parallel ==> WaveOrder(small, e, dirty, Keep(sorted, nodes), Keep(order, nodes)))
  {
    DirtyOutside(e, f, nodes, ids);
    KahnOutside(e, f, nodes, Dirty(f, ids), sorted);
    if parallel {
      WavesOutside(small, big, e, f, nodes, Dirty(f, ids), sorted, order);
    }
    RunOrderElems(e, Dirty(e, ids - nodes), Keep(order, nodes));
    assert Elems(Keep(order, nodes)) == Elems(order) - nodes;
  }

  lemma StoreOutside(s: State, t: State, nodes: set<NodeId>, u: State, u': State, parallel: bool,
                     updates: Outputs, sorted: seq<NodeId>, order: seq<NodeId>)
    requires MergedInto(s, t, nodes) && u == t.(store := u.store) && updates != []
    requires Cycled(u, u', parallel, updates, sorted, order)
    ensures Solves(s.entries, if parallel then map[] else s.strategies, Elems(order) - nodes,
                   Apply(u.store - nodes, OutsideOf(updates, nodes)), u'.store - nodes)
  {
    SolvesOutside(s.entries, t.entries, nodes, if parallel then map[] else s.strategies, Elems(order),
                  Apply(u.store, updates), u'.store);
    ApplyOutside(u.store, updates, nodes);
  }

  /** Seen from outside, a cycle with the subgraph merged is the cycle on the other updates
      without it. */
  lemma CycleSeenOutside(s: State, t: State, nodes: set<NodeId>, u: State, u': State, parallel: bool,
                         updates: Outputs, sorted: seq<NodeId>, order: seq<NodeId>)
    requires MergedInto(s, t, nodes) && u == t.(store := u.store)
    requires Cycled(u, u', parallel, updates, sorted, order)
    ensures u' == t.(store := u'.store)
    ensures Cycled(Outside(s, u, nodes), Outside(s, u', nodes), parallel, OutsideOf(updates, nodes),
                   Keep(sorted, nodes), Keep(order, nodes))
  {
    if updates != [] {
      EdgesOutside(s, t, nodes);
      OrdersOutside(s.entries, t.entries, s.edges, t.edges, nodes, Ids(updates), parallel, sorted, order);
      StoreOutside(s, t, nodes, u, u', parallel, updates, sorted, order);
      IdsOutside(updates, nodes);
      if OutsideOf(updates, nodes) == [] {
        NothingOutside(s, order, nodes, if parallel then map[] else s.strategies, u.store - nodes, u'.store - nodes);
      }
    }
  }

  lemma NothingOutside(s: State, order: seq<NodeId>, nodes: set<NodeId>, strategies: Strategies,
                       before: Store, after: Store)
    requires Elems(order) - nodes <= Dirty(s.edges, {})
    requires Solves(s.entries, strategies, Elems(order) - nodes, before, after)
    ensures after == before
  {
    forall n | n in Dirty(s.edges, {}) ensures false { DownstreamLeast(s.edges, {}, n, {}); }
    SameStore(after, before);
  }

  /** And the sinks outside emit the same. */
  lemma EmissionsSeenOutside(s: State, t: State, nodes: set<NodeId>, u: State, u': State, parallel: bool,
                             updates: Outputs, sorted: seq<NodeId>, order: seq<NodeId>, n: NodeId, payload: Value)
    requires MergedInto(s, t, nodes) && u == t.(store := u.store) && updates != [] && n !in nodes
    requires Cycled(u, u', parallel, updates, sorted, order)
    ensures multiset(Handed(s.entries, Sink, Keep(order, nodes), u'.store - nodes))[(n, payload)] ==
            multiset(Handed(t.entries, Sink, order, u'.store))[(n, payload)]
  {
    EdgesOutside(s, t, nodes);
    OrdersOutside(s.entries, t.entries, s.edges, t.edges, nodes, Ids(updates), parallel, sorted, order);
    RunOrderElems(t.edges, Dirty(t.edges, Ids(updates)), order);
    RunOrderElems(s.edges, Dirty(s.edges, Ids(updates) - nodes), Keep(order, nodes));
    HandedOnce(t.entries, Sink, order, u'.store, n, payload);
    HandedOnce(s.entries, Sink, Keep(order, nodes), u'.store - nodes, n, payload);
    if n in s.entries {
      AnswerOutside(s.entries, t.entries, nodes, u'.store, n);
    }
  }

  // ----- merge, any cycles, drop -----

  ghost predicate CycledBy(s: State, t: State, parallel: bool, updates: Outputs) {
    exists sorted, order :: Cycled(s, t, parallel, updates, sorted, order)
  }

  lemma UseSeenOutside(s: State, t: State, nodes: set<NodeId>, u: State, u': State, parallel: bool, updates: Outputs)
    requires MergedInto(s, t, nodes) && u == t.(store := u.store) && CycledBy(u, u', parallel, updates)
    ensures u' == t.(store := u'.store)
    ensures CycledBy(Outside(s, u, nodes), Outside(s, u', nodes), parallel, OutsideOf(updates, nodes))
  {
    var sorted, order :| Cycled(u, u', parallel, updates, sorted, order);
    CycleSeenOutside(s, t, nodes, u, u', parallel, updates, sorted, order);
  }

  lemma {:induction false} UsesKeepStructure(s: State, t: State, nodes: set<NodeId>, uses: seq<State>,
                                             fed: seq<(bool, Outputs)>, i: nat)
    requires MergedInto(s, t, nodes) && |uses| == |fed| + 1 && uses[0] == t && i <= |fed|
    requires forall k :: 0 <= k < |fed| ==> CycledBy(uses[k], uses[k + 1], fed[k].0, fed[k].1)
    ensures uses[i] == t.(store := uses[i].store)
  {
    if i > 0 {
      UsesKeepStructure(s, t, nodes, uses, fed, i - 1);
      assert CycledBy(uses[i - 1], uses[i - 1 + 1], fed[i - 1].0, fed[i - 1].1);
      UseSeenOutside(s, t, nodes, uses[i - 1], uses[i], fed[i - 1].0, fed[i - 1].1);
    }
  }

  /** Merging a fresh subgraph, any number of cycles on any updates, then dropping it: what is left
      is what the same cycles, on the updates that were not for the subgraph, would have left
      without it. */
  lemma MergeCyclesDrop(s: State, g: Subgraph, states: seq<State>, t: State, uses: seq<State>,
                        fed: seq<(bool, Outputs)>, work: seq<NodeId>)
    requires Invariant(s) && WellBuilt(g) && SelfContained(g) && Unknown(s, Elems(g.nodeIds))
    requires Merged(s, g, states, t) && Elems(work) == Elems(g.nodeIds)
    requires |uses| == |fed| + 1 && uses[0] == t
    requires forall k :: 0 <= k < |fed| ==> CycledBy(uses[k], uses[k + 1], fed[k].0, fed[k].1)
    ensures Outside(s, t, Elems(g.nodeIds)) == s
    ensures forall k :: 0 <= k < |fed| ==>
              CycledBy(Outside(s, uses[k], Elems(g.nodeIds)), Outside(s, uses[k + 1], Elems(g.nodeIds)),
                       fed[k].0, OutsideOf(fed[k].1, Elems(g.nodeIds)))
    ensures Counted(uses[|fed|].entries) && Released(uses[|fed|], work).0 == Outside(s, uses[|fed|], Elems(g.nodeIds))
  {
    var nodes, u := Elems(g.nodeIds), uses[|fed|];
    MergeIsMergedInto(s, g, states, t);
    forall k | 0 <= k < |fed|
      ensures CycledBy(Outside(s, uses[k], nodes), Outside(s, uses[k + 1], nodes), fed[k].0, OutsideOf(fed[k].1, nodes))
    {
      UsesKeepStructure(s, t, nodes, uses, fed, k);
      UseSeenOutside(s, t, nodes, uses[k], uses[k + 1], fed[k].0, fed[k].1);
    }
    UsesKeepStructure(s, t, nodes, uses, fed, |fed|);
    MergeThenDropRestores(s, g, states, t, work);
    DropLeavesOutside(s, t, u, nodes, DescribedIds(g.descriptors), work);
  }

  lemma DropLeavesOutside(s: State, t: State, u: State, nodes: set<NodeId>, ids: seq<NodeId>, work: seq<NodeId>)
    requires MergedInto(s, t, nodes) && u == t.(store := u.store)
    requires NoDup(ids) && Elems(ids) == nodes && Elems(work) == nodes && Released(t, work).0 == s
    ensures Released(u, work).0 == Outside(s, u, nodes) && Outside(s, t, nodes) == s
  {
    ErasesExactlyFresh(s, u, nodes, ids, work);
    ErasesExactlyFresh(s, t, nodes, ids, work);
    ReleasedIsSurvivors(u, work);
    ReleasedIsSurvivors(t, work);
    EntriesRestored(s, u.entries, nodes, work, Released(u, work).1);
    EntriesRestored(s, t.entries, nodes, work, Released(t, work).1);
  }
}
