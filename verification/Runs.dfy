/** Runs of the engine: registrations, activations, releases, strategy changes and cycles in
    any order, and what holds in every state they reach. */
module Runs {
  import opened Nodes
  import opened Topologies
  import opened Propagation
  import opened CycleLaws
  import opened Lifecycle
  import opened Activation

  // ----- the outcome of a cycle -----

  /** What one propagation cycle does to the state, on some order the sort may return and,
      in parallel, some order the waves may take. */
  ghost predicate Cycled(s: State, t: State, parallel: bool, updates: Outputs,
                         sorted: seq<NodeId>, order: seq<NodeId>)
  {
    if updates == [] then t == s else
    var dirty, base := Dirty(s.edges, Ids(updates)), Apply(s.store, updates);
    && t == s.(store := t.store) && KahnOrder(s.edges, dirty, sorted)
    && (parallel ==> WaveOrder(s.entries, s.edges, dirty, sorted, order) &&
                     Solves(s.entries, map[], Elems(order), base, t.store))
    && (!parallel ==> order == sorted && Solves(s.entries, s.strategies, Elems(order), base, t.store))
  }

  // ----- steps -----

  datatype Op =
    | Register(id: NodeId, kind: NodeKind, deps: seq<NodeId>, impl: NodeImpl)
    | SetStrategy(node: NodeId, strategy: ErrorStrategy)
    | Activate(sink: NodeId)
    | Release(work: seq<NodeId>)
    | Cycle(updates: Outputs, parallel: bool, sorted: seq<NodeId>, order: seq<NodeId>)

  /** No registered node depends on an unregistered one. */
  ghost predicate NothingDangling(entries: Entries) {
    forall n, d :: n in entries && d in entries[n].deps ==> d in entries
  }

  /** What callers must respect: dependencies are registered first; compute nodes are the
      built-in strict ones, under ids that hold no stray value; a release erases no node that
      a surviving node depends on; no registered compute node receives a value from outside
      (ids that are not registered may: the late result of an erased async node, or a value
      still on its way when its source was erased); a parallel cycle has no dirty async node. */
  ghost predicate Allowed(s: State, op: Op) {
    match op
    case Register(id, kind, deps, impl) =>
      id in s.entries ||
      ((forall d :: d in deps ==> d in s.entries) && (kind == Compute ==> Strict(impl) && id !in s.store))
    case SetStrategy(_, _) => true
    case Activate(_) => true
    case Release(work) => Counted(s.entries) ==> NothingDangling(Released(s, work).0.entries)
    case Cycle(updates, parallel, _, _) =>
      && InputsOnly(s.entries, updates)
      && (parallel ==> forall n :: n in Dirty(s.edges, Ids(updates)) ==> !IsKind(s.entries, n, AsyncCompute))
  }

  ghost predicate Step(s: State, op: Op, t: State) {
    match op
    case Register(id, kind, deps, impl) => t == Registered(s, id, kind, deps, impl)
    case SetStrategy(n, strategy) => t == s.(strategies := s.strategies[n := strategy])
    case Activate(id) => ActivationEffect(s, t, id) && ValuesSettled(s, t, {}, id, {})
    case Release(work) => Counted(s.entries) && t == Released(s, work).0
    case Cycle(updates, parallel, sorted, order) => Cycled(s, t, parallel, updates, sorted, order)
  }

  const EMPTY: State := State(map[], Edges(map[], map[]), {}, {}, map[], map[])

  ghost predicate Run(states: seq<State>, ops: seq<Op>) {
    |states| == |ops| + 1 && states[0] == EMPTY &&
    forall i :: 0 <= i < |ops| ==> Allowed(states[i], ops[i]) && Step(states[i], ops[i], states[i + 1])
  }

  // ----- the invariant of runs -----

  ghost predicate RankedBelow(entries: Entries, rank: map<NodeId, nat>, bound: nat) {
    Acyclic(entries, rank) && forall n :: n in rank ==> rank[n] < bound
  }

  ghost predicate Ordered(entries: Entries) {
    exists rank: map<NodeId, nat>, bound: nat :: RankedBelow(entries, rank, bound)
  }

  ghost predicate Reachable(s: State) {
    && Invariant(s) && Ordered(s.entries) && AllStrict(s.entries)
    && SettledExcept(s, {}) && InactiveEmpty(s, {})
    && AllAnnounced(s.entries, s.edges, s.active)
  }

  lemma EmptyIsReachable()
    ensures Reachable(EMPTY)
  {
    assert RankedBelow(map[], map[], 0);
  }

  lemma RegisteredIsReachable(s: State, id: NodeId, kind: NodeKind, deps: seq<NodeId>, impl: NodeImpl)
    requires Reachable(s) && Allowed(s, Register(id, kind, deps, impl))
    ensures Reachable(Registered(s, id, kind, deps, impl))
  {
    RegisteredKeepsInvariant(s, id, kind, deps, impl);
    RegisteredIsOrdered(s, id, kind, deps, impl);
    RegisteredIsSettled(s, id, kind, deps, impl);
  }

  lemma RegisteredIsOrdered(s: State, id: NodeId, kind: NodeKind, deps: seq<NodeId>, impl: NodeImpl)
    requires Ordered(s.entries) && (id in s.entries || forall d :: d in deps ==> d in s.entries)
    ensures Ordered(Registered(s, id, kind, deps, impl).entries)
  {
    var t := Registered(s, id, kind, deps, impl);
    var rank: map<NodeId, nat>, bound: nat :| RankedBelow(s.entries, rank, bound);
    if id in s.entries {
      assert RankedBelow(t.entries, rank, bound);
    } else {
      RankedAbove(s.entries, rank, bound, id, Entry(kind, deps, 1, impl));
    }
  }

  /** A new node ranks above all others. */
  lemma RankedAbove(entries: Entries, rank: map<NodeId, nat>, bound: nat, id: NodeId, entry: Entry)
    requires RankedBelow(entries, rank, bound) && id !in entries && forall d :: d in entry.deps ==> d in entries
    ensures RankedBelow(entries[id := entry], rank[id := bound], bound + 1)
  {
    var above := rank[id := bound];
    forall n, d | n in entries[id := entry] && d in entries[id := entry][n].deps
      ensures d in entries[id := entry] && above[d] < above[n]
    {
      assert d in entries && d != id;
    }
  }

  lemma RegisteredIsSettled(s: State, id: NodeId, kind: NodeKind, deps: seq<NodeId>, impl: NodeImpl)
    requires s.active <= s.entries.Keys && SettledExcept(s, {})
    ensures SettledExcept(Registered(s, id, kind, deps, impl), {})
  {
    var t := Registered(s, id, kind, deps, impl);
    forall n | n in t.active && n in t.entries && t.entries[n].kind == Compute
      ensures Get(t.store, n) == Answer(t.entries, t.store, n)
    {
      assert Get(s.store, n) == Answer(s.entries, s.store, n);
    }
  }

  lemma ActivatedAnnounces(s: State, t: State)
    requires AllAnnounced(s.entries, s.edges, s.active) && Grown(s, t)
    ensures AllAnnounced(t.entries, t.edges, t.active)
  {
    forall n, d | n in t.active && n in t.entries && d in t.entries[n].deps ensures t.edges.Linked(d, n) {
      if n in s.active {
        assert s.edges.Linked(d, n);
        assert s.edges.Dependents(d) <= t.edges.Dependents(d);
      } else {
        assert d in multiset(s.entries[n].deps);
        assert multiset(t.edges.Dependents(d))[n] >= RefsTo(s.entries, n, d) >= 1;
        assert n in multiset(t.edges.Dependents(d));
      }
    }
  }

  lemma ActivatedIsReachable(s: State, t: State, id: NodeId)
    requires Reachable(s) && Step(s, Activate(id), t)
    ensures Reachable(t)
  {
    ActivatedAnnounces(s, t);
    ActivationKeepsInvariant(s, t, id);
    var rank: map<NodeId, nat>, bound: nat :| RankedBelow(s.entries, rank, bound);
    if id in s.entries {
      assert Orderly(s, rank, {}, id);
    } else {
      NothingReached(s, t, id);
    }
  }

  lemma ReachesFromRegistered(s: State, id: NodeId, n: NodeId)
    ensures Reaches(s, id, n) ==> id in s.entries
  {
    if p :| InactivePath(s, id, n, p) {
      assert p[0] in s.entries;
    }
  }

  lemma NothingReached(s: State, t: State, id: NodeId)
    requires ActivationEffect(s, t, id) && id !in s.entries && SettledExcept(s, {}) && InactiveEmpty(s, {})
    ensures SettledExcept(t, {}) && InactiveEmpty(t, {})
  {
    forall n { ReachesFromRegistered(s, id, n); }
    assert t.active == s.active;
    assert forall n :: Get(t.store, n) == Get(s.store, n);
    SameStore(s.store, t.store);
  }

  lemma SurvivorsAnnounce(s: State, work: seq<NodeId>, gone: seq<NodeId>)
    requires AllAnnounced(s.entries, s.edges, s.active)
    requires NothingDangling(Survivors(s, work, gone).entries)
    ensures
      var t := Survivors(s, work, gone);
      AllAnnounced(t.entries, t.edges, t.active)
  {
    var t := Survivors(s, work, gone);
    forall n, d | n in t.active && n in t.entries && d in t.entries[n].deps ensures t.edges.Linked(d, n) {
      assert s.edges.Linked(d, n) && d in t.entries;
    }
  }

  lemma ReleasedIsReachable(s: State, work: seq<NodeId>)
    requires Reachable(s) && Allowed(s, Release(work))
    ensures Reachable(Released(s, work).0)
  {
    var gone := Released(s, work).1;
    ReleasedIsSurvivors(s, work);
    ReleasedIsBalanced(s, work);
    var t := Survivors(s, work, gone);
    SurvivorsAnnounce(s, work, gone);
    var rank: map<NodeId, nat>, bound: nat :| RankedBelow(s.entries, rank, bound);
    assert RankedBelow(t.entries, rank, bound);
    SurvivorsSettled(s, work, gone);
  }

  lemma SurvivorsSettled(s: State, work: seq<NodeId>, gone: seq<NodeId>)
    requires SettledExcept(s, {}) && InactiveEmpty(s, {}) && s.active <= s.entries.Keys
    requires NothingDangling(Survivors(s, work, gone).entries)
    ensures SettledExcept(Survivors(s, work, gone), {}) && InactiveEmpty(Survivors(s, work, gone), {})
  {
    var t := Survivors(s, work, gone);
    forall n | n in t.active && n in t.entries
      ensures forall d :: d in t.entries[n].deps ==> d in t.active
      ensures t.entries[n].kind == Compute ==> Get(t.store, n) == Answer(t.entries, t.store, n)
    {
      forall d | d in t.entries[n].deps ensures d in t.active && Get(t.store, d) == Get(s.store, d) {
        assert d in t.entries && d in s.active;
      }
      ArgsAgree(s.store, t.store, s.entries[n].deps);
    }
  }

  // ----- cycles in reachable states -----

  lemma {:induction false} RankClimbs(entries: Entries, deps: Adjacency, within: set<NodeId>, rank: map<NodeId, nat>,
                                      p: seq<NodeId>)
    requires Acyclic(entries, rank) && Chain(deps, within, p)
    requires forall n :: n in within ==> n in entries && Listed(deps, n) == entries[n].deps
    ensures p[0] in rank && p[|p| - 1] in rank && rank[p[0]] + |p| <= rank[p[|p| - 1]] + 1
  {
    if |p| > 1 {
      var q := p[..|p| - 1];
      RankClimbs(entries, deps, within, rank, q);
      assert p[|p| - 2] in Listed(deps, p[|p| - 1]);
    }
  }

  /** The structure of reachable states, whatever values they hold. */
  ghost predicate Structured(s: State) {
    Invariant(s) && Ordered(s.entries) && AllAnnounced(s.entries, s.edges, s.active)
  }

  /** In a reachable state the sort covers the whole dirty set, and the dirty set has a rank. */
  lemma CycleCoversDirty(s: State, ids: set<NodeId>, sorted: seq<NodeId>) returns (rank: map<NodeId, nat>)
    requires Structured(s) && KahnOrder(s.edges, Dirty(s.edges, ids), sorted)
    ensures Elems(sorted) == Dirty(s.edges, ids) <= s.active
    ensures Acyclic(s.entries, rank) && Ranked(s.entries, Dirty(s.edges, ids), rank)
    ensures DepsAgree(s.entries, s.edges, Dirty(s.edges, ids)) && Sortable(s.edges, Dirty(s.edges, ids))
  {
    var dirty := Dirty(s.edges, ids);
    DirtyIsActive(s, ids);
    var bound: nat;
    rank, bound :| RankedBelow(s.entries, rank, bound);
    if Cyclic(s.edges.deps, dirty) {
      var p :| Chain(s.edges.deps, dirty, p) && |p| >= 2 && p[0] == p[|p| - 1];
      RankClimbs(s.entries, s.edges.deps, dirty, rank, p);
      assert false;
    }
    KahnCovers(s.edges, dirty, sorted);
  }

  /** The dirty nodes of an engine are active, and the topology agrees with the registry on
      their dependencies. */
  lemma DirtyIsActive(s: State, ids: set<NodeId>)
    requires Invariant(s)
    ensures Dirty(s.edges, ids) <= s.active && DepsAgree(s.entries, s.edges, Dirty(s.edges, ids))
  {
    forall n | n in Dirty(s.edges, ids) ensures n in s.active && s.edges.Deps(n) == s.entries[n].deps {
      var p :| DownPath(s.edges, ids, n, p);
      assert s.edges.Linked(p[|p| - 2], n);
      assert p[|p| - 2] in s.edges.Deps(n);
    }
  }

  /** In a reachable state every allowed cycle, sequential or parallel, recomputes the whole
      dirty set. */
  lemma CycleIsFull(s: State, t: State, updates: Outputs, parallel: bool, sorted: seq<NodeId>, order: seq<NodeId>)
    requires Reachable(s) && Allowed(s, Cycle(updates, parallel, sorted, order))
    requires Cycled(s, t, parallel, updates, sorted, order) && updates != []
    ensures FullCycle(s.entries, if parallel then map[] else s.strategies, s.edges, updates, s.store, t.store)
  {
    var rank := CycleCoversDirty(s, Ids(updates), sorted);
    if parallel {
      var dirty := Dirty(s.edges, Ids(updates));
      WavesRunAll(s.entries, s.edges, dirty, sorted, order);
      SameRun(s.edges, dirty, sorted, order);
    }
  }

  lemma ReachableIsConsistent(s: State)
    requires Reachable(s)
    ensures Consistent(s.entries, s.active, s.store) && StrictNodes(s.entries, s.active)
  {
  }

  lemma CycledIsReachable(s: State, t: State, updates: Outputs, parallel: bool, sorted: seq<NodeId>, order: seq<NodeId>)
    requires Reachable(s) && Allowed(s, Cycle(updates, parallel, sorted, order))
    requires Cycled(s, t, parallel, updates, sorted, order)
    ensures Reachable(t)
  {
    if updates != [] {
      var strategies := if parallel then map[] else s.strategies;
      CycleIsFull(s, t, updates, parallel, sorted, order);
      var rank := CycleCoversDirty(s, Ids(updates), sorted);
      ReachableIsConsistent(s);
      CycleKeepsConsistent(s.entries, strategies, s.edges, s.active, updates, rank, s.store, t.store);
      forall n ensures n !in Dirty(s.edges, Ids(updates)) && n !in Ids(updates) ==> Get(t.store, n) == Get(s.store, n) {
        Applied(s.store, updates, n);
      }
    }
  }

  /** After a cycle every node that is not computed holds the last value it was sent. */
  lemma LastInputIsStored(s: State, t: State, parallel: bool, updates: Outputs, sorted: seq<NodeId>,
                          order: seq<NodeId>, i: nat)
    requires Cycled(s, t, parallel, updates, sorted, order) && i < |updates|
    requires forall j :: i < j < |updates| ==> updates[j].0 != updates[i].0
    requires !IsKind(s.entries, updates[i].0, Compute)
    ensures Get(t.store, updates[i].0) == Some(updates[i].1)
  {
    LastUpdateWins(s.store, updates, i);
  }

  /** Every state of every run is reachable in the sense of the invariant. */
  lemma {:induction false} RunsStayReachable(states: seq<State>, ops: seq<Op>, i: nat)
    requires Run(states, ops) && i < |states|
    ensures Reachable(states[i])
  {
    if i == 0 {
      EmptyIsReachable();
    } else {
      RunsStayReachable(states, ops, i - 1);
      var s, op, t := states[i - 1], ops[i - 1], states[i];
      assert Allowed(s, op) && Step(s, op, t);
      match op
      case Register(id, kind, deps, impl) => RegisteredIsReachable(s, id, kind, deps, impl);
      case SetStrategy(_, _) =>
      case Activate(id) => ActivatedIsReachable(s, t, id);
      case Release(work) => ReleasedIsReachable(s, work);
      case Cycle(updates, parallel, sorted, order) => CycledIsReachable(s, t, updates, parallel, sorted, order);
    }
  }

  // ----- what holds in every reachable state -----

  /** After any run, an active compute node has a value exactly when all its dependencies
      have one, and then it is what the node computes from them. */
  lemma ValuesAreCurrent(states: seq<State>, ops: seq<Op>, i: nat, n: NodeId)
    requires Run(states, ops) && i < |states|
    requires n in states[i].active && IsKind(states[i].entries, n, Compute)
    ensures
      var s := states[i];
      && (n in s.store <==> AllPresent(s.store, s.entries[n].deps))
      && (n in s.store ==> Some(s.store[n]) == s.entries[n].impl.run(Args(s.store, s.entries[n].deps)))
  {
    RunsStayReachable(states, ops, i);
    ReachableIsConsistent(states[i]);
    ConsistentMeans(states[i].entries, states[i].active, states[i].store, n);
  }

  /** Incremental equals from scratch: after any run, throwing away every computed value and
      recomputing the whole active graph from its inputs gives back the same store. */
  lemma IncrementalEqualsScratch(states: seq<State>, ops: seq<Op>, i: nat, scratch: Store)
    requires Run(states, ops) && i < |states|
    requires
      var s := states[i];
      var computes := ActiveComputes(s.entries, s.active);
      Solves(s.entries, map[], computes, s.store - computes, scratch)
    ensures scratch == states[i].store
  {
    var s := states[i];
    RunsStayReachable(states, ops, i);
    ReachableIsConsistent(s);
    var rank: map<NodeId, nat>, bound: nat :| RankedBelow(s.entries, rank, bound);
    IncrementalIsFromScratch(s.entries, s.active, rank, s.store, scratch);
  }

  /** From a reachable state no cycle takes a value away. */
  lemma NothingRetracted(s: State, t: State, updates: Outputs, sorted: seq<NodeId>, n: NodeId)
    requires Reachable(s) && updates != [] && Allowed(s, Cycle(updates, false, sorted, sorted))
    requires Cycled(s, t, false, updates, sorted, sorted) && n in sorted
    ensures !Retracted(s.entries, s.strategies, Apply(s.store, updates), t.store, n)
  {
    var rank := CycleCoversDirty(s, Ids(updates), sorted);
    CycleIsFull(s, t, updates, false, sorted, sorted);
    ReachableIsConsistent(s);
    Applied(s.store, updates, n);
    assert n in Elems(sorted);
    if n in s.store {
      ConsistentIsSupported(s.entries, s.active, s.store);
      ValuesStay(s.entries, s.strategies, s.active, updates, Dirty(s.edges, Ids(updates)), rank,
                 s.store, t.store, n);
    }
  }

  /** From a reachable state the parallel cycle equals the sequential one under any error
      strategies, as long as no dirty node is async. */
  lemma ReachableParallelIsSequential(s: State, updates: Outputs,
                                      t: State, sorted: seq<NodeId>,
                                      u: State, sorted': seq<NodeId>, order: seq<NodeId>)
    requires Reachable(s) && updates != []
    requires Allowed(s, Cycle(updates, true, sorted', order))
    requires Cycled(s, t, false, updates, sorted, sorted) && Cycled(s, u, true, updates, sorted', order)
    ensures t == u
    ensures multiset(Handed(s.entries, Sink, sorted, t.store)) == multiset(Handed(s.entries, Sink, order, u.store))
  {
    var dirty, base := Dirty(s.edges, Ids(updates)), Apply(s.store, updates);
    DirtyIsActive(s, Ids(updates));
    var rank := CycleCoversDirty(s, Ids(updates), sorted);
    forall n | n in sorted ensures !WillRetract(s.entries, s.strategies, Elems(sorted), rank, base, n) {
      NothingRetracted(s, t, updates, sorted, n);
      RetractedAsForeseen(s.entries, s.strategies, Elems(sorted), rank, base, t.store, n);
    }
    ParallelIffNothingRetracted(s.entries, s.strategies, s.edges, dirty, base,
                                sorted, t.store, multiset(Handed(s.entries, Sink, sorted, t.store)),
                                sorted', order, u.store, multiset(Handed(s.entries, Sink, order, u.store)), rank);
  }

  // ----- propagation does not depend on results -----

  /** The sort covers the dirty set: no cycle and no lost reverse edge inside it. */
  ghost predicate Sortable(e: Edges, dirty: set<NodeId>) {
    !Cyclic(e.deps, dirty) && AllLinked(e, dirty)
  }

  /** Whatever a node's result, stale or not, everything linked to it is executed in the same
      cycle and after it. */
  lemma DependentsRunAnyway(s: State, t: State, updates: Outputs, sorted: seq<NodeId>, m: NodeId, n: NodeId)
    requires Invariant(s) && updates != [] && Cycled(s, t, false, updates, sorted, sorted)
    requires Sortable(s.edges, Dirty(s.edges, Ids(updates))) && m in sorted && s.edges.Linked(m, n)
    ensures exists i, j :: 0 <= i < j < |sorted| && sorted[i] == m && sorted[j] == n
    ensures IsKind(s.entries, n, Compute) ==>
              var answer := s.entries[n].impl.run(Args(t.store, s.entries[n].deps));
              Get(t.store, n) ==
              if answer.Some? then answer
              else if n in s.strategies && s.strategies[n].PropagateError? then None
              else Get(Apply(s.store, updates), n)
  {
    var dirty := Dirty(s.edges, Ids(updates));
    KahnCovers(s.edges, dirty, sorted);
    assert m in Elems(sorted);
    DirtyClosed(s.edges, Ids(updates), m, n);
    assert n in Elems(sorted);
    var j :| 0 <= j < |sorted| && sorted[j] == n;
    RunOrderPrefix(s.edges, dirty, sorted, j);
  }

  /** A node's result stops at the node exactly when nothing is linked to it. */
  lemma StopsIffNoDependents(s: State, t: State, updates: Outputs, sorted: seq<NodeId>, m: NodeId)
    requires Invariant(s) && updates != [] && Cycled(s, t, false, updates, sorted, sorted)
    requires Sortable(s.edges, Dirty(s.edges, Ids(updates))) && m in sorted
    ensures (forall n :: n in sorted ==> m !in s.edges.Deps(n)) <==> s.edges.Dependents(m) == []
  {
    var dirty := Dirty(s.edges, Ids(updates));
    KahnCovers(s.edges, dirty, sorted);
    assert m in Elems(sorted);
    if s.edges.Dependents(m) != [] {
      var n := s.edges.Dependents(m)[0];
      assert s.edges.Linked(m, n);
      DirtyClosed(s.edges, Ids(updates), m, n);
      assert n in Elems(sorted) && m in s.edges.Deps(n);
    } else {
      forall n | n in sorted ensures m !in s.edges.Deps(n) {
        assert n in Elems(sorted) && !s.edges.Linked(m, n);
      }
    }
  }

  /** Two consistent stores with the same inputs are the same store. */
  lemma ConsistentStoresAgree(entries: Entries, active: set<NodeId>, rank: map<NodeId, nat>, a: Store, b: Store)
    requires Consistent(entries, active, a) && Consistent(entries, active, b)
    requires Ranked(entries, ActiveComputes(entries, active), rank)
    requires forall n :: n !in ActiveComputes(entries, active) ==> Get(a, n) == Get(b, n)
    ensures a == b
  {
    var computes := ActiveComputes(entries, active);
    forall n ensures Get(b, n) == if n in computes && IsKind(entries, n, Compute)
      then Outcome(Strategy(map[], n), Answer(entries, b, n), Get(a - computes, n)) else Get(a - computes, n)
    {
    }
    IncrementalIsFromScratch(entries, active, rank, a, b);
  }

  // ----- batching in reachable states -----

  /** Some allowed cycle, sequential or parallel, leads from `s` to `t`. */
  ghost predicate CycledSomehow(s: State, t: State, updates: Outputs) {
    exists parallel, sorted, order ::
      Allowed(s, Cycle(updates, parallel, sorted, order)) && Cycled(s, t, parallel, updates, sorted, order)
  }

  /** A cycle changes the store only; whatever is not computed is what was last sent to it. */
  lemma CycledInputs(s: State, t: State, updates: Outputs)
    requires Reachable(s) && CycledSomehow(s, t, updates)
    ensures Reachable(t) && t == s.(store := t.store)
    ensures forall n :: n !in ActiveComputes(s.entries, s.active) ==> Get(t.store, n) == Get(Apply(s.store, updates), n)
  {
    var parallel, sorted, order :|
      Allowed(s, Cycle(updates, parallel, sorted, order)) && Cycled(s, t, parallel, updates, sorted, order);
    CycledIsReachable(s, t, updates, parallel, sorted, order);
    if updates != [] {
      CycleIsFull(s, t, updates, parallel, sorted, order);
      DirtyIsActive(s, Ids(updates));
    }
  }

  lemma InputOneMore(first: Store, updates: Outputs, i: nat, store: Store, n: NodeId)
    requires 0 < i <= |updates| && Get(store, n) == Get(Apply(first, updates[..i - 1]), n)
    ensures Get(Apply(store, [updates[i - 1]]), n) == Get(Apply(first, updates[..i]), n)
  {
    assert updates[..i] == updates[..i - 1] + [updates[i - 1]];
    ApplyAppends(first, updates[..i - 1], [updates[i - 1]]);
    InputTwice(store, Apply(first, updates[..i - 1]), [updates[i - 1]], n);
  }

  lemma {:induction false} OneByOneInputs(updates: Outputs, states: seq<State>, i: nat)
    requires |states| == |updates| + 1 && Reachable(states[0]) && i <= |updates|
    requires forall k :: 0 <= k < |updates| ==> CycledSomehow(states[k], states[k + 1], [updates[k]])
    ensures Reachable(states[i]) && states[i] == states[0].(store := states[i].store)
    ensures forall n :: n !in ActiveComputes(states[0].entries, states[0].active) ==>
              Get(states[i].store, n) == Get(Apply(states[0].store, updates[..i]), n)
  {
    if i > 0 {
      OneByOneInputs(updates, states, i - 1);
      assert CycledSomehow(states[i - 1], states[i - 1 + 1], [updates[i - 1]]);
      CycledInputs(states[i - 1], states[i], [updates[i - 1]]);
      forall n | n !in ActiveComputes(states[0].entries, states[0].active)
        ensures Get(states[i].store, n) == Get(Apply(states[0].store, updates[..i]), n)
      {
        InputOneMore(states[0].store, updates, i, states[i - 1].store, n);
      }
    }
  }

  /** Batching is transparent from every reachable state: one cycle on a queue of updates
      leaves the state that one cycle per update would have left, whichever of these cycles
      run in parallel and whatever the error strategies. */
  lemma BatchedIsOneByOne(updates: Outputs, states: seq<State>, batched: State)
    requires |states| == |updates| + 1 && Reachable(states[0])
    requires forall k :: 0 <= k < |updates| ==> CycledSomehow(states[k], states[k + 1], [updates[k]])
    requires CycledSomehow(states[0], batched, updates)
    ensures batched == states[|updates|]
  {
    var s, t := states[0], states[|updates|];
    OneByOneInputs(updates, states, |updates|);
    assert updates[..|updates|] == updates;
    CycledInputs(s, batched, updates);
    ReachableIsConsistent(t);
    ReachableIsConsistent(batched);
    var rank: map<NodeId, nat>, bound: nat :| RankedBelow(s.entries, rank, bound);
    ConsistentStoresAgree(s.entries, s.active, rank, batched.store, t.store);
  }

  // ----- any interleaving, allowed or not -----

  /** A run of operations under no restriction at all. */
  ghost predicate AnyRun(states: seq<State>, ops: seq<Op>) {
    |states| == |ops| + 1 && states[0] == EMPTY &&
    forall i :: 0 <= i < |ops| ==> Step(states[i], ops[i], states[i + 1])
  }

  lemma StepKeepsInvariant(s: State, op: Op, t: State)
    requires Invariant(s) && Step(s, op, t)
    ensures Invariant(t)
  {
    match op
    case Register(id, kind, deps, impl) => RegisteredKeepsInvariant(s, id, kind, deps, impl);
    case SetStrategy(_, _) =>
    case Activate(id) => ActivationKeepsInvariant(s, t, id);
    case Release(work) => ReleasedIsSurvivors(s, work);
    case Cycle(_, _, _, _) =>
  }

  /** The lifecycle invariant holds after any interleaving of registrations, activations,
      releases and cycles, also on cyclic graphs and with missing dependencies. */
  lemma {:induction false} InvariantAlways(states: seq<State>, ops: seq<Op>, i: nat)
    requires AnyRun(states, ops) && i < |states|
    ensures Invariant(states[i])
  {
    if i > 0 {
      InvariantAlways(states, ops, i - 1);
      assert Step(states[i - 1], ops[i - 1], states[i]);
      StepKeepsInvariant(states[i - 1], ops[i - 1], states[i]);
    }
  }

  /** The books of node `x` since its last insertion, kept from the operations alone: one for
      each registration, minus one for each direct release, minus one for each occurrence in
      the dependency list of each erased dependent. */
  ghost function Books(states: seq<State>, ops: seq<Op>, i: nat, x: NodeId): int
    requires |states| == |ops| + 1 && i < |states|
    decreases i
  {
    if i == 0 then 0 else
    var s, t := states[i - 1], states[i];
    match ops[i - 1]
    case Register(id, _, _, _) =>
      if id != x then Books(states, ops, i - 1, x)
      else if x in s.entries then Books(states, ops, i - 1, x) + 1 else 1
    case Release(work) =>
      if Counted(s.entries)
      then Books(states, ops, i - 1, x) - Demand(s.entries, work, Released(s, work).1, x) else 0
    case _ => Books(states, ops, i - 1, x)
  }

  /** The reference count of a registered node is what its books say, and at least one. */
  lemma {:induction false} RefCountTally(states: seq<State>, ops: seq<Op>, i: nat, x: NodeId)
    requires AnyRun(states, ops) && i < |states| && x in states[i].entries
    ensures states[i].entries[x].refCount == Books(states, ops, i, x) >= 1
  {
    InvariantAlways(states, ops, i);
    if i > 0 {
      var s, op, t := states[i - 1], ops[i - 1], states[i];
      InvariantAlways(states, ops, i - 1);
      assert Step(s, op, t);
      if x in s.entries {
        RefCountTally(states, ops, i - 1, x);
      }
      match op
      case Release(work) => SurvivesIffCountExceedsDemand(s, work, x);
      case _ =>
    }
  }

  /** The `k`-th operation inserted `x`, which has been registered ever since. */
  ghost predicate InsertedBy(states: seq<State>, ops: seq<Op>, k: nat, i: nat, x: NodeId)
    requires |states| == |ops| + 1
  {
    && k < i < |states| && ops[k].Register? && ops[k].id == x && x !in states[k].entries
    && forall j :: k < j <= i ==> x in states[j].entries
  }

  /** What `x` is: the kind, dependencies and implementation of the operation that inserted it. */
  ghost predicate IsAsInserted(states: seq<State>, ops: seq<Op>, k: nat, i: nat, x: NodeId)
    requires |states| == |ops| + 1
  {
    && InsertedBy(states, ops, k, i, x)
    && var entry := states[i].entries[x];
       entry.kind == ops[k].kind && entry.deps == ops[k].deps && entry.impl == ops[k].impl
  }

  /** A step changes nothing about a node that stays registered but its count. */
  lemma StepKeepsEntry(s: State, op: Op, t: State, x: NodeId)
    requires Invariant(s) && Step(s, op, t) && x in s.entries && x in t.entries
    ensures t.entries[x] == s.entries[x].(refCount := t.entries[x].refCount)
    ensures op.Register? && op.id != x ==> t.entries[x] == s.entries[x]
  {
    match op
    case Release(work) => SurvivesIffCountExceedsDemand(s, work, x);
    case _ =>
  }

  /** After any interleaving a registered node has exactly the kind, the dependencies in their
      order, and the implementation that it was last inserted with; registering it again changes
      none of them. */
  lemma {:induction false} EntryIsAsInserted(states: seq<State>, ops: seq<Op>, i: nat, x: NodeId) returns (k: nat)
    requires AnyRun(states, ops) && i < |states| && x in states[i].entries
    ensures IsAsInserted(states, ops, k, i, x)
  {
    var s, op, t := states[i - 1], ops[i - 1], states[i];
    assert Step(s, op, t);
    InvariantAlways(states, ops, i - 1);
    if x in s.entries {
      k := EntryIsAsInserted(states, ops, i - 1, x);
      StepKeepsEntry(s, op, t, x);
    } else {
      k := i - 1;
      if op.Release? {
        SurvivesIffCountExceedsDemand(s, op.work, x);
      }
    }
  }
}
