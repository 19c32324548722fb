/** Runs of the engine that show what its documentation or tests do not expect
    (src/engine.rs, src/error.rs, src/lib.rs). */
module Counterexamples {
  import opened Nodes
  import opened Topologies
  import opened Propagation
  import opened CycleLaws
  import opened Lifecycle
  import opened Activation
  import opened Runs

  lemma OneMoreStep(states: seq<State>, ops: seq<Op>, op: Op, t: State) returns (states': seq<State>, ops': seq<Op>)
    requires AnyRun(states, ops) && Step(states[|ops|], op, t)
    ensures AnyRun(states', ops') && states' == states + [t] && ops' == ops + [op] && Invariant(t)
  {
    states', ops' := states + [t], ops + [op];
    forall i | 0 <= i < |ops'| ensures Step(states'[i], ops'[i], states'[i + 1]) {
      if i < |ops| {
        assert states'[i] == states[i] && states'[i + 1] == states[i + 1] && ops'[i] == ops[i];
        assert Step(states[i], ops[i], states[i + 1]);
      }
    }
    InvariantAlways(states', ops', |ops'|);
  }

  lemma RegisterStep(states: seq<State>, ops: seq<Op>, id: NodeId, kind: NodeKind, deps: seq<NodeId>, impl: NodeImpl)
    returns (states': seq<State>, ops': seq<Op>)
    requires AnyRun(states, ops)
    ensures AnyRun(states', ops') && Invariant(states'[|ops'|])
    ensures states'[|ops'|] == Registered(states[|ops|], id, kind, deps, impl)
  {
    states', ops' := OneMoreStep(states, ops, Register(id, kind, deps, impl),
                                 Registered(states[|ops|], id, kind, deps, impl));
  }

  /** The state after activating a node whose dependencies are active. */
  ghost function ActivatedAlone(s: State, id: NodeId): State
    requires id in s.entries
  {
    Entered(s, id).(guards := if IsKind(s.entries, id, Source) && s.entries[id].impl.guarded
                              then s.guards + {id} else s.guards,
                    store := FirstValue(s.entries, s.store, id))
  }

  lemma ActivatesAlone(s: State, id: NodeId)
    requires Invariant(s) && id in s.entries && id !in s.active
    requires forall d :: d in s.entries[id].deps ==> d in s.active
    ensures Step(s, Activate(id), ActivatedAlone(s, id))
  {
    var u, t := Entered(s, id), ActivatedAlone(s, id);
    ActivatingStarts(s, id);
    assert Activating(s, u, id, |s.entries[id].deps|);
    ActivatingEnds(s, u, t, id);
    ValuesAtStart(s, id, {});
    ValuesAtEnd(s, u, t, id, {});
  }

  lemma ActivateStep(states: seq<State>, ops: seq<Op>, id: NodeId) returns (states': seq<State>, ops': seq<Op>)
    requires AnyRun(states, ops) && Invariant(states[|ops|])
    requires id in states[|ops|].entries && id !in states[|ops|].active
    requires forall d :: d in states[|ops|].entries[id].deps ==> d in states[|ops|].active
    ensures AnyRun(states', ops') && Invariant(states'[|ops'|])
    ensures states'[|ops'|] == ActivatedAlone(states[|ops|], id)
  {
    ActivatesAlone(states[|ops|], id);
    states', ops' := OneMoreStep(states, ops, Activate(id), ActivatedAlone(states[|ops|], id));
  }

  // ----- a shared node that is lost -----

  /** Two subgraphs, each a sink on one shared source, are registered and active. */
  ghost predicate Sharing(s: State, shared: NodeId, one: NodeId, two: NodeId) {
    && {shared, one, two} <= s.entries.Keys && {shared, one, two} <= s.active
    && s.entries[shared].refCount == 2 && s.entries[shared].deps == []
    && s.entries[one].refCount == 1 && s.entries[one].deps == [shared] && s.entries[two].deps == [shared]
  }

  lemma SharingIsReached(shared: NodeId, one: NodeId, two: NodeId, impl: NodeImpl)
    returns (states: seq<State>, ops: seq<Op>)
    requires shared != one && shared != two && one != two
    ensures AnyRun(states, ops) && Invariant(states[|ops|]) && Sharing(states[|ops|], shared, one, two)
  {
    states, ops := RegisterStep([EMPTY], [], shared, Source, [], impl);
    states, ops := RegisterStep(states, ops, one, Sink, [shared], impl);
    states, ops := RegisterStep(states, ops, shared, Source, [], impl);
    states, ops := RegisterStep(states, ops, two, Sink, [shared], impl);
    states, ops := ActivateStep(states, ops, shared);
    states, ops := ActivateStep(states, ops, one);
    states, ops := ActivateStep(states, ops, two);
  }

  /** Removing the first subgraph, its ids in reverse, erases the source, while the second's
      active sink still depends on it. */
  lemma SharedSourceIsLost(shared: NodeId, one: NodeId, two: NodeId, impl: NodeImpl)
    returns (states: seq<State>, ops: seq<Op>)
    requires shared != one && shared != two && one != two
    ensures AnyRun(states, ops) && |ops| >= 1 && ops[|ops| - 1] == Release([one, shared])
    ensures Sharing(states[|ops| - 1], shared, one, two)
    ensures
      var t := states[|ops|];
      shared !in t.entries && two in t.active && two in t.entries && t.entries[two].deps == [shared]
  {
    states, ops := SharingIsReached(shared, one, two, impl);
    var s := states[|ops|];
    var t := Released(s, [one, shared]).0;
    SharedNodeIsLost(s, shared, one, two);
    ReleasedIsSurvivors(s, [one, shared]);
    states, ops := OneMoreStep(states, ops, Release([one, shared]), t);
  }

  // ----- a node that has lost a dependency -----

  predicate Distinct(a: NodeId, b: NodeId, n: NodeId, k: NodeId) {
    a != b && a != n && a != k && b != n && b != k && n != k
  }

  /** The compute node `n` has a value and reads `a` and `b`, of which `b` has been erased; the sink
      `k` reads `n`. */
  ghost predicate LeftWithout(s: State, a: NodeId, b: NodeId, n: NodeId, k: NodeId, impl: NodeImpl,
                              strategy: ErrorStrategy) {
    && a in s.entries && n in s.entries && k in s.entries && b !in s.entries
    && s.entries[a].kind == Source && s.entries[a].deps == []
    && s.entries[n].kind == Compute && s.entries[n].deps == [a, b] && s.entries[n].impl == impl
    && s.entries[k].kind == Sink && s.entries[k].deps == [n] && s.entries[k].impl == impl
    && (forall x, y :: s.edges.Linked(x, y) <==> (x == a && y == n) || (x == n && y == k))
    && s.edges.Deps(n) == [a, b] && s.edges.Deps(k) == [n]
    && a in s.store && n in s.store && b !in s.store && Strategy(s.strategies, n) == strategy
  }

  ghost predicate AllRegistered(entries: Entries, a: NodeId, b: NodeId, n: NodeId, k: NodeId, impl: NodeImpl) {
    && entries.Keys == {a, b, n, k}
    && entries[a] == Entry(Source, [], 1, impl) && entries[b] == Entry(Source, [], 1, impl)
    && entries[n] == Entry(Compute, [a, b], 1, impl) && entries[k] == Entry(Sink, [n], 1, impl)
  }

  ghost predicate NoLinks(e: Edges) {
    forall x, y :: !e.Linked(x, y)
  }

  ghost predicate FullyLinked(e: Edges, a: NodeId, b: NodeId, n: NodeId, k: NodeId) {
    && (forall x, y :: e.Linked(x, y) <==> ((x == a || x == b) && y == n) || (x == n && y == k))
    && e.Deps(n) == [a, b] && e.Deps(k) == [n]
  }

  lemma SourceEdges(e: Edges, a: NodeId, b: NodeId)
    requires a != b && e.Coherent() && NoLinks(e) && a !in e.deps && b !in e.deps
    ensures NoLinks(Added(Added(e, a, []), b, []))
  {
    AddedEdges(e, a, []);
    AddedEdges(Added(e, a, []), b, []);
  }

  lemma NodeEdges(e: Edges, a: NodeId, b: NodeId, n: NodeId, k: NodeId)
    requires n != k && e.Coherent() && NoLinks(e) && n !in e.deps && k !in e.deps
    ensures FullyLinked(Added(Added(e, n, [a, b]), k, [n]), a, b, n, k)
  {
    AddedEdges(e, n, [a, b]);
    AddedEdges(Added(e, n, [a, b]), k, [n]);
  }

  /** Four registered nodes of which none is active; the two sources have values. */
  ghost predicate Prepared(s: State, a: NodeId, b: NodeId, n: NodeId, k: NodeId, impl: NodeImpl,
                           strategy: ErrorStrategy) {
    && AllRegistered(s.entries, a, b, n, k, impl)
    && s.active == {} && s.edges == EMPTY.edges && s.store.Keys == {a, b} && Strategy(s.strategies, n) == strategy
  }

  /** A cycle while nothing is active only stores the values. */
  lemma IdleCycle(s: State, updates: Outputs)
    requires s.edges == EMPTY.edges && updates != []
    ensures Step(s, Cycle(updates, false, [], []), s.(store := Apply(s.store, updates)))
  {
    var ids := Ids(updates);
    forall x ensures x !in Dirty(s.edges, ids) {
      if x in Dirty(s.edges, ids) {
        DownstreamLeast(s.edges, ids, x, {});
      }
    }
    assert Dirty(s.edges, ids) == {};
    assert Elems([]) == {};
  }

  lemma PreparedIsReached(a: NodeId, b: NodeId, n: NodeId, k: NodeId, v: Value, impl: NodeImpl, strategy: ErrorStrategy)
    returns (states: seq<State>, ops: seq<Op>)
    requires Distinct(a, b, n, k)
    ensures AnyRun(states, ops) && Invariant(states[|ops|]) && Prepared(states[|ops|], a, b, n, k, impl, strategy)
  {
    states, ops := RegisterStep([EMPTY], [], a, Source, [], impl);
    states, ops := RegisterStep(states, ops, b, Source, [], impl);
    states, ops := RegisterStep(states, ops, n, Compute, [a, b], impl);
    states, ops := RegisterStep(states, ops, k, Sink, [n], impl);
    var s := states[|ops|];
    states, ops := OneMoreStep(states, ops, SetStrategy(n, strategy), s.(strategies := s.strategies[n := strategy]));
    s := states[|ops|];
    IdleCycle(s, [(a, v), (b, v)]);
    TwoUpdates(s.store, a, b, v);
    states, ops := OneMoreStep(states, ops, Cycle([(a, v), (b, v)], false, [], []),
                               s.(store := Apply(s.store, [(a, v), (b, v)])));
  }

  lemma OneUpdate(store: Store, a: NodeId, v: Value)
    ensures Ids([(a, v)]) == {a} && Apply(store, [(a, v)]) == store[a := v]
  {
    var updates := [(a, v)];
    assert updates[..0] == [];
    assert updates[0] in updates;
  }

  lemma TwoUpdates(store: Store, a: NodeId, b: NodeId, v: Value)
    ensures Apply(store, [(a, v), (b, v)]) == store[a := v][b := v]
  {
    var updates := [(a, v), (b, v)];
    OneUpdate(store, a, v);
    assert updates[..|updates| - 1] == [(a, v)];
    assert Apply(store, updates) == Apply(store, [(a, v)])[b := v];
  }

  /** All four nodes are active and `n` has its first value. */
  ghost predicate AllActive(s: State, a: NodeId, b: NodeId, n: NodeId, k: NodeId, impl: NodeImpl,
                            strategy: ErrorStrategy) {
    && AllRegistered(s.entries, a, b, n, k, impl)
    && FullyLinked(s.edges, a, b, n, k) && s.store.Keys == {a, b, n} && Strategy(s.strategies, n) == strategy
  }

  /** The two sources are active. */
  ghost predicate SourcesActive(s: State, a: NodeId, b: NodeId, n: NodeId, k: NodeId, impl: NodeImpl,
                                strategy: ErrorStrategy) {
    && AllRegistered(s.entries, a, b, n, k, impl)
    && s.active == {a, b} && NoLinks(s.edges)
    && s.store.Keys == {a, b} && Strategy(s.strategies, n) == strategy
  }

  lemma SourcesActiveIsReached(a: NodeId, b: NodeId, n: NodeId, k: NodeId, v: Value, impl: NodeImpl,
                               strategy: ErrorStrategy)
    returns (states: seq<State>, ops: seq<Op>)
    requires Distinct(a, b, n, k)
    ensures AnyRun(states, ops) && Invariant(states[|ops|])
    ensures SourcesActive(states[|ops|], a, b, n, k, impl, strategy)
  {
    states, ops := PreparedIsReached(a, b, n, k, v, impl, strategy);
    SourcesActivated(states[|ops|], a, b, n, k, impl, strategy);
    states, ops := ActivateStep(states, ops, a);
    states, ops := ActivateStep(states, ops, b);
  }

  lemma SourcesActivated(s: State, a: NodeId, b: NodeId, n: NodeId, k: NodeId, impl: NodeImpl, strategy: ErrorStrategy)
    requires Distinct(a, b, n, k) && s.edges.Coherent() && s.edges.deps.Keys == s.active
    requires Prepared(s, a, b, n, k, impl, strategy)
    ensures b in ActivatedAlone(s, a).entries && b !in ActivatedAlone(s, a).active
    ensures SourcesActive(ActivatedAlone(ActivatedAlone(s, a), b), a, b, n, k, impl, strategy)
  {
    SourceEdges(s.edges, a, b);
  }

  lemma NodesActivated(s: State, a: NodeId, b: NodeId, n: NodeId, k: NodeId, impl: NodeImpl, strategy: ErrorStrategy)
    requires Distinct(a, b, n, k) && Strict(impl) && s.edges.Coherent() && s.edges.deps.Keys == s.active
    requires SourcesActive(s, a, b, n, k, impl, strategy)
    ensures k in ActivatedAlone(s, n).entries
    ensures AllActive(ActivatedAlone(ActivatedAlone(s, n), k), a, b, n, k, impl, strategy)
  {
    NodeEdges(s.edges, a, b, n, k);
    StrictResult(impl, s.store, [a, b]);
    assert ActivatedAlone(s, n).store.Keys == {a, b, n};
  }

  lemma AllActiveIsReached(a: NodeId, b: NodeId, n: NodeId, k: NodeId, v: Value, impl: NodeImpl,
                           strategy: ErrorStrategy)
    returns (states: seq<State>, ops: seq<Op>)
    requires Distinct(a, b, n, k) && Strict(impl)
    ensures AnyRun(states, ops) && Invariant(states[|ops|])
    ensures AllActive(states[|ops|], a, b, n, k, impl, strategy)
  {
    states, ops := SourcesActiveIsReached(a, b, n, k, v, impl, strategy);
    NodesActivated(states[|ops|], a, b, n, k, impl, strategy);
    states, ops := ActivateStep(states, ops, n);
    states, ops := ActivateStep(states, ops, k);
  }

  lemma LeftWithoutIsReached(a: NodeId, b: NodeId, n: NodeId, k: NodeId, v: Value, impl: NodeImpl,
                             strategy: ErrorStrategy)
    returns (states: seq<State>, ops: seq<Op>)
    requires Distinct(a, b, n, k) && Strict(impl)
    ensures AnyRun(states, ops) && Invariant(states[|ops|]) && LeftWithout(states[|ops|], a, b, n, k, impl, strategy)
  {
    states, ops := AllActiveIsReached(a, b, n, k, v, impl, strategy);
    var s := states[|ops|];
    ReleasedOne(s, b);
    assert Released(Dropped(s, b), []).0 == Dropped(s, b);
    SourceErased(s, a, b, n, k, impl, strategy);
    states, ops := OneMoreStep(states, ops, Release([b]), Dropped(s, b));
  }

  lemma SourceErased(s: State, a: NodeId, b: NodeId, n: NodeId, k: NodeId, impl: NodeImpl, strategy: ErrorStrategy)
    requires Distinct(a, b, n, k) && s.edges.Coherent() && AllActive(s, a, b, n, k, impl, strategy)
    ensures LeftWithout(Dropped(s, b), a, b, n, k, impl, strategy)
  {
    RemovedEdges(s.edges, b);
  }

  // ----- what the strategies do there -----

  lemma LeftWithoutIsSorted(s: State, a: NodeId, b: NodeId, n: NodeId, k: NodeId, impl: NodeImpl,
                            strategy: ErrorStrategy)
    requires Distinct(a, b, n, k) && Invariant(s) && LeftWithout(s, a, b, n, k, impl, strategy)
    ensures Dirty(s.edges, {a}) == {n, k} && KahnOrder(s.edges, {n, k}, [n, k]) && Elems([n, k]) == {n, k}
  {
    var e := s.edges;
    assert e.Linked(a, n) && e.Linked(n, k);
    DirtyClosed(e, {a}, a, n);
    DirtyClosed(e, {a}, n, k);
    forall x | x in Dirty(e, {a}) ensures x in {n, k} { DownstreamLeast(e, {a}, x, {n, k}); }
    assert [] + [n] == [n] && [n] + [k] == [n, k];
    RunOrderExtends(e, {n, k}, [], n);
    RunOrderExtends(e, {n, k}, [n], k);
  }

  /** After an update of `a` the node `n` has no answer; the sink answers as long as `n` has a
      value. */
  lemma LeftWithoutAnswers(s: State, a: NodeId, b: NodeId, n: NodeId, k: NodeId, impl: NodeImpl,
                           strategy: ErrorStrategy, store: Store)
    requires Distinct(a, b, n, k) && Strict(impl) && LeftWithout(s, a, b, n, k, impl, strategy)
    requires b !in store
    ensures Answer(s.entries, store, n).None?
    ensures n in store <==> Answer(s.entries, store, k).Some?
  {
    StrictResult(impl, store, [a, b]);
    StrictResult(impl, store, [n]);
    assert b in [a, b] && n in [n];
  }

  /** The executors differ: when `a` is updated, the sequential one deletes the value of a
      `PropagateError` node whose other dependency is gone; the waves, which know no strategies,
      keep it. */
  lemma StrategyMatters(a: NodeId, b: NodeId, n: NodeId, k: NodeId, v: Value, impl: NodeImpl)
    returns (states: seq<State>, ops: seq<Op>, t: State, u: State)
    requires Distinct(a, b, n, k) && Strict(impl)
    ensures AnyRun(states, ops) && n in states[|ops|].store
    ensures Cycled(states[|ops|], t, false, [(a, v)], [n, k], [n, k]) && n !in t.store
    ensures Cycled(states[|ops|], u, true, [(a, v)], [n, k], [n, k])
    ensures n in u.store && u.store[n] == states[|ops|].store[n]
  {
    states, ops := LeftWithoutIsReached(a, b, n, k, v, impl, PropagateError);
    var s := states[|ops|];
    var base := s.store[a := v];
    OneUpdate(s.store, a, v);
    LeftWithoutIsSorted(s, a, b, n, k, impl, PropagateError);
    LeftWithoutAnswers(s, a, b, n, k, impl, PropagateError, base);
    LeftWithoutAnswers(s, a, b, n, k, impl, PropagateError, base - {n});
    t, u := s.(store := base - {n}), s.(store := base);
  }

  lemma OnlyTheSinkEmits(entries: Entries, store: Store, n: NodeId, k: NodeId)
    requires IsKind(entries, n, Compute) && IsKind(entries, k, Sink) && Answer(entries, store, k).Some?
    ensures Handed(entries, Sink, [n, k], store) == [(k, Answer(entries, store, k).value)]
  {
    assert [] + [n] == [n] && [n] + [k] == [n, k];
    HandedOneMore(entries, Sink, [], n, store);
    HandedOneMore(entries, Sink, [n], k, store);
  }

  /** A stale value is propagated: under the default strategy the node keeps the value it can no
      longer compute, and its sink is called with it again. */
  lemma StaleValuePropagates(a: NodeId, b: NodeId, n: NodeId, k: NodeId, v: Value, impl: NodeImpl)
    returns (states: seq<State>, ops: seq<Op>, t: State, payload: Value)
    requires Distinct(a, b, n, k) && Strict(impl)
    ensures AnyRun(states, ops) && n in states[|ops|].store && n in states[|ops|].entries
    ensures Strategy(states[|ops|].strategies, n) == PropagateStale
    ensures Cycled(states[|ops|], t, false, [(a, v)], [n, k], [n, k])
    ensures Answer(states[|ops|].entries, t.store, n).None? && Get(t.store, n) == Get(states[|ops|].store, n)
    ensures Handed(states[|ops|].entries, Sink, [n, k], t.store) == [(k, payload)]
  {
    states, ops := LeftWithoutIsReached(a, b, n, k, v, impl, PropagateStale);
    var s := states[|ops|];
    var base := s.store[a := v];
    OneUpdate(s.store, a, v);
    LeftWithoutIsSorted(s, a, b, n, k, impl, PropagateStale);
    LeftWithoutAnswers(s, a, b, n, k, impl, PropagateStale, base);
    OnlyTheSinkEmits(s.entries, base, n, k);
    t, payload := s.(store := base), Answer(s.entries, base, k).value;
  }
}
