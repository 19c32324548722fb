/** Laws of whole cycles: order independence, parallel against sequential execution,
    incremental against full recomputation, and batching. */
module CycleLaws {
  import opened Nodes
  import opened Topologies
  import opened Propagation

  // ----- the two executors, as relations -----

  /** A cycle of the sequential executor over some order the sort may return. */
  ghost predicate Sequential(entries: Entries, strategies: Strategies, e: Edges, dirty: set<NodeId>,
                             order: seq<NodeId>, before: Store, after: Store, emitted: multiset<(NodeId, Value)>) {
    && KahnOrder(e, dirty, order)
    && Solves(entries, strategies, Elems(order), before, after)
    && emitted == multiset(Handed(entries, Sink, order, after))
  }

  /** The order in which the waves execute sorted nodes: no async node, and no other sorted
      node is left behind once its dirty dependencies have run. */
  ghost predicate WaveOrder(entries: Entries, e: Edges, dirty: set<NodeId>, sorted: seq<NodeId>,
                            order: seq<NodeId>) {
    && RunOrder(e, dirty, order)
    && (forall n :: n in order ==> n in sorted && !IsKind(entries, n, AsyncCompute))
    && (forall n {:trigger Settled(e, dirty, order, n)} ::
          n in sorted && !IsKind(entries, n, AsyncCompute) && Settled(e, dirty, order, n) ==> n in order)
  }

  /** A cycle of the wave executor, which knows no error strategies. */
  ghost predicate Parallel(entries: Entries, e: Edges, dirty: set<NodeId>, sorted: seq<NodeId>,
                           order: seq<NodeId>, before: Store, after: Store, emitted: multiset<(NodeId, Value)>) {
    && KahnOrder(e, dirty, sorted) && WaveOrder(entries, e, dirty, sorted, order)
    && Solves(entries, map[], Elems(order), before, after)
    && emitted == multiset(Handed(entries, Sink, order, after))
  }

  // ----- order independence -----

  lemma HandedPermuted(entries: Entries, kind: NodeKind, o1: seq<NodeId>, o2: seq<NodeId>, store: Store)
    requires NoDup(o1) && NoDup(o2) && Elems(o1) == Elems(o2)
    ensures multiset(Handed(entries, kind, o1, store)) == multiset(Handed(entries, kind, o2, store))
  {
    var m1, m2 := multiset(Handed(entries, kind, o1, store)), multiset(Handed(entries, kind, o2, store));
    forall p | p in m1 + m2 ensures m1[p] == m2[p] {
      HandedOnce(entries, kind, o1, store, p.0, p.1);
      HandedOnce(entries, kind, o2, store, p.0, p.1);
      assert p.0 in Elems(o1) <==> p.0 in Elems(o2);
    }
    assert m1 <= m2 && m2 <= m1;
  }

  lemma SameRun(e: Edges, dirty: set<NodeId>, o1: seq<NodeId>, o2: seq<NodeId>)
    requires KahnOrder(e, dirty, o1) && KahnOrder(e, dirty, o2)
    ensures Elems(o1) == Elems(o2) && NoDup(o1) && NoDup(o2)
  {
    KahnSameNodes(e, dirty, o1, o2);
    KahnSameNodes(e, dirty, o2, o1);
    RunOrderElems(e, dirty, o1);
    RunOrderElems(e, dirty, o2);
  }

  /** Hash map order cannot be observed: whichever order the sort returns, the cycle leaves
      the same store and makes the same emissions. */
  lemma Confluence(entries: Entries, strategies: Strategies, e: Edges, dirty: set<NodeId>, before: Store,
                   o1: seq<NodeId>, after1: Store, emitted1: multiset<(NodeId, Value)>,
                   o2: seq<NodeId>, after2: Store, emitted2: multiset<(NodeId, Value)>)
    requires DepsAgree(entries, e, dirty)
    requires Sequential(entries, strategies, e, dirty, o1, before, after1, emitted1)
    requires Sequential(entries, strategies, e, dirty, o2, before, after2, emitted2)
    ensures after1 == after2 && emitted1 == emitted2
  {
    SameRun(e, dirty, o1, o2);
    UniqueSolution(entries, strategies, e, dirty, o1, before, after1, after2);
    HandedPermuted(entries, Sink, o1, o2, after1);
  }

  /** No glitches: each dirty node runs at one point, after all its dirty dependencies; the
      result it leaves is its outcome for the end-of-cycle values of its dependencies, so
      nothing it read changed later; a sink emits once if those values call for it, with
      exactly the payload they call for, and otherwise not at all. */
  lemma GlitchFree(entries: Entries, strategies: Strategies, e: Edges, dirty: set<NodeId>, order: seq<NodeId>,
                   before: Store, after: Store, emitted: multiset<(NodeId, Value)>, i: nat, payload: Value)
    requires Sequential(entries, strategies, e, dirty, order, before, after, emitted) && i < |order|
    ensures order[i] !in order[..i] && order[i] !in order[i + 1..]
    ensures forall d :: d in e.Deps(order[i]) && d in dirty ==> d in order[..i]
    ensures IsKind(entries, order[i], Compute) ==>
              Get(after, order[i]) ==
              Outcome(Strategy(strategies, order[i]), Answer(entries, after, order[i]), Get(before, order[i]))
    ensures emitted[(order[i], payload)] ==
            if IsKind(entries, order[i], Sink) && Answer(entries, after, order[i]) == Some(payload) then 1 else 0
  {
    RunOrderPrefix(e, dirty, order, i);
    RunOrderElems(e, dirty, order);
    assert order[i] in Elems(order);
    HandedOnce(entries, Sink, order, after, order[i], payload);
  }

  // ----- parallel against sequential -----

  /** Without async nodes the waves run exactly the sorted nodes. */
  lemma WavesRunAll(entries: Entries, e: Edges, dirty: set<NodeId>, sorted: seq<NodeId>, order: seq<NodeId>)
    requires KahnOrder(e, dirty, sorted) && WaveOrder(entries, e, dirty, sorted, order)
    requires forall n :: n in dirty ==> !IsKind(entries, n, AsyncCompute)
    ensures KahnOrder(e, dirty, order)
  {
    RunOrderElems(e, dirty, sorted);
    forall n | n in dirty && Settled(e, dirty, order, n) ensures n in order {
      assert Settled(e, dirty, sorted, n);
      assert n in Elems(sorted);
    }
  }

  /** Executing `ran` from `before` will make `n` lose its value under its own strategy: it uses
      `PropagateError`, it has a value, and it has no answer to what it will read. */
  ghost predicate WillRetract(entries: Entries, strategies: Strategies, ran: set<NodeId>, rank: map<NodeId, nat>,
                              before: Store, n: NodeId)
    requires Ranked(entries, ran, rank)
  {
    IsKind(entries, n, Compute) && Strategy(strategies, n).PropagateError? && n in before &&
    entries[n].impl.run(MeaningArgs(entries, strategies, ran, rank, before, n)).None?
  }

  /** The same, seen from the end of the cycle. */
  ghost predicate Retracted(entries: Entries, strategies: Strategies, before: Store, after: Store, n: NodeId) {
    IsKind(entries, n, Compute) && Strategy(strategies, n).PropagateError? &&
    Answer(entries, after, n).None? && n in before
  }

  lemma RetractedAsForeseen(entries: Entries, strategies: Strategies, ran: set<NodeId>, rank: map<NodeId, nat>,
                            before: Store, after: Store, n: NodeId)
    requires Ranked(entries, ran, rank) && Solves(entries, strategies, ran, before, after)
    ensures Retracted(entries, strategies, before, after, n) <==>
            WillRetract(entries, strategies, ran, rank, before, n)
  {
    if n in entries {
      AnswerIsMeaning(entries, strategies, ran, rank, before, after, n);
    }
  }

  lemma StrategiesIgnored(entries: Entries, strategies: Strategies, ran: set<NodeId>, before: Store, after: Store)
    requires forall n :: n in ran ==> !Retracted(entries, strategies, before, after, n)
    ensures Solves(entries, strategies, ran, before, after) <==> Solves(entries, map[], ran, before, after)
  {
    assert forall n :: n in ran && IsKind(entries, n, Compute) ==>
      Outcome(Strategy(strategies, n), Answer(entries, after, n), Get(before, n)) ==
      Outcome(Strategy(map[], n), Answer(entries, after, n), Get(before, n));
  }

  lemma NotBothWays(entries: Entries, strategies: Strategies, ran: set<NodeId>, before: Store, after: Store, n: NodeId)
    requires Solves(entries, strategies, ran, before, after) && Solves(entries, map[], ran, before, after)
    requires n in ran
    ensures !Retracted(entries, strategies, before, after, n)
  {
    assert IsKind(entries, n, Compute) ==>
      Get(after, n) == Outcome(Strategy(map[], n), Answer(entries, after, n), Get(before, n));
  }

  /** With no dirty async node, the two executors leave the same store exactly when no node
      will lose its value under `PropagateError`, which is decided by the store before the
      cycle; for every order and every wave schedule. */
  lemma ParallelIffNothingRetracted(entries: Entries, strategies: Strategies, e: Edges, dirty: set<NodeId>,
                                    before: Store, seqOrder: seq<NodeId>, seqAfter: Store,
                                    seqEmitted: multiset<(NodeId, Value)>,
                                    sorted: seq<NodeId>, order: seq<NodeId>, parAfter: Store,
                                    parEmitted: multiset<(NodeId, Value)>, rank: map<NodeId, nat>)
    requires DepsAgree(entries, e, dirty) && Ranked(entries, Elems(seqOrder), rank)
    requires forall n :: n in dirty ==> !IsKind(entries, n, AsyncCompute)
    requires Sequential(entries, strategies, e, dirty, seqOrder, before, seqAfter, seqEmitted)
    requires Parallel(entries, e, dirty, sorted, order, before, parAfter, parEmitted)
    ensures seqAfter == parAfter <==>
            forall n :: n in seqOrder ==> !WillRetract(entries, strategies, Elems(seqOrder), rank, before, n)
    ensures seqAfter == parAfter ==> seqEmitted == parEmitted
  {
    forall n { RetractedAsForeseen(entries, strategies, Elems(seqOrder), rank, before, seqAfter, n); }
    WavesRunAll(entries, e, dirty, sorted, order);
    SameRun(e, dirty, seqOrder, order);
    var ran := Elems(order);
    if forall n :: n in seqOrder ==> !Retracted(entries, strategies, before, seqAfter, n) {
      StrategiesIgnored(entries, strategies, ran, before, seqAfter);
      UniqueSolution(entries, map[], e, dirty, order, before, seqAfter, parAfter);
    }
    if seqAfter == parAfter {
      forall n | n in seqOrder ensures !Retracted(entries, strategies, before, seqAfter, n) {
        assert n in ran;
        NotBothWays(entries, strategies, ran, before, seqAfter, n);
      }
    }
    HandedPermuted(entries, Sink, seqOrder, order, seqAfter);
  }

  /** Parallel refines sequential: same store and same emissions, for every wave order and
      every topological order, when no dirty node is async or uses PropagateError. */
  lemma ParallelRefinesSequential(entries: Entries, strategies: Strategies, e: Edges, dirty: set<NodeId>,
                                  before: Store, seqOrder: seq<NodeId>, seqAfter: Store,
                                  seqEmitted: multiset<(NodeId, Value)>,
                                  sorted: seq<NodeId>, order: seq<NodeId>, parAfter: Store,
                                  parEmitted: multiset<(NodeId, Value)>)
    requires DepsAgree(entries, e, dirty)
    requires forall n :: n in dirty ==>
               !IsKind(entries, n, AsyncCompute) && !Strategy(strategies, n).PropagateError?
    requires Sequential(entries, strategies, e, dirty, seqOrder, before, seqAfter, seqEmitted)
    requires Parallel(entries, e, dirty, sorted, order, before, parAfter, parEmitted)
    ensures seqAfter == parAfter && seqEmitted == parEmitted
  {
    RunOrderElems(e, dirty, seqOrder);
    assert forall n :: n in seqOrder ==> n in Elems(seqOrder);
    var rank := OrderIsRanked(entries, e, dirty, seqOrder);
    ParallelIffNothingRetracted(entries, strategies, e, dirty, before, seqOrder, seqAfter, seqEmitted,
                                sorted, order, parAfter, parEmitted, rank);
  }

  // ----- which nodes the waves execute -----

  /** A chain of dirty dependencies leads from a dirty async node to `n`. */
  ghost predicate BlockedBy(entries: Entries, e: Edges, dirty: set<NodeId>, n: NodeId, p: seq<NodeId>) {
    Chain(e.deps, dirty, p) && IsKind(entries, p[0], AsyncCompute) && p[|p| - 1] == n
  }

  ghost predicate Blocked(entries: Entries, e: Edges, dirty: set<NodeId>, n: NodeId) {
    exists p :: BlockedBy(entries, e, dirty, n, p)
  }

  lemma {:induction false} ChainWithinOrder(e: Edges, dirty: set<NodeId>, order: seq<NodeId>, p: seq<NodeId>)
    requires RunOrder(e, dirty, order) && Chain(e.deps, dirty, p) && p[|p| - 1] in order
    ensures p[0] in order
    decreases |p|
  {
    if |p| > 1 {
      var n, d := p[|p| - 1], p[|p| - 2];
      var i :| 0 <= i < |order| && order[i] == n;
      RunOrderPrefix(e, dirty, order, i);
      assert d in e.Deps(n) && d in order[..i];
      ChainWithinOrder(e, dirty, order, p[..|p| - 1]);
    }
  }

  lemma {:induction false} LeftBehindIsBlocked(entries: Entries, e: Edges, dirty: set<NodeId>,
                                               sorted: seq<NodeId>, order: seq<NodeId>, i: nat)
    requires RunOrder(e, dirty, sorted) && WaveOrder(entries, e, dirty, sorted, order) && AllLinked(e, dirty)
    requires i < |sorted| && sorted[i] !in order
    ensures Blocked(entries, e, dirty, sorted[i])
    decreases i
  {
    var n := sorted[i];
    RunOrderPrefix(e, dirty, sorted, i);
    if IsKind(entries, n, AsyncCompute) {
      assert BlockedBy(entries, e, dirty, n, [n]);
    } else {
      assert !Settled(e, dirty, order, n);
      var d :| d in e.Deps(n) && d in dirty && !(d in order && e.Linked(d, n));
      var j :| 0 <= j < i && sorted[j] == d;
      LeftBehindIsBlocked(entries, e, dirty, sorted, order, j);
      var p :| BlockedBy(entries, e, dirty, d, p);
      assert BlockedBy(entries, e, dirty, n, p + [n]);
    }
  }

  /** On an acyclic dirty set with all its reverse edges, the waves execute precisely the
      nodes that no dirty async node leads to; async nodes themselves count as led to. */
  lemma WaveRunSet(entries: Entries, e: Edges, dirty: set<NodeId>, sorted: seq<NodeId>, order: seq<NodeId>, n: NodeId)
    requires KahnOrder(e, dirty, sorted) && WaveOrder(entries, e, dirty, sorted, order)
    requires !Cyclic(e.deps, dirty) && AllLinked(e, dirty) && n in dirty
    ensures n in order <==> !Blocked(entries, e, dirty, n)
  {
    KahnCovers(e, dirty, sorted);
    if n in order {
      if p :| BlockedBy(entries, e, dirty, n, p) {
        ChainWithinOrder(e, dirty, order, p);
        assert false;
      }
    } else {
      assert n in Elems(sorted);
      var i :| 0 <= i < |sorted| && sorted[i] == n;
      LeftBehindIsBlocked(entries, e, dirty, sorted, order, i);
    }
  }

  // ----- where the executors agree when async nodes are dirty -----

  lemma {:induction false} WavesAgree(entries: Entries, strategies: Strategies, e: Edges, dirty: set<NodeId>,
                                      before: Store, seqOrder: seq<NodeId>, seqAfter: Store,
                                      order: seq<NodeId>, parAfter: Store, i: nat)
    requires DepsAgree(entries, e, dirty) && RunOrder(e, dirty, order) && i <= |order|
    requires RunOrder(e, dirty, seqOrder) && Elems(order) <= Elems(seqOrder)
    requires Solves(entries, strategies, Elems(seqOrder), before, seqAfter)
    requires Solves(entries, map[], Elems(order), before, parAfter)
    requires forall n :: n in order ==> !Retracted(entries, strategies, before, seqAfter, n)
    ensures forall n :: n in order[..i] ==> Get(seqAfter, n) == Get(parAfter, n)
  {
    if i > 0 {
      WavesAgree(entries, strategies, e, dirty, before, seqOrder, seqAfter, order, parAfter, i - 1);
      var n := order[i - 1];
      RunOrderPrefix(e, dirty, order, i - 1);
      RunOrderElems(e, dirty, seqOrder);
      assert n in Elems(order) && order[..i] == order[..i - 1] + [n];
      if IsKind(entries, n, Compute) {
        forall d | d in entries[n].deps ensures Get(seqAfter, d) == Get(parAfter, d) {
          assert d in dirty ==> d in order[..i - 1];
          assert d !in dirty ==> d !in Elems(seqOrder);
        }
        AnswerKept(entries, seqAfter, parAfter, n);
      }
    }
  }

  /** Even with dirty async nodes, on an acyclic dirty set with all its reverse edges the two
      executors leave different values only at nodes to which a dirty async node leads, as
      long as no node they both execute will lose its value under `PropagateError`. */
  lemma ExecutorsDifferOnlyBehindAsync(entries: Entries, strategies: Strategies, e: Edges, dirty: set<NodeId>,
                                       before: Store, seqOrder: seq<NodeId>, seqAfter: Store,
                                       seqEmitted: multiset<(NodeId, Value)>,
                                       sorted: seq<NodeId>, order: seq<NodeId>, parAfter: Store,
                                       parEmitted: multiset<(NodeId, Value)>, rank: map<NodeId, nat>, n: NodeId)
    requires DepsAgree(entries, e, dirty) && Ranked(entries, Elems(seqOrder), rank)
    requires !Cyclic(e.deps, dirty) && AllLinked(e, dirty)
    requires Sequential(entries, strategies, e, dirty, seqOrder, before, seqAfter, seqEmitted)
    requires Parallel(entries, e, dirty, sorted, order, before, parAfter, parEmitted)
    requires forall x :: x in dirty && !Blocked(entries, e, dirty, x) ==>
               !WillRetract(entries, strategies, Elems(seqOrder), rank, before, x)
    ensures Get(seqAfter, n) != Get(parAfter, n) ==> n in dirty && Blocked(entries, e, dirty, n)
  {
    SameRun(e, dirty, seqOrder, sorted);
    RunOrderElems(e, dirty, order);
    RunOrderElems(e, dirty, seqOrder);
    assert forall x :: x in Elems(order) ==> x in Elems(sorted);
    forall x | x in order ensures !Retracted(entries, strategies, before, seqAfter, x) {
      assert x in Elems(order);
      WaveRunSet(entries, e, dirty, sorted, order, x);
      RetractedAsForeseen(entries, strategies, Elems(seqOrder), rank, before, seqAfter, x);
    }
    WavesAgree(entries, strategies, e, dirty, before, seqOrder, seqAfter, order, parAfter, |order|);
    assert order[..|order|] == order;
    if n in dirty {
      WaveRunSet(entries, e, dirty, sorted, order, n);
    }
  }

  // ----- updates -----

  /** Draining the queue into the store: later updates of a node win. */
  function Apply(store: Store, updates: Outputs): Store {
    if updates == [] then store else
    var u := updates[|updates| - 1];
    Apply(store, updates[..|updates| - 1])[u.0 := u.1]
  }

  function Ids(updates: Outputs): set<NodeId> {
    set u | u in updates :: u.0
  }

  lemma {:induction false} Applied(store: Store, updates: Outputs, n: NodeId)
    ensures n !in Ids(updates) ==> Get(Apply(store, updates), n) == Get(store, n)
    ensures n in Ids(updates) ==> n in Apply(store, updates)
    ensures n in store ==> n in Apply(store, updates)
  {
    if updates != [] {
      var init, u := updates[..|updates| - 1], updates[|updates| - 1];
      Applied(store, init, n);
      assert updates == init + [u];
      assert n in Ids(updates) <==> n in Ids(init) || n == u.0 by {
        assert u in updates;
        if n in Ids(init) { var w :| w in init && w.0 == n; assert w in updates; }
      }
    }
  }

  /** The last update of a node is what the store holds afterwards. */
  lemma LastUpdateWins(store: Store, updates: Outputs, i: nat)
    requires i < |updates| && forall j :: i < j < |updates| ==> updates[j].0 != updates[i].0
    ensures Get(Apply(store, updates), updates[i].0) == Some(updates[i].1)
  {
    var before, after := updates[..i + 1], updates[i + 1..];
    assert before[..i] == updates[..i];
    assert updates == before + after;
    ApplyAppends(store, before, after);
    Applied(Apply(store, before), after, updates[i].0);
  }

  lemma {:induction false} ApplyAppends(store: Store, u: Outputs, w: Outputs)
    ensures Apply(store, u + w) == Apply(Apply(store, u), w)
  {
    if w == [] {
      assert u + w == u;
    } else {
      ApplyAppends(store, u, w[..|w| - 1]);
      assert (u + w)[..|u + w| - 1] == u + w[..|w| - 1];
    }
  }

  /** The dirty set as a value. */
  ghost function Dirty(e: Edges, ids: set<NodeId>): (dirty: set<NodeId>)
    ensures forall n :: n in dirty <==> Downstream(e, ids, n)
  {
    var names := Names(e.dependents);
    assert forall n :: Downstream(e, ids, n) ==> n in names by {
      forall n | Downstream(e, ids, n) ensures n in names { DownstreamLeast(e, ids, n, names); }
    }
    set n | n in names && Downstream(e, ids, n)
  }

  lemma DirtyClosed(e: Edges, ids: set<NodeId>, m: NodeId, n: NodeId)
    requires m in ids || m in Dirty(e, ids)
    requires e.Linked(m, n)
    ensures n in Dirty(e, ids)
  {
    DownstreamStep(e, ids, m, n);
  }

  /** The dirty set of a batch is the union of the dirty sets of its parts. */
  lemma DirtyUnion(e: Edges, i: set<NodeId>, j: set<NodeId>)
    ensures Dirty(e, i + j) == Dirty(e, i) + Dirty(e, j)
  {
    var d := Dirty(e, i) + Dirty(e, j);
    forall m, n | (m in i + j || m in d) && e.Linked(m, n) ensures n in d {
      if m in i || m in Dirty(e, i) { DirtyClosed(e, i, m, n); } else { DirtyClosed(e, j, m, n); }
    }
    forall n | n in Dirty(e, i + j) ensures n in d { DownstreamLeast(e, i + j, n, d); }
    forall m, n | (m in i + j || m in Dirty(e, i + j)) && e.Linked(m, n) ensures n in Dirty(e, i + j) {
      DirtyClosed(e, i + j, m, n);
    }
    forall n | n in d ensures n in Dirty(e, i + j) {
      if n in Dirty(e, i) {
        DownstreamLeast(e, i, n, Dirty(e, i + j));
      } else {
        DownstreamLeast(e, j, n, Dirty(e, i + j));
      }
    }
  }

  // ----- incremental recomputation equals recomputation from scratch -----

  /** Every active compute node holds exactly what its implementation answers now. */
  ghost predicate Consistent(entries: Entries, active: set<NodeId>, store: Store) {
    forall n :: n in active && IsKind(entries, n, Compute) ==> Get(store, n) == Answer(entries, store, n)
  }

  ghost predicate StrictNodes(entries: Entries, active: set<NodeId>) {
    forall n :: n in active && IsKind(entries, n, Compute) ==> Strict(entries[n].impl)
  }

  /** In the reader's terms: a value exactly when all dependencies have one. */
  lemma ConsistentMeans(entries: Entries, active: set<NodeId>, store: Store, n: NodeId)
    requires Consistent(entries, active, store) && StrictNodes(entries, active)
    requires n in active && IsKind(entries, n, Compute)
    ensures n in store <==> AllPresent(store, entries[n].deps)
    ensures n in store ==> Some(store[n]) == entries[n].impl.run(Args(store, entries[n].deps))
  {
    StrictResult(entries[n].impl, store, entries[n].deps);
  }

  /** Every dependency of an active node still announces its changes to it. */
  ghost predicate AllAnnounced(entries: Entries, e: Edges, active: set<NodeId>) {
    forall n, d :: n in active && n in entries && d in entries[n].deps ==> e.Linked(d, n)
  }

  /** A cycle over the whole dirty set of `updates`, from `before` to `after`. */
  ghost predicate FullCycle(entries: Entries, strategies: Strategies, e: Edges, updates: Outputs,
                            before: Store, after: Store) {
    Solves(entries, strategies, Dirty(e, Ids(updates)), Apply(before, updates), after)
  }

  ghost predicate InputsOnly(entries: Entries, updates: Outputs) {
    forall n :: n in Ids(updates) ==> !IsKind(entries, n, Compute)
  }

  /** Every active compute node that has a value reads values. */
  ghost predicate Supported(entries: Entries, active: set<NodeId>, store: Store) {
    forall n :: n in active && IsKind(entries, n, Compute) && n in store ==> AllPresent(store, entries[n].deps)
  }

  /** Every active compute node outside `lag` holds exactly what its implementation answers. */
  ghost predicate ConsistentBut(entries: Entries, active: set<NodeId>, store: Store, lag: set<NodeId>) {
    forall n :: n in active && n !in lag && IsKind(entries, n, Compute) ==> Get(store, n) == Answer(entries, store, n)
  }

  lemma ConsistentIsSupported(entries: Entries, active: set<NodeId>, store: Store)
    requires Consistent(entries, active, store) && StrictNodes(entries, active)
    ensures Supported(entries, active, store)
  {
    forall n | n in active && IsKind(entries, n, Compute) && n in store ensures AllPresent(store, entries[n].deps) {
      ConsistentMeans(entries, active, store, n);
    }
  }

  /** No strategy makes a value disappear in a cycle that starts supported, in particular in one
      that starts consistent. */
  lemma {:induction false} ValuesStay(entries: Entries, strategies: Strategies, active: set<NodeId>,
                                      updates: Outputs, ran: set<NodeId>, rank: map<NodeId, nat>,
                                      before: Store, after: Store, n: NodeId)
    requires Supported(entries, active, before) && StrictNodes(entries, active) && ran <= active
    requires Solves(entries, strategies, ran, Apply(before, updates), after)
    requires Ranked(entries, ran, rank) && InputsOnly(entries, updates) && n in before
    ensures n in after
    decreases if n in ran then rank[n] + 1 else 0
  {
    Applied(before, updates, n);
    if n in ran && IsKind(entries, n, Compute) {
      forall d | d in entries[n].deps ensures d in after {
        ValuesStay(entries, strategies, active, updates, ran, rank, before, after, d);
      }
      StrictResult(entries[n].impl, after, entries[n].deps);
    }
    assert Get(after, n).Some?;
  }

  /** A node whose dependencies a cycle leaves alone stays as consistent as it was. */
  lemma Undisturbed(entries: Entries, strategies: Strategies, e: Edges, active: set<NodeId>, updates: Outputs,
                    ran: set<NodeId>, before: Store, after: Store, n: NodeId)
    requires AllAnnounced(entries, e, active) && ran <= Dirty(e, Ids(updates)) && InputsOnly(entries, updates)
    requires Solves(entries, strategies, ran, Apply(before, updates), after)
    requires n in active && IsKind(entries, n, Compute) && n !in Dirty(e, Ids(updates))
    ensures Get(after, n) == Get(before, n) && Answer(entries, after, n) == Answer(entries, before, n)
  {
    Applied(before, updates, n);
    forall d | d in entries[n].deps ensures Get(after, d) == Get(before, d) {
      if d in Ids(updates) || d in Dirty(e, Ids(updates)) { DirtyClosed(e, Ids(updates), d, n); }
      Applied(before, updates, d);
    }
    AnswerKept(entries, before, after, n);
  }

  /** A node that a cycle executes is consistent afterwards, whatever its strategy. */
  lemma ExecutedIsConsistent(entries: Entries, strategies: Strategies, active: set<NodeId>, updates: Outputs,
                             ran: set<NodeId>, rank: map<NodeId, nat>, before: Store, after: Store, n: NodeId)
    requires Supported(entries, active, before) && StrictNodes(entries, active) && ran <= active
    requires Solves(entries, strategies, ran, Apply(before, updates), after)
    requires Ranked(entries, ran, rank) && InputsOnly(entries, updates) && n in ran && IsKind(entries, n, Compute)
    ensures Get(after, n) == Answer(entries, after, n)
  {
    Applied(before, updates, n);
    if n in before {
      forall d | d in entries[n].deps ensures d in after {
        ValuesStay(entries, strategies, active, updates, ran, rank, before, after, d);
      }
    }
    StrictResult(entries[n].impl, after, entries[n].deps);
  }

  /** What any cycle does, whichever of its dirty nodes it executes: the executed nodes become
      consistent, the other dirty ones may lag behind, and no node is left with a value that it
      can no longer compute. */
  lemma CycleSettles(entries: Entries, strategies: Strategies, e: Edges, active: set<NodeId>, updates: Outputs,
                     ran: set<NodeId>, rank: map<NodeId, nat>, lag: set<NodeId>, before: Store, after: Store)
    requires Supported(entries, active, before) && StrictNodes(entries, active) && AllAnnounced(entries, e, active)
    requires ConsistentBut(entries, active, before, lag)
    requires ran <= Dirty(e, Ids(updates)) <= active && Ranked(entries, ran, rank) && InputsOnly(entries, updates)
    requires Solves(entries, strategies, ran, Apply(before, updates), after)
    ensures Supported(entries, active, after)
    ensures ConsistentBut(entries, active, after, lag + Dirty(e, Ids(updates)) - ran)
  {
    forall n | n in active && IsKind(entries, n, Compute) && n in after ensures AllPresent(after, entries[n].deps) {
      if n in ran {
        ExecutedIsConsistent(entries, strategies, active, updates, ran, rank, before, after, n);
        StrictResult(entries[n].impl, after, entries[n].deps);
      } else {
        Applied(before, updates, n);
        forall d | d in entries[n].deps ensures d in after {
          ValuesStay(entries, strategies, active, updates, ran, rank, before, after, d);
        }
      }
    }
    forall n | n in active && n !in lag + Dirty(e, Ids(updates)) - ran && IsKind(entries, n, Compute)
      ensures Get(after, n) == Answer(entries, after, n)
    {
      if n in ran {
        ExecutedIsConsistent(entries, strategies, active, updates, ran, rank, before, after, n);
      } else {
        Undisturbed(entries, strategies, e, active, updates, ran, before, after, n);
      }
    }
  }

  /** Recomputing only the dirty nodes makes every active compute node consistent again,
      whatever the error strategies. */
  lemma CycleKeepsConsistent(entries: Entries, strategies: Strategies, e: Edges, active: set<NodeId>,
                             updates: Outputs, rank: map<NodeId, nat>, before: Store, after: Store)
    requires Consistent(entries, active, before) && StrictNodes(entries, active)
    requires AllAnnounced(entries, e, active) && Dirty(e, Ids(updates)) <= active
    requires Ranked(entries, Dirty(e, Ids(updates)), rank) && InputsOnly(entries, updates)
    requires FullCycle(entries, strategies, e, updates, before, after)
    ensures Consistent(entries, active, after)
  {
    ConsistentIsSupported(entries, active, before);
    CycleSettles(entries, strategies, e, active, updates, Dirty(e, Ids(updates)), rank, {}, before, after);
  }

  ghost function ActiveComputes(entries: Entries, active: set<NodeId>): set<NodeId> {
    set n | n in active && IsKind(entries, n, Compute)
  }

  /** A consistent store is what throwing every computed value away and recomputing the whole
      active graph from its inputs would give. */
  lemma IncrementalIsFromScratch(entries: Entries, active: set<NodeId>, rank: map<NodeId, nat>,
                                 store: Store, scratch: Store)
    requires Consistent(entries, active, store)
    requires Ranked(entries, ActiveComputes(entries, active), rank)
    requires Solves(entries, map[], ActiveComputes(entries, active),
                    store - ActiveComputes(entries, active), scratch)
    ensures scratch == store
  {
    var computes := ActiveComputes(entries, active);
    var inputs := store - computes;
    assert Solves(entries, map[], computes, inputs, store);
    forall n ensures Get(scratch, n) == Get(store, n) {
      SolvesIsMeaning(entries, map[], computes, rank, inputs, scratch, n);
      SolvesIsMeaning(entries, map[], computes, rank, inputs, store, n);
    }
    SameStore(scratch, store);
  }

  // ----- batching -----

  ghost predicate NeverRetracts(strategies: Strategies) {
    forall n :: !Strategy(strategies, n).PropagateError?
  }

  lemma StoreGrows(entries: Entries, strategies: Strategies, e: Edges, updates: Outputs,
                   before: Store, after: Store, n: NodeId)
    requires NeverRetracts(strategies) && FullCycle(entries, strategies, e, updates, before, after)
    requires n in before
    ensures n in after
  {
    Applied(before, updates, n);
    assert Get(after, n).Some?;
  }

  /** Two cycles in a row satisfy the equations of one cycle on both batches of updates. */
  lemma TwoCyclesAreOne(entries: Entries, strategies: Strategies, e: Edges, active: set<NodeId>,
                        u: Outputs, w: Outputs, before: Store, middle: Store, after: Store)
    requires NeverRetracts(strategies) && StrictNodes(entries, active) && AllAnnounced(entries, e, active)
    requires Dirty(e, Ids(u + w)) <= active && InputsOnly(entries, u + w)
    requires FullCycle(entries, strategies, e, u, before, middle)
    requires FullCycle(entries, strategies, e, w, middle, after)
    ensures FullCycle(entries, strategies, e, u + w, before, after)
  {
    var first, second, both := Dirty(e, Ids(u)), Dirty(e, Ids(w)), Dirty(e, Ids(u + w));
    assert Ids(u + w) == Ids(u) + Ids(w);
    DirtyUnion(e, Ids(u), Ids(w));
    ApplyAppends(before, u, w);
    forall n ensures Get(after, n) ==
      if n in both && IsKind(entries, n, Compute)
      then Outcome(Strategy(strategies, n), Answer(entries, after, n), Get(Apply(before, u + w), n))
      else Get(Apply(before, u + w), n)
    {
      if n in both && IsKind(entries, n, Compute) {
        ComputedTwice(entries, strategies, e, active, u, w, before, middle, after, n);
      } else {
        InputTwice(middle, Apply(before, u), w, n);
      }
    }
  }

  lemma {:induction false} InputTwice(s: Store, t: Store, w: Outputs, n: NodeId)
    requires Get(s, n) == Get(t, n)
    ensures Get(Apply(s, w), n) == Get(Apply(t, w), n)
  {
    if w != [] {
      InputTwice(s, t, w[..|w| - 1], n);
    }
  }

  lemma ComputedTwice(entries: Entries, strategies: Strategies, e: Edges, active: set<NodeId>,
                      u: Outputs, w: Outputs, before: Store, middle: Store, after: Store, n: NodeId)
    requires NeverRetracts(strategies) && StrictNodes(entries, active) && AllAnnounced(entries, e, active)
    requires InputsOnly(entries, u + w) && Ids(u + w) == Ids(u) + Ids(w) && n in active && IsKind(entries, n, Compute)
    requires FullCycle(entries, strategies, e, u, before, middle)
    requires FullCycle(entries, strategies, e, w, middle, after)
    requires n in Dirty(e, Ids(u)) || n in Dirty(e, Ids(w))
    ensures Get(after, n) == Outcome(Strategy(strategies, n), Answer(entries, after, n), Get(before, n))
    ensures Get(Apply(before, u + w), n) == Get(before, n)
  {
    Applied(before, u + w, n);
    Applied(before, u, n);
    Applied(middle, w, n);
    if n in Dirty(e, Ids(w)) {
      if Answer(entries, after, n).None? && Answer(entries, middle, n).Some? {
        StrictResult(entries[n].impl, middle, entries[n].deps);
        forall d | d in entries[n].deps ensures d in after {
          StoreGrows(entries, strategies, e, w, middle, after, d);
        }
        StrictResult(entries[n].impl, after, entries[n].deps);
        assert false;
      }
    } else {
      forall d | d in entries[n].deps ensures Get(after, d) == Get(middle, d) {
        if d in Ids(w) || d in Dirty(e, Ids(w)) { DirtyClosed(e, Ids(w), d, n); }
        Applied(middle, w, d);
      }
      AnswerKept(entries, middle, after, n);
    }
  }

  /** `stores` is what one cycle per update, in order, goes through. */
  ghost predicate OneByOne(entries: Entries, strategies: Strategies, e: Edges, updates: Outputs, stores: seq<Store>) {
    |stores| == |updates| + 1 &&
    forall i :: 0 <= i < |updates| ==> FullCycle(entries, strategies, e, [updates[i]], stores[i], stores[i + 1])
  }

  lemma {:induction false} OneByOneIsACycle(entries: Entries, strategies: Strategies, e: Edges, active: set<NodeId>,
                                            updates: Outputs, stores: seq<Store>)
    requires NeverRetracts(strategies) && StrictNodes(entries, active) && AllAnnounced(entries, e, active)
    requires Dirty(e, Ids(updates)) <= active && InputsOnly(entries, updates) && updates != []
    requires OneByOne(entries, strategies, e, updates, stores)
    ensures FullCycle(entries, strategies, e, updates, stores[0], stores[|updates|])
  {
    var k := |updates| - 1;
    var init, last := updates[..k], [updates[k]];
    assert updates == init + last;
    if k > 0 {
      assert Ids(updates) == Ids(init) + Ids(last);
      DirtyUnion(e, Ids(init), Ids(last));
      OneByOneIsACycle(entries, strategies, e, active, init, stores[..k + 1]);
      TwoCyclesAreOne(entries, strategies, e, active, init, last, stores[0], stores[k], stores[k + 1]);
    }
  }

  /** Batching is transparent: one cycle on a queue of input updates leaves the store that
      one cycle per update would have left. The starting store need not be consistent. */
  lemma BatchingIsTransparent(entries: Entries, strategies: Strategies, e: Edges, active: set<NodeId>,
                              rank: map<NodeId, nat>, updates: Outputs, stores: seq<Store>, batched: Store)
    requires NeverRetracts(strategies) && StrictNodes(entries, active) && AllAnnounced(entries, e, active)
    requires Dirty(e, Ids(updates)) <= active && Ranked(entries, Dirty(e, Ids(updates)), rank)
    requires InputsOnly(entries, updates) && updates != []
    requires OneByOne(entries, strategies, e, updates, stores)
    requires FullCycle(entries, strategies, e, updates, stores[0], batched)
    ensures batched == stores[|updates|]
  {
    OneByOneIsACycle(entries, strategies, e, active, updates, stores);
    var ran, base := Dirty(e, Ids(updates)), Apply(stores[0], updates);
    forall n ensures Get(batched, n) == Get(stores[|updates|], n) {
      SolvesIsMeaning(entries, strategies, ran, rank, base, batched, n);
      SolvesIsMeaning(entries, strategies, ran, rank, base, stores[|updates|], n);
    }
    SameStore(batched, stores[|updates|]);
  }
}
