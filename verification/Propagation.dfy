/** What one propagation cycle means, independently of how it is executed: the recompute
    equations, their unique solution, and the laws that follow from them
    (src/engine.rs, src/scheduler.rs). */
module Propagation {
  import opened Nodes
  import opened Topologies

  type Entries = map<NodeId, Entry>
  type Strategies = map<NodeId, ErrorStrategy>
  type Outputs = seq<(NodeId, Value)>

  predicate IsKind(entries: Entries, n: NodeId, kind: NodeKind) {
    n in entries && entries[n].kind == kind
  }

  function Strategy(strategies: Strategies, n: NodeId): ErrorStrategy {
    if n in strategies then strategies[n] else PropagateStale
  }

  /** What the node's implementation answers when it reads `store`. */
  function Answer(entries: Entries, store: Store, n: NodeId): Option<Value>
    requires n in entries
  {
    entries[n].impl.run(Args(store, entries[n].deps))
  }

  /** The value of an executed compute node: its answer, or what its strategy leaves. */
  function Outcome(strategy: ErrorStrategy, answer: Option<Value>, stale: Option<Value>): Option<Value> {
    if answer.Some? then answer else if strategy.PropagateError? then None else stale
  }

  function Put(store: Store, n: NodeId, v: Option<Value>): (r: Store)
    ensures forall x :: Get(r, x) == if x == n then v else Get(store, x)
  {
    if v.Some? then store[n := v.value] else store - {n}
  }

  /** The recompute equations of a cycle that executes `ran`: every executed compute node
      holds its outcome for the *final* values of its dependencies; nothing else moved. */
  ghost predicate Solves(entries: Entries, strategies: Strategies, ran: set<NodeId>,
                         before: Store, after: Store) {
    forall n :: Get(after, n) ==
      if n in ran && IsKind(entries, n, Compute)
      then Outcome(Strategy(strategies, n), Answer(entries, after, n), Get(before, n))
      else Get(before, n)
  }

  /** The topology lists the same dependencies as the registry for every dirty node. */
  ghost predicate DepsAgree(entries: Entries, e: Edges, dirty: set<NodeId>) {
    forall n :: n in dirty && n in entries ==> e.Deps(n) == entries[n].deps
  }

  // ----- executing one more node -----

  /** The effect on the store of executing `n`. */
  function Executed(entries: Entries, strategies: Strategies, store: Store, n: NodeId): Store {
    if IsKind(entries, n, Compute)
    then Put(store, n, Outcome(Strategy(strategies, n), Answer(entries, store, n), Get(store, n)))
    else store
  }

  /** A node that has run does not depend on a dirty node that has not. */
  lemma RanIgnores(entries: Entries, e: Edges, dirty: set<NodeId>, order: seq<NodeId>, x: NodeId, n: NodeId)
    requires RunOrder(e, dirty, order) && DepsAgree(entries, e, dirty)
    requires x in order && x in entries && n in dirty && n !in order
    ensures n !in entries[x].deps
  {
    RunOrderElems(e, dirty, order);
    var i :| 0 <= i < |order| && order[i] == x;
    RunOrderPrefix(e, dirty, order, i);
  }

  lemma AnswerKept(entries: Entries, s: Store, t: Store, x: NodeId)
    requires x in entries && forall d :: d in entries[x].deps ==> Get(s, d) == Get(t, d)
    ensures Answer(entries, s, x) == Answer(entries, t, x)
  {
    ArgsAgree(s, t, entries[x].deps);
  }

  lemma SolvesStep(entries: Entries, strategies: Strategies, e: Edges, dirty: set<NodeId>,
                   order: seq<NodeId>, n: NodeId, before: Store, store: Store)
    requires RunOrder(e, dirty, order + [n]) && DepsAgree(entries, e, dirty)
    requires Solves(entries, strategies, Elems(order), before, store)
    ensures Solves(entries, strategies, Elems(order + [n]), before, Executed(entries, strategies, store, n))
  {
    var after := Executed(entries, strategies, store, n);
    assert (order + [n])[..|order|] == order;
    forall x ensures Get(after, x) ==
      if x in order + [n] && IsKind(entries, x, Compute)
      then Outcome(Strategy(strategies, x), Answer(entries, after, x), Get(before, x))
      else Get(before, x)
    {
      if x == n && IsKind(entries, x, Compute) {
        assert Settled(e, dirty, order, n);
        assert n !in entries[n].deps;
        AnswerKept(entries, store, after, n);
      } else if x in order && IsKind(entries, x, Compute) {
        RanIgnores(entries, e, dirty, order, x, n);
        AnswerKept(entries, store, after, x);
      }
    }
  }

  // ----- what sinks and async nodes hand out -----

  /** What the nodes of one kind hand out, in run order, reading `store`: the emissions of
      sinks, the futures of async nodes. */
  function Handed(entries: Entries, kind: NodeKind, order: seq<NodeId>, store: Store): Outputs {
    if order == [] then [] else
    var n := order[|order| - 1];
    Handed(entries, kind, order[..|order| - 1], store) + HandedBy(entries, kind, n, store)
  }

  function HandedBy(entries: Entries, kind: NodeKind, n: NodeId, store: Store): Outputs {
    if IsKind(entries, n, kind) && Answer(entries, store, n).Some?
    then [(n, Answer(entries, store, n).value)] else []
  }

  lemma HandedOneMore(entries: Entries, kind: NodeKind, done: seq<NodeId>, n: NodeId, store: Store)
    ensures Handed(entries, kind, done + [n], store) ==
            Handed(entries, kind, done, store) + HandedBy(entries, kind, n, store)
  {
    assert (done + [n])[..|done|] == done;
  }

  /** Nothing handed out earlier would come out differently at the end of the cycle. */
  lemma {:induction false} HandedKept(entries: Entries, kind: NodeKind, order: seq<NodeId>, s: Store, t: Store)
    requires forall x, d :: x in order && x in entries && d in entries[x].deps ==> Get(s, d) == Get(t, d)
    ensures Handed(entries, kind, order, s) == Handed(entries, kind, order, t)
  {
    if order != [] {
      var n := order[|order| - 1];
      HandedKept(entries, kind, order[..|order| - 1], s, t);
      if n in entries {
        AnswerKept(entries, s, t, n);
      }
    }
  }

  lemma HandedStep(entries: Entries, strategies: Strategies, e: Edges, dirty: set<NodeId>,
                   order: seq<NodeId>, n: NodeId, kind: NodeKind, store: Store)
    requires RunOrder(e, dirty, order + [n]) && DepsAgree(entries, e, dirty)
    ensures Handed(entries, kind, order, Executed(entries, strategies, store, n)) ==
            Handed(entries, kind, order, store)
    ensures kind != Compute ==>
              Handed(entries, kind, order + [n], Executed(entries, strategies, store, n)) ==
              Handed(entries, kind, order, store) + HandedBy(entries, kind, n, store)
  {
    var after := Executed(entries, strategies, store, n);
    assert (order + [n])[..|order|] == order;
    forall x, d | x in order && x in entries && d in entries[x].deps ensures Get(after, d) == Get(store, d) {
      RanIgnores(entries, e, dirty, order, x, n);
    }
    HandedKept(entries, kind, order, store, after);
  }

  lemma {:induction false} HandedIds(entries: Entries, kind: NodeKind, order: seq<NodeId>, store: Store)
    ensures forall p :: p in Handed(entries, kind, order, store) <==>
              p.0 in order && IsKind(entries, p.0, kind) && Answer(entries, store, p.0) == Some(p.1)
  {
    if order != [] {
      HandedIds(entries, kind, order[..|order| - 1], store);
      assert order == order[..|order| - 1] + [order[|order| - 1]];
    }
  }

  lemma HandedByCounts(entries: Entries, kind: NodeKind, x: NodeId, store: Store, n: NodeId, v: Value)
    ensures multiset(HandedBy(entries, kind, x, store))[(n, v)] ==
            if x == n && IsKind(entries, n, kind) && Answer(entries, store, n) == Some(v) then 1 else 0
  {
  }

  /** Each node hands out at most one payload per cycle, and exactly the one its
      dependencies' end-of-cycle values call for. */
  lemma {:induction false} HandedOnce(entries: Entries, kind: NodeKind, order: seq<NodeId>, store: Store,
                                      n: NodeId, v: Value)
    requires NoDup(order)
    ensures multiset(Handed(entries, kind, order, store))[(n, v)] ==
            if n in order && n in entries && entries[n].kind == kind &&
               entries[n].impl.run(Args(store, entries[n].deps)) == Some(v)
            then 1 else 0
  {
    if order != [] {
      var init, x := order[..|order| - 1], order[|order| - 1];
      HandedOnce(entries, kind, init, store, n, v);
      HandedByCounts(entries, kind, x, store, n, v);
      assert n in order <==> n in init || n == x;
      assert x !in init;
    }
  }

  lemma {:induction false} HandedAppend(entries: Entries, kind: NodeKind, a: seq<NodeId>, b: seq<NodeId>, store: Store)
    ensures Handed(entries, kind, a + b, store) == Handed(entries, kind, a, store) + Handed(entries, kind, b, store)
  {
    if b == [] {
      assert a + b == a;
    } else {
      var init, x := b[..|b| - 1], b[|b| - 1];
      HandedAppend(entries, kind, a, init, store);
      assert b == init + [x];
      Associates(a, init, [x]);
      HandedOneMore(entries, kind, a + init, x, store);
      Associates(Handed(entries, kind, a, store), Handed(entries, kind, init, store),
                 HandedBy(entries, kind, x, store));
    }
  }

  /** Payloads are handed out in run order: a node's own, if it has one, comes behind those of
      the nodes that ran before it and before those of the others. */
  lemma HandedInOrder(entries: Entries, kind: NodeKind, a: seq<NodeId>, n: NodeId, b: seq<NodeId>, store: Store)
    requires n in entries && entries[n].kind == kind
    ensures
      var answer := entries[n].impl.run(Args(store, entries[n].deps));
      Handed(entries, kind, a + [n] + b, store) ==
      Handed(entries, kind, a, store) + (if answer.Some? then [(n, answer.value)] else []) +
      Handed(entries, kind, b, store)
  {
    HandedAppend(entries, kind, a + [n], b, store);
    HandedOneMore(entries, kind, a, n, store);
  }

  /** Where sequential execution stands after `done`, in terms of the current store. */
  ghost predicate Executing(entries: Entries, strategies: Strategies, done: seq<NodeId>, before: Store,
                            store: Store, earlier: Outputs, emitted: Outputs, spawns: Outputs) {
    && Solves(entries, strategies, Elems(done), before, store)
    && emitted == earlier + Handed(entries, Sink, done, store)
    && spawns == Handed(entries, AsyncCompute, done, store)
  }

  lemma ExecutingStep(entries: Entries, strategies: Strategies, e: Edges, dirty: set<NodeId>, done: seq<NodeId>,
                      n: NodeId, before: Store, store: Store, earlier: Outputs, emitted: Outputs, spawns: Outputs)
    requires RunOrder(e, dirty, done + [n]) && DepsAgree(entries, e, dirty)
    requires Executing(entries, strategies, done, before, store, earlier, emitted, spawns)
    ensures Executing(entries, strategies, done + [n], before, Executed(entries, strategies, store, n), earlier,
                      emitted + HandedBy(entries, Sink, n, store),
                      spawns + HandedBy(entries, AsyncCompute, n, store))
  {
    SolvesStep(entries, strategies, e, dirty, done, n, before, store);
    HandedStep(entries, strategies, e, dirty, done, n, Sink, store);
    HandedStep(entries, strategies, e, dirty, done, n, AsyncCompute, store);
    Associates(earlier, Handed(entries, Sink, done, store), HandedBy(entries, Sink, n, store));
  }

  // ----- the solution is unique -----

  lemma {:induction false} SolutionsAgree(entries: Entries, strategies: Strategies, e: Edges,
                                          dirty: set<NodeId>, order: seq<NodeId>, i: nat,
                                          before: Store, s: Store, t: Store)
    requires RunOrder(e, dirty, order) && DepsAgree(entries, e, dirty) && i <= |order|
    requires Solves(entries, strategies, Elems(order), before, s)
    requires Solves(entries, strategies, Elems(order), before, t)
    ensures forall n :: n in order[..i] ==> Get(s, n) == Get(t, n)
  {
    if i > 0 {
      SolutionsAgree(entries, strategies, e, dirty, order, i - 1, before, s, t);
      var n := order[i - 1];
      RunOrderElems(e, dirty, order);
      RunOrderPrefix(e, dirty, order, i - 1);
      if IsKind(entries, n, Compute) {
        forall d | d in entries[n].deps ensures Get(s, d) == Get(t, d) {
          assert d in order ==> d in order[..i - 1];
        }
        AnswerKept(entries, s, t, n);
      }
      assert order[..i] == order[..i - 1] + [n];
    }
  }

  lemma UniqueSolution(entries: Entries, strategies: Strategies, e: Edges, dirty: set<NodeId>,
                       order: seq<NodeId>, before: Store, s: Store, t: Store)
    requires RunOrder(e, dirty, order) && DepsAgree(entries, e, dirty)
    requires Solves(entries, strategies, Elems(order), before, s)
    requires Solves(entries, strategies, Elems(order), before, t)
    ensures s == t
  {
    SolutionsAgree(entries, strategies, e, dirty, order, |order|, before, s, t);
    assert order[..|order|] == order;
    SameStore(s, t);
  }

  lemma SameStore(s: Store, t: Store)
    requires forall n :: Get(s, n) == Get(t, n)
    ensures s == t
  {
    assert forall n :: (n in s <==> Get(s, n).Some?) && (n in t <==> Get(t, n).Some?);
  }

  // ----- the denotation -----

  /** `rank` witnesses that dependencies among the executed nodes form no cycle. */
  ghost predicate Ranked(entries: Entries, ran: set<NodeId>, rank: map<NodeId, nat>) {
    ran <= rank.Keys &&
    forall n, d :: n in ran && n in entries && d in ran && d in entries[n].deps ==> rank[d] < rank[n]
  }

  /** The value of a node after a cycle, by recursion over the dependency graph alone. */
  ghost function Meaning(entries: Entries, strategies: Strategies, ran: set<NodeId>,
                         rank: map<NodeId, nat>, before: Store, n: NodeId): Option<Value>
    requires Ranked(entries, ran, rank)
    decreases if n in ran then rank[n] + 1 else 0
  {
    if n in ran && IsKind(entries, n, Compute) then
      var deps := entries[n].deps;
      var args := seq(|deps|, i requires 0 <= i < |deps| =>
                      Meaning(entries, strategies, ran, rank, before, deps[i]));
      var answer := entries[n].impl.run(args);
      if answer.Some? then answer
      else if n in strategies && strategies[n].PropagateError? then None
      else Get(before, n)
    else
      Get(before, n)
  }

  /** Any store that satisfies the recompute equations is the denotation, at every node. */
  lemma {:induction false} SolvesIsMeaning(entries: Entries, strategies: Strategies, ran: set<NodeId>,
                                           rank: map<NodeId, nat>, before: Store, after: Store, n: NodeId)
    requires Ranked(entries, ran, rank) && Solves(entries, strategies, ran, before, after)
    ensures Get(after, n) == Meaning(entries, strategies, ran, rank, before, n)
    decreases if n in ran then rank[n] + 1 else 0
  {
    if n in ran && IsKind(entries, n, Compute) {
      var deps := entries[n].deps;
      var args := seq(|deps|, i requires 0 <= i < |deps| =>
                      Meaning(entries, strategies, ran, rank, before, deps[i]));
      forall i | 0 <= i < |deps| ensures args[i] == Args(after, deps)[i] {
        assert deps[i] in deps;
        SolvesIsMeaning(entries, strategies, ran, rank, before, after, deps[i]);
      }
      assert args == Args(after, deps);
    }
  }

  /** What an executed node will read, by the same recursion. */
  ghost function MeaningArgs(entries: Entries, strategies: Strategies, ran: set<NodeId>, rank: map<NodeId, nat>,
                             before: Store, n: NodeId): seq<Option<Value>>
    requires Ranked(entries, ran, rank) && n in entries
  {
    var deps := entries[n].deps;
    seq(|deps|, i requires 0 <= i < |deps| => Meaning(entries, strategies, ran, rank, before, deps[i]))
  }

  lemma AnswerIsMeaning(entries: Entries, strategies: Strategies, ran: set<NodeId>, rank: map<NodeId, nat>,
                        before: Store, after: Store, n: NodeId)
    requires Ranked(entries, ran, rank) && Solves(entries, strategies, ran, before, after) && n in entries
    ensures Answer(entries, after, n) == entries[n].impl.run(MeaningArgs(entries, strategies, ran, rank, before, n))
  {
    var deps, args := entries[n].deps, MeaningArgs(entries, strategies, ran, rank, before, n);
    forall i | 0 <= i < |deps| ensures args[i] == Args(after, deps)[i] {
      SolvesIsMeaning(entries, strategies, ran, rank, before, after, deps[i]);
    }
    assert args == Args(after, deps);
  }

  /** A run order provides such a rank: positions. */
  lemma {:induction false} OrderIsRanked(entries: Entries, e: Edges, dirty: set<NodeId>, order: seq<NodeId>)
    returns (rank: map<NodeId, nat>)
    requires RunOrder(e, dirty, order) && DepsAgree(entries, e, dirty)
    ensures Ranked(entries, Elems(order), rank)
    ensures rank.Keys == Elems(order) && forall n :: n in rank ==> rank[n] < |order|
  {
    if order == [] {
      rank := map[];
    } else {
      var before, n := order[..|order| - 1], order[|order| - 1];
      var r := OrderIsRanked(entries, e, dirty, before);
      rank := r[n := |order| - 1];
      assert order == before + [n];
      forall x, d | x in order && x in entries && d in order && d in entries[x].deps
        ensures rank[d] < rank[x]
      {
        RunOrderElems(e, dirty, order);
        if x != n {
          RanIgnores(entries, e, dirty, before, x, n);
        }
      }
    }
  }
}
