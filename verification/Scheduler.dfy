/** The wave executor (src/scheduler.rs). A wave is a set of reads of the old store, in any
    order, followed by a write-back. */
module Schedulers {
  import opened Nodes
  import opened Topologies
  import opened Propagation
  import opened CycleLaws
  import opened Graphs

  /** What executing one node on a store returns; sinks return nothing. */
  function SingleResult(entries: Entries, store: Store, n: NodeId): Option<Value> {
    if IsKind(entries, n, Compute) then Answer(entries, store, n) else None
  }

  lemma SettledGrows(e: Edges, dirty: set<NodeId>, order: seq<NodeId>, more: seq<NodeId>, n: NodeId)
    requires Settled(e, dirty, order, n)
    ensures Settled(e, dirty, order + more, n)
  {
  }

  /** Writing back a result that was computed at the start of the wave is the same as
      executing the node now: no node of a wave depends on another. */
  lemma WriteBackIsExecution(entries: Entries, e: Edges, dirty: set<NodeId>, order: seq<NodeId>,
                             done: seq<NodeId>, n: NodeId, start: Store, store: Store)
    requires DepsAgree(entries, e, dirty) && Settled(e, dirty, order, n) && n in dirty
    requires forall x :: x in done ==> x in dirty && x !in order
    requires forall x :: x !in done ==> Get(store, x) == Get(start, x)
    requires n !in done
    ensures n in entries ==> Answer(entries, store, n) == Answer(entries, start, n)
    ensures Executed(entries, map[], store, n) ==
            if SingleResult(entries, start, n).Some? then store[n := SingleResult(entries, start, n).value] else store
  {
    if n in entries {
      forall d | d in entries[n].deps ensures Get(store, d) == Get(start, d) {
        assert d in dirty ==> d in order;
      }
      AnswerKept(entries, start, store, n);
      if IsKind(entries, n, Compute) && Answer(entries, store, n).None? {
        SameStore(Executed(entries, map[], store, n), store);
      }
    }
  }

  method ExecuteSingle(graph: Graph, n: NodeId) returns (result: Option<Value>)
    modifies graph`emitted
    ensures result == SingleResult(graph.entries, graph.values, n)
    ensures graph.emitted == old(graph.emitted) + HandedBy(graph.entries, Sink, n, graph.values)
  {
    result := None;
    if n in graph.entries {
      var entry := graph.entries[n];
      match entry.kind {
        case Compute => result := entry.impl.run(Args(graph.values, entry.deps));
        case Sink => graph.Emit(n);
        case _ =>
      }
    }
  }

  /** The results of the nodes, all read from the same store. */
  ghost predicate ReadFrom(entries: Entries, store: Store, nodes: seq<NodeId>,
                           results: map<NodeId, Option<Value>>) {
    results.Keys == Elems(nodes) && forall n :: n in results ==> results[n] == SingleResult(entries, store, n)
  }

  lemma OneMoreRead(entries: Entries, store: Store, nodes: seq<NodeId>, results: map<NodeId, Option<Value>>, n: NodeId)
    requires ReadFrom(entries, store, nodes, results)
    ensures ReadFrom(entries, store, nodes + [n], results[n := SingleResult(entries, store, n)])
  {
    assert Elems(nodes + [n]) == Elems(nodes) + {n};
  }

  lemma EmissionsJoin(a: Outputs, b: Outputs)
    ensures multiset(a + b) == multiset(a) + multiset(b)
  {
  }

  /** Executes the nodes of a wave in the given order, each reading the same store. */
  method ExecuteEach(graph: Graph, nodes: seq<NodeId>) returns (results: map<NodeId, Option<Value>>)
    modifies graph`emitted
    ensures ReadFrom(graph.entries, graph.values, nodes, results)
    ensures graph.emitted == old(graph.emitted) + Handed(graph.entries, Sink, nodes, graph.values)
  {
    results := map[];
    ghost var done, before := [], graph.emitted;
    var k := 0;
    while k < |nodes|
      invariant 0 <= k <= |nodes| && done == nodes[..k]
      invariant ReadFrom(graph.entries, graph.values, done, results)
      invariant graph.emitted == before + Handed(graph.entries, Sink, done, graph.values)
    {
      var n := nodes[k];
      OneMoreRead(graph.entries, graph.values, done, results, n);
      HandedOneMore(graph.entries, Sink, done, n, graph.values);
      Associates(before, Handed(graph.entries, Sink, done, graph.values),
                 HandedBy(graph.entries, Sink, n, graph.values));
      var result := ExecuteSingle(graph, n);
      results := results[n := result];
      done := done + [n];
      k := k + 1;
    }
    assert done == nodes;
  }

  lemma SameReads(entries: Entries, store: Store, a: seq<NodeId>, b: seq<NodeId>, results: map<NodeId, Option<Value>>)
    requires ReadFrom(entries, store, a, results) && Elems(a) == Elems(b)
    ensures ReadFrom(entries, store, b, results)
  {
  }

  /** Executes the nodes of a wave; with more than one, on threads that finish in any order. */
  method ExecuteWave(graph: Graph, ready: seq<NodeId>) returns (results: map<NodeId, Option<Value>>)
    requires NoDup(ready)
    modifies graph`emitted
    ensures ReadFrom(graph.entries, graph.values, ready, results)
    ensures multiset(graph.emitted) ==
            multiset(old(graph.emitted)) + multiset(Handed(graph.entries, Sink, ready, graph.values))
  {
    ghost var before := graph.emitted;
    var threads := ready;
    if |ready| != 1 {
      threads := InAnyOrder(Elems(ready));
    }
    results := ExecuteEach(graph, threads);
    SameReads(graph.entries, graph.values, threads, ready, results);
    HandedPermuted(graph.entries, Sink, threads, ready, graph.values);
    EmissionsJoin(before, Handed(graph.entries, Sink, threads, graph.values));
  }

  /** The dependents of a completed node have one thing less to wait for. */
  method Decrement(counts: map<NodeId, nat>, dependents: seq<NodeId>) returns (counts': map<NodeId, nat>)
    requires forall n :: n in counts ==> multiset(dependents)[n] <= counts[n]
    ensures counts'.Keys == counts.Keys
    ensures forall n :: n in counts ==> counts'[n] == counts[n] - multiset(dependents)[n]
  {
    counts' := counts;
    ghost var told := [];
    var k := 0;
    while k < |dependents|
      invariant 0 <= k <= |dependents| && told == dependents[..k] && CountedDown(counts, counts', told)
    {
      var d := dependents[k];
      PrefixCounts(dependents, k);
      CountedDownOne(counts, counts', told, d);
      if d in counts' {
        counts' := counts'[d := if counts'[d] == 0 then 0 else counts'[d] - 1];
      }
      told := told + [d];
      k := k + 1;
    }
    assert told == dependents;
  }

  /** Each count is the number of dirty dependencies the node still waits for. */
  ghost predicate ReadyCounts(e: Edges, dirty: set<NodeId>, ran: set<NodeId>, nodes: set<NodeId>,
                              counts: map<NodeId, nat>) {
    counts.Keys == nodes &&
    forall n {:trigger counts[n]} :: n in counts ==> counts[n] == Pending(e, dirty, ran, n)
  }

  method CountReady(topology: Topology, sorted: seq<NodeId>, dirty: set<NodeId>) returns (counts: map<NodeId, nat>)
    ensures ReadyCounts(topology.View(), dirty, {}, Elems(sorted), counts)
  {
    counts := map[];
    var k := 0;
    while k < |sorted|
      invariant 0 <= k <= |sorted|
      invariant ReadyCounts(topology.View(), dirty, {}, Elems(sorted[..k]), counts)
    {
      var n := sorted[k];
      assert Elems(sorted[..k + 1]) == Elems(sorted[..k]) + {n} by { assert sorted[..k + 1] == sorted[..k] + [n]; }
      counts := counts[n := if n in topology.deps then CountIn(topology.deps[n], dirty) else 0];
      assert Unresolved(topology.View(), dirty, {}, n) == dirty;
      k := k + 1;
    }
    assert sorted[..k] == sorted;
  }

  lemma CountsStep(e: Edges, dirty: set<NodeId>, ran: set<NodeId>, nodes: set<NodeId>, counts: map<NodeId, nat>,
                   node: NodeId)
    requires e.Coherent() && node in dirty && node !in ran && ReadyCounts(e, dirty, ran, nodes, counts)
    ensures forall n :: n in counts ==>
              counts[n] == Pending(e, dirty, ran + {node}, n) + multiset(e.Dependents(node))[n]
  {
    forall n | n in counts
      ensures counts[n] == Pending(e, dirty, ran + {node}, n) + multiset(e.Dependents(node))[n]
    {
      PendingStep(e, dirty, ran, node, n);
    }
  }

  /** Where the executor stands: it has executed `order`, and in the current wave `done`
      after `order`, all reading `start`. */
  ghost predicate InWave(entries: Entries, e: Edges, dirty: set<NodeId>, before: Store, order: seq<NodeId>,
                         done: seq<NodeId>, start: Store, store: Store) {
    && RunOrder(e, dirty, order + done)
    && Solves(entries, map[], Elems(order + done), before, store)
    && (forall x :: x in done ==> x in dirty && x !in order)
    && (forall x :: x !in done ==> Get(store, x) == Get(start, x))
  }

  function Written(store: Store, n: NodeId, result: Option<Value>): Store {
    if result.Some? then store[n := result.value] else store
  }

  /** In the wave so far, the sinks of `done` emitted what they would emit at its end. */
  ghost predicate EmitsKept(entries: Entries, order: seq<NodeId>, done: seq<NodeId>, start: Store, store: Store) {
    Handed(entries, Sink, order + done, store) ==
    Handed(entries, Sink, order, start) + Handed(entries, Sink, done, start)
  }

  lemma EmitsAdvance(entries: Entries, e: Edges, dirty: set<NodeId>, order: seq<NodeId>, done: seq<NodeId>,
                     start: Store, store: Store, n: NodeId)
    requires DepsAgree(entries, e, dirty) && RunOrder(e, dirty, order + done + [n])
    requires n in entries ==> Answer(entries, store, n) == Answer(entries, start, n)
    requires EmitsKept(entries, order, done, start, store)
    ensures EmitsKept(entries, order, done + [n], start, Executed(entries, map[], store, n))
  {
    var own := HandedBy(entries, Sink, n, start);
    assert HandedBy(entries, Sink, n, store) == own;
    assert order + (done + [n]) == order + done + [n];
    HandedStep(entries, map[], e, dirty, order + done, n, Sink, store);
    HandedOneMore(entries, Sink, done, n, start);
    Associates(Handed(entries, Sink, order, start), Handed(entries, Sink, done, start), own);
  }

  lemma WaveAdvances(entries: Entries, e: Edges, dirty: set<NodeId>, before: Store, order: seq<NodeId>,
                     done: seq<NodeId>, start: Store, store: Store, n: NodeId, after: Store)
    requires DepsAgree(entries, e, dirty) && InWave(entries, e, dirty, before, order, done, start, store)
    requires Settled(e, dirty, order, n) && n in dirty && n !in order && n !in done
    requires EmitsKept(entries, order, done, start, store)
    requires after == Written(store, n, SingleResult(entries, start, n))
    ensures InWave(entries, e, dirty, before, order, done + [n], start, after)
    ensures EmitsKept(entries, order, done + [n], start, after)
  {
    var all := order + done;
    assert order + (done + [n]) == all + [n];
    SettledGrows(e, dirty, order, done, n);
    RunOrderExtends(e, dirty, all, n);
    WriteBackIsExecution(entries, e, dirty, order, done, n, start, store);
    assert after == Executed(entries, map[], store, n);
    SolvesStep(entries, map[], e, dirty, all, n, before, store);
    EmitsAdvance(entries, e, dirty, order, done, start, store, n);
  }

  /** One node of the wave: its result goes into the store, its dependents are told. */
  method WriteBackOne(graph: Graph, topology: Topology, ghost dirty: set<NodeId>, ghost ran: set<NodeId>,
                      n: NodeId, result: Option<Value>, counts: map<NodeId, nat>)
    returns (counts': map<NodeId, nat>)
    requires topology.View().Coherent() && n in dirty && n !in ran
    requires ReadyCounts(topology.View(), dirty, ran, counts.Keys, counts)
    modifies graph`values
    ensures graph.values == Written(old(graph.values), n, result)
    ensures ReadyCounts(topology.View(), dirty, ran + {n}, counts.Keys, counts')
  {
    CountsStep(topology.View(), dirty, ran, counts.Keys, counts, n);
    if result.Some? {
      graph.values := graph.values[n := result.value];
    }
    counts' := counts;
    if n in topology.dependents {
      counts' := Decrement(counts, topology.dependents[n]);
    }
  }

  lemma NextOfWave(e: Edges, dirty: set<NodeId>, order: seq<NodeId>, ready: seq<NodeId>, k: nat)
    requires Runnable(e, dirty, order, ready) && k < |ready|
    ensures ready[k] in dirty && ready[k] !in order && Settled(e, dirty, order, ready[k])
    ensures ready[k] !in ready[..k] && ready[..k + 1] == ready[..k] + [ready[k]]
    ensures Elems(order + (ready[..k] + [ready[k]])) == Elems(order + ready[..k]) + {ready[k]}
    ensures ready[k] !in Elems(order + ready[..k])
  {
  }

  /** The nodes may run now. */
  ghost predicate Runnable(e: Edges, dirty: set<NodeId>, order: seq<NodeId>, ready: seq<NodeId>) {
    NoDup(ready) && forall i :: 0 <= i < |ready| ==>
      ready[i] in dirty && ready[i] !in order && Settled(e, dirty, order, ready[i])
  }

  /** Writes the results of a wave back, telling the dependents of each node. */
  method WriteBack(graph: Graph, topology: Topology, ghost dirty: set<NodeId>, ghost before: Store,
                   ghost order: seq<NodeId>, ready: seq<NodeId>, results: map<NodeId, Option<Value>>,
                   counts: map<NodeId, nat>)
    returns (counts': map<NodeId, nat>)
    requires topology.View().Coherent() && DepsAgree(graph.entries, topology.View(), dirty)
    requires InWave(graph.entries, topology.View(), dirty, before, order, [], graph.values, graph.values)
    requires Runnable(topology.View(), dirty, order, ready)
    requires ReadFrom(graph.entries, graph.values, ready, results)
    requires ReadyCounts(topology.View(), dirty, Elems(order), counts.Keys, counts)
    modifies graph`values
    ensures InWave(graph.entries, topology.View(), dirty, before, order, ready, old(graph.values), graph.values)
    ensures Handed(graph.entries, Sink, order + ready, graph.values) ==
            Handed(graph.entries, Sink, order, old(graph.values)) +
            Handed(graph.entries, Sink, ready, old(graph.values))
    ensures ReadyCounts(topology.View(), dirty, Elems(order + ready), counts.Keys, counts')
  {
    ghost var e, start, done := topology.View(), graph.values, [];
    counts' := counts;
    assert order + done == order;
    var k := 0;
    while k < |ready|
      invariant 0 <= k <= |ready| && done == ready[..k]
      invariant InWave(graph.entries, e, dirty, before, order, done, start, graph.values)
      invariant EmitsKept(graph.entries, order, done, start, graph.values)
      invariant ReadyCounts(e, dirty, Elems(order + done), counts.Keys, counts')
    {
      var n := ready[k];
      NextOfWave(e, dirty, order, ready, k);
      assert n in results;
      ghost var store := graph.values;
      counts' := WriteBackOne(graph, topology, dirty, Elems(order + done), n, results[n], counts');
      WaveAdvances(graph.entries, e, dirty, before, order, done, start, store, n, graph.values);
      done := done + [n];
      k := k + 1;
    }
    assert done == ready;
  }

  /** One wave: every ready node reads the store, then the results are written. */
  method Wave(graph: Graph, topology: Topology, ghost dirty: set<NodeId>, ghost before: Store,
              ghost order: seq<NodeId>, ghost base: multiset<(NodeId, Value)>, ready: seq<NodeId>,
              counts: map<NodeId, nat>)
    returns (counts': map<NodeId, nat>)
    requires topology.View().Coherent() && DepsAgree(graph.entries, topology.View(), dirty)
    requires RunOrder(topology.View(), dirty, order) && Solves(graph.entries, map[], Elems(order), before, graph.values)
    requires Runnable(topology.View(), dirty, order, ready)
    requires ReadyCounts(topology.View(), dirty, Elems(order), counts.Keys, counts)
    requires multiset(graph.emitted) == base + multiset(Handed(graph.entries, Sink, order, graph.values))
    modifies graph`values, graph`emitted
    ensures RunOrder(topology.View(), dirty, order + ready)
    ensures Solves(graph.entries, map[], Elems(order + ready), before, graph.values)
    ensures ReadyCounts(topology.View(), dirty, Elems(order + ready), counts.Keys, counts')
    ensures multiset(graph.emitted) == base + multiset(Handed(graph.entries, Sink, order + ready, graph.values))
  {
    EmissionsJoin(Handed(graph.entries, Sink, order, graph.values), Handed(graph.entries, Sink, ready, graph.values));
    var results := ExecuteWave(graph, ready);
    assert order + [] == order;
    counts' := WriteBack(graph, topology, dirty, before, order, ready, results, counts);
  }

  lemma ReadyIsRunnable(e: Edges, dirty: set<NodeId>, order: seq<NodeId>, remaining: set<NodeId>,
                        nodes: set<NodeId>, counts: map<NodeId, nat>, ready: seq<NodeId>)
    requires ReadyCounts(e, dirty, Elems(order), nodes, counts)
    requires remaining <= nodes <= dirty && remaining !! Elems(order)
    requires NoDup(ready) && Elems(ready) == set n | n in remaining && counts[n] == 0
    ensures Runnable(e, dirty, order, ready)
  {
    forall i | 0 <= i < |ready|
      ensures ready[i] in dirty && ready[i] !in order && Settled(e, dirty, order, ready[i])
    {
      assert ready[i] in Elems(ready);
      PendingZero(e, dirty, order, ready[i]);
    }
  }

  lemma AfterWave(all: set<NodeId>, order: seq<NodeId>, remaining: set<NodeId>, ready: seq<NodeId>)
    requires Elems(order) == all - remaining && Elems(ready) <= remaining <= all && ready != []
    ensures Elems(order + ready) == all - (remaining - Elems(ready))
    ensures remaining - Elems(ready) < remaining
  {
    assert ready[0] in Elems(ready);
  }

  lemma NobodyLeftRunnable(e: Edges, dirty: set<NodeId>, order: seq<NodeId>, sorted: seq<NodeId>,
                           remaining: set<NodeId>, counts: map<NodeId, nat>, n: NodeId)
    requires ReadyCounts(e, dirty, Elems(order), Elems(sorted), counts) && Elems(order) == Elems(sorted) - remaining
    requires forall x :: x in remaining && x in counts ==> counts[x] != 0
    requires n in sorted && Settled(e, dirty, order, n)
    ensures n in order
  {
    PendingZero(e, dirty, order, n);
    assert n in counts;
  }

  /** Runs the sorted nodes wave by wave. Whatever the order within the waves, the nodes run
      in some order that respects the dependencies and leaves no runnable node behind, the
      store solves the recompute equations for them, and each sink among them has been
      called once with its dependencies' final values. */
  method ExecuteParallel(graph: Graph, topology: Topology, sorted: seq<NodeId>, dirty: set<NodeId>)
    returns (ghost order: seq<NodeId>)
    requires topology.View().Coherent() && DepsAgree(graph.entries, topology.View(), dirty)
    requires Elems(sorted) <= dirty
    modifies graph`values, graph`emitted
    ensures RunOrder(topology.View(), dirty, order) && Elems(order) <= Elems(sorted)
    ensures forall n {:trigger Settled(topology.View(), dirty, order, n)} ::
              n in sorted && Settled(topology.View(), dirty, order, n) ==> n in order
    ensures Solves(graph.entries, map[], Elems(order), old(graph.values), graph.values)
    ensures multiset(graph.emitted) ==
            multiset(old(graph.emitted)) + multiset(Handed(graph.entries, Sink, order, graph.values))
  {
    order := [];
    if sorted == [] {
      return;
    }
    ghost var e, before, base := topology.View(), graph.values, multiset(graph.emitted);
    var readyCount := CountReady(topology, sorted, dirty);
    var remaining := Elems(sorted);
    assert Elems(order) == {};
    while remaining != {}
      invariant remaining <= Elems(sorted) && Elems(order) == Elems(sorted) - remaining
      invariant RunOrder(e, dirty, order) && Solves(graph.entries, map[], Elems(order), before, graph.values)
      invariant ReadyCounts(e, dirty, Elems(order), Elems(sorted), readyCount)
      invariant multiset(graph.emitted) == base + multiset(Handed(graph.entries, Sink, order, graph.values))
      decreases remaining
    {
      var ready := InAnyOrder(set n | n in remaining && readyCount[n] == 0);
      if ready == [] {
        assert forall n :: n in remaining ==> n !in Elems(ready);
        break;
      }
      ReadyIsRunnable(e, dirty, order, remaining, Elems(sorted), readyCount, ready);
      AfterWave(Elems(sorted), order, remaining, ready);
      readyCount := Wave(graph, topology, dirty, before, order, base, ready, readyCount);
      remaining := remaining - Elems(ready);
      order := order + ready;
    }
    forall n | n in sorted && Settled(e, dirty, order, n) ensures n in order {
      NobodyLeftRunnable(e, dirty, order, sorted, remaining, readyCount, n);
    }
  }
}
