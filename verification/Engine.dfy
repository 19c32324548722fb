/** The engine (src/engine.rs, src/subgraph.rs): activation, reference-counted removal and
    propagation cycles over its graph, topology and async manager. */
module Engines {
  import opened Nodes
  import opened Topologies
  import opened Propagation
  import opened CycleLaws
  import opened Lifecycle
  import opened Activation
  import opened Runs
  import opened Subgraphs
  import opened Graphs
  import Async = AsyncJobs
  import AsyncLaws
  import GroupQueues
  import AsyncRuntime
  import Schedulers

  /** Removals requested by dropped handles and not yet carried out. */
  class RemovalQueue {
    var pending: seq<seq<NodeId>>

    constructor ()
      ensures pending == []
    {
      pending := [];
    }
  }

  function Reversed(s: seq<NodeId>): (r: seq<NodeId>)
    ensures |r| == |s| && forall i :: 0 <= i < |s| ==> r[i] == s[|s| - 1 - i]
  {
    if s == [] then [] else [s[|s| - 1]] + Reversed(s[..|s| - 1])
  }

  /** The releases that draining the removal queue makes, in order. */
  function RemovalWork(pending: seq<seq<NodeId>>): seq<NodeId> {
    if pending == [] then [] else RemovalWork(pending[..|pending| - 1]) + Reversed(pending[|pending| - 1])
  }

  lemma RemovalWorkAppend(lists: seq<seq<NodeId>>, i: nat)
    requires i < |lists|
    ensures RemovalWork(lists[..i + 1]) == RemovalWork(lists[..i]) + Reversed(lists[i])
  {
    assert lists[..i + 1][..i] == lists[..i];
  }

  /** The state once the pending removals have been carried out. */
  ghost function Drained(s: State, pending: seq<seq<NodeId>>): State
    requires Counted(s.entries)
  {
    Released(s, RemovalWork(pending)).0
  }

  lemma {:induction false} ReversedElems(s: seq<NodeId>)
    ensures Elems(Reversed(s)) == Elems(s)
  {
    if s != [] {
      ReversedElems(s[..|s| - 1]);
      assert s == s[..|s| - 1] + [s[|s| - 1]];
    }
  }

  lemma {:induction false} ReversedCounts(s: seq<NodeId>)
    ensures multiset(Reversed(s)) == multiset(s)
  {
    if s != [] {
      ReversedCounts(s[..|s| - 1]);
      assert s == s[..|s| - 1] + [s[|s| - 1]];
    }
  }

  /** Draining the handles dropped so far and then one more gives up that handle's references
      after the others', whatever the order inside a handle. */
  lemma DrainedOneMore(s: State, lists: seq<seq<NodeId>>, ids: seq<NodeId>)
    requires Invariant(s)
    ensures Drained(s, []) == s
    ensures Drained(s, lists + [ids]) == Released(Drained(s, lists), ids).0
  {
    var u := Drained(s, lists);
    RemovalWorkAppend(lists + [ids], |lists|);
    assert (lists + [ids])[..|lists|] == lists && (lists + [ids])[..|lists| + 1] == lists + [ids];
    ReleasedAppend(s, RemovalWork(lists), Reversed(ids));
    ReleasedIsSurvivors(s, RemovalWork(lists));
    ReversedCounts(ids);
    ReleaseOrderIrrelevant(u, Reversed(ids), ids);
  }

  /** Merging a fresh, self-contained subgraph, feeding it in any number of cycles, dropping its
      handle and draining restores the engine's state. */
  lemma DroppedHandleRestores(s: State, g: Subgraph, states: seq<State>, t: State, uses: seq<State>, u: State)
    requires Invariant(s) && WellBuilt(g) && SelfContained(g) && Unknown(s, Elems(g.nodeIds))
    requires Merged(s, g, states, t)
    requires UsedInside(Elems(g.nodeIds), uses) && uses[0] == t && uses[|uses| - 1] == u
    ensures Counted(u.entries) && Drained(u, [g.nodeIds]) == s
  {
    ReversedElems(g.nodeIds);
    var lists := [g.nodeIds];
    RemovalWorkAppend(lists, 0);
    assert lists[..0] == [] && lists[..1] == lists;
    var work := RemovalWork(lists);
    assert work == Reversed(g.nodeIds);
    MergeUseDropRestores(s, g, states, t, uses, u, work);
  }

  /** What merging returns. Dropping it asks for the removal of its nodes; the engine carries
      the removal out at the start of its next operation. */
  class SubgraphHandle {
    var nodeIds: seq<NodeId>
    const removals: RemovalQueue

    constructor (nodeIds: seq<NodeId>, removals: RemovalQueue)
      ensures this.nodeIds == nodeIds && this.removals == removals
    {
      this.nodeIds, this.removals := nodeIds, removals;
    }

    method Drop()
      modifies this, removals
      ensures nodeIds == []
      ensures removals.pending == old(removals.pending) + if old(nodeIds) == [] then [] else [old(nodeIds)]
    {
      var ids := nodeIds;
      nodeIds := [];
      if ids != [] {
        removals.pending := removals.pending + [ids];
      }
    }
  }

  // ----- cycles -----

  /** The sorted nodes that are not async. */
  function SyncOnly(entries: Entries, sorted: seq<NodeId>): (r: seq<NodeId>)
    ensures forall n :: n in r <==> n in sorted && !IsKind(entries, n, AsyncCompute)
  {
    if sorted == [] then [] else
    assert sorted == sorted[..|sorted| - 1] + [sorted[|sorted| - 1]];
    var init, n := SyncOnly(entries, sorted[..|sorted| - 1]), sorted[|sorted| - 1];
    if IsKind(entries, n, AsyncCompute) then init else init + [n]
  }

  /** The manager after spawning futures in order; `lates` are the runtime's choices. */
  ghost function SpawnedAll(m: Async.Manager, entries: Entries, spawns: Outputs, lates: seq<bool>): Async.Manager
    requires |lates| == |spawns| && forall i :: 0 <= i < |spawns| ==> spawns[i].0 in entries
  {
    if spawns == [] then m else
    var k := |spawns| - 1;
    var impl := entries[spawns[k].0].impl;
    Async.Triggered(SpawnedAll(m, entries, spawns[..k], lates[..k]), spawns[k].0, spawns[k].1,
                    impl.policy, impl.group, lates[k])
  }

  /** The updates are the queued source values, in order, followed by one result for each job in
      the channel: its own, for its own node. */
  ghost predicate InputsInOrder(queue: Outputs, channel: seq<Async.Job>, updates: Outputs) {
    && |updates| == |queue| + |channel|
    && (forall i :: 0 <= i < |queue| ==> updates[i] == queue[i])
    && (forall i {:trigger channel[i]} :: 0 <= i < |channel| ==>
          updates[|queue| + i] == (channel[i].node, channel[i].result))
  }

  /** Of the results in the channel each node's last one is what the store holds for it; of the
      queued source values each source's last one, if no result came for the same id. */
  ghost predicate InputsStored(queue: Outputs, channel: seq<Async.Job>, entries: Entries, store: Store) {
    && (forall i :: 0 <= i < |channel| && !IsKind(entries, channel[i].node, Compute) ==>
          (forall j :: i < j < |channel| ==> channel[j].node != channel[i].node) ==>
            Get(store, channel[i].node) == Some(channel[i].result))
    && (forall i :: 0 <= i < |queue| && !IsKind(entries, queue[i].0, Compute) ==>
          (forall j :: i < j < |queue| ==> queue[j].0 != queue[i].0) ==>
          (forall j :: 0 <= j < |channel| ==> channel[j].node != queue[i].0) ==>
            Get(store, queue[i].0) == Some(queue[i].1))
  }

  /** After a cycle every node that is not computed holds what was last handed in for it: the
      result of its last job in the channel, or else the last source value queued for it. */
  lemma InputsAreStored(s: State, t: State, parallel: bool, updates: Outputs, sorted: seq<NodeId>,
                        order: seq<NodeId>, queue: Outputs, channel: seq<Async.Job>)
    requires Cycled(s, t, parallel, updates, sorted, order) && updates == queue + AsyncRuntime.Results(channel)
    ensures InputsInOrder(queue, channel, updates) && InputsStored(queue, channel, s.entries, t.store)
  {
    forall i | 0 <= i < |channel| && !IsKind(s.entries, channel[i].node, Compute) &&
      forall j :: i < j < |channel| ==> channel[j].node != channel[i].node
      ensures Get(t.store, channel[i].node) == Some(channel[i].result)
    {
      forall j | |queue| + i < j < |updates| ensures updates[j].0 != channel[i].node {
        assert channel[j - |queue|].node != channel[i].node;
      }
      LastInputIsStored(s, t, parallel, updates, sorted, order, |queue| + i);
    }
    forall i | 0 <= i < |queue| && !IsKind(s.entries, queue[i].0, Compute) &&
      (forall j :: i < j < |queue| ==> queue[j].0 != queue[i].0) &&
      (forall j :: 0 <= j < |channel| ==> channel[j].node != queue[i].0)
      ensures Get(t.store, queue[i].0) == Some(queue[i].1)
    {
      forall j | i < j < |updates| ensures updates[j].0 != queue[i].0 {
        if j >= |queue| {
          assert channel[j - |queue|].node != queue[i].0;
        }
      }
      LastInputIsStored(s, t, parallel, updates, sorted, order, i);
    }
  }

  ghost predicate Spawns(m: Async.Manager, entries: Entries, spawns: Outputs, lates: seq<bool>, m': Async.Manager) {
    && |lates| == |spawns| && (forall i :: 0 <= i < |spawns| ==> spawns[i].0 in entries)
    && m' == SpawnedAll(m, entries, spawns, lates)
  }

  /** Spawning hands over one future for each spawn, in order and under the next numbers. */
  lemma {:induction false} SpawnsAreTriggered(m: Async.Manager, entries: Entries, spawns: Outputs, lates: seq<bool>,
                                              m': Async.Manager)
    requires Spawns(m, entries, spawns, lates, m')
    ensures |m'.triggered| == |m.triggered| + |spawns| && m.triggered <= m'.triggered
    ensures forall i {:trigger spawns[i]} :: 0 <= i < |spawns| ==>
              m'.triggered[|m.triggered| + i] == Async.Job(|m.triggered| + i, spawns[i].0, spawns[i].1)
  {
    if spawns != [] {
      var k := |spawns| - 1;
      var u, impl := SpawnedAll(m, entries, spawns[..k], lates[..k]), entries[spawns[k].0].impl;
      SpawnsAreTriggered(m, entries, spawns[..k], lates[..k], u);
      assert forall i {:trigger spawns[i]} :: 0 <= i < k ==> spawns[..k][i] == spawns[i];
      GroupQueues.TriggeredHistory(u, spawns[k].0, spawns[k].1, impl.policy, impl.group, lates[k]);
    }
  }

  /** A node that the manager did not know gets the policy and the group of its implementation;
      one that it knew keeps its own. */
  lemma {:induction false} SpawnsSetRoles(m: Async.Manager, entries: Entries, spawns: Outputs, lates: seq<bool>,
                                          m': Async.Manager, n: NodeId)
    requires Spawns(m, entries, spawns, lates, m')
    ensures AsyncLaws.SameRole(m, m', n)
    ensures n !in m.nodes && n in m'.nodes ==>
              n in entries && GroupQueues.HasRole(m', n, entries[n].impl.policy, entries[n].impl.group)
  {
    if spawns != [] {
      var k := |spawns| - 1;
      var x, impl := spawns[k].0, entries[spawns[k].0].impl;
      var u := SpawnedAll(m, entries, spawns[..k], lates[..k]);
      SpawnsSetRoles(m, entries, spawns[..k], lates[..k], u, n);
      AsyncLaws.TriggeredRoles(u, x, spawns[k].1, impl.policy, impl.group, lates[k], n);
    }
  }

  lemma SpawnOneMore(m: Async.Manager, entries: Entries, spawns: Outputs, k: nat, lates: seq<bool>, late: bool,
                     m': Async.Manager)
    requires k < |spawns| && Spawns(m, entries, spawns[..k], lates, m') && spawns[k].0 in entries
    ensures
      var impl := entries[spawns[k].0].impl;
      Spawns(m, entries, spawns[..k + 1], lates + [late],
             Async.Triggered(m', spawns[k].0, spawns[k].1, impl.policy, impl.group, late))
  {
    assert spawns[..k + 1][..k] == spawns[..k];
    assert (lates + [late])[..k] == lates;
  }

  /** Spawning is a finite run of the async manager's step system, so together with draining
      every law about its runs covers whole cycles. */
  lemma {:induction false} SpawningIsARun(m: Async.Manager, entries: Entries, spawns: Outputs, lates: seq<bool>,
                                          states: seq<Async.Manager>, events: seq<Async.Event>)
    returns (states': seq<Async.Manager>, events': seq<Async.Event>)
    requires |lates| == |spawns| && forall i :: 0 <= i < |spawns| ==> spawns[i].0 in entries
    requires forall i :: 0 <= i < |spawns| && entries[spawns[i].0].impl.group.Some? ==>
               entries[spawns[i].0].impl.group.value in m.groups
    requires Async.Run(states, events) && states[|events|] == m
    ensures Async.Run(states', events') && states <= states'
    ensures states'[|events'|] == SpawnedAll(m, entries, spawns, lates)
    ensures states'[|events'|].groups.Keys == m.groups.Keys
  {
    if spawns == [] {
      states', events' := states, events;
    } else {
      var k := |spawns| - 1;
      var n, future, impl := spawns[k].0, spawns[k].1, entries[spawns[k].0].impl;
      states', events' := SpawningIsARun(m, entries, spawns[..k], lates[..k], states, events);
      var u := states'[|events'|];
      var ev := Async.Trigger(n, future, impl.policy, impl.group, lates[k]);
      AsyncLaws.TriggeredGroups(u, n, future, impl.policy, impl.group, lates[k]);
      AsyncLaws.RunExtends(states', events', ev, Async.Next(u, ev));
      states', events' := states' + [Async.Next(u, ev)], events' + [ev];
    }
  }

  class Engine {
    const graph: Graph
    const topology: Topology
    const asyncManager: AsyncRuntime.AsyncManager
    const removals: RemovalQueue
    /** The sources that hold a guard. */
    var guards: set<NodeId>
    var active: set<NodeId>
    var strategies: Strategies

    ghost function View(): State
      reads this, graph, topology
    {
      State(graph.entries, topology.View(), active, guards, graph.values, strategies)
    }

    ghost predicate Valid()
      reads this, graph, topology, asyncManager
    {
      Invariant(View()) && asyncManager.Valid() && asyncManager.inbox == []
    }

    constructor ()
      ensures Valid() && fresh(graph) && fresh(topology) && fresh(asyncManager) && fresh(removals)
      ensures View() == State(map[], Edges(map[], map[]), {}, {}, map[], map[])
      ensures graph.sourceQueue == [] && graph.emitted == [] && removals.pending == []
      ensures asyncManager.View() == Async.INITIAL
    {
      graph := new Graph();
      topology := new Topology();
      asyncManager := new AsyncRuntime.AsyncManager();
      removals := new RemovalQueue();
      guards, active, strategies := {}, {}, map[];
    }

    // ----- activation -----

    /** Activates a node and, recursively, its dependencies. Terminates on cyclic graphs too:
        each recursive call has one more active node among the registered ones. */
    method ActivateNode(id: NodeId, ghost pending: set<NodeId>)
      requires Invariant(View())
      modifies this`active, this`guards, topology, graph`values
      ensures Activated(old(View()), View(), id)
      ensures ValuesSettled(old(View()), View(), pending, id, pending)
      decreases graph.entries.Keys - active
    {
      ghost var s := View();
      if id in active {
        NothingToActivate(s, id);
        return;
      }
      if id !in graph.entries {
        NothingToActivate(s, id);
        return;
      }
      var deps := graph.entries[id].deps;
      EnterTopology(id);
      ActivatingStarts(s, id);
      ValuesAtStart(s, id, pending);
      var k := 0;
      while k < |deps|
        invariant 0 <= k <= |deps|
        invariant Activating(s, View(), id, k)
        invariant ValuesSettled(s, View(), pending, id, pending + {id})
      {
        ghost var u := View();
        ActivateNode(deps[k], pending + {id});
        ActivatingStep(s, u, View(), id, k);
        ValuesStep(s, u, View(), id, k, pending);
        k := k + 1;
      }
      ghost var u := View();
      AllDepsActive(s, u, id);
      FinishActivation(id);
      ActivatingEnds(s, u, View(), id);
      ValuesAtEnd(s, u, View(), id, pending);
    }

    method EnterTopology(id: NodeId)
      requires id in graph.entries
      modifies this`active, topology
      ensures View() == Entered(old(View()), id)
    {
      topology.AddNode(id, graph.entries[id].deps);
      active := active + {id};
    }

    /** Once the dependencies are active: a source's guard, a compute node's first value. */
    method FinishActivation(id: NodeId)
      requires id in graph.entries
      modifies this`guards, graph`values
      ensures Finished(old(View()), View(), id)
      ensures graph.values == FirstValue(graph.entries, old(graph.values), id)
      ensures
        var entry := graph.entries[id];
        var first := entry.impl.run(Args(old(graph.values), entry.deps));
        graph.values ==
        if entry.kind == Compute && AllPresent(old(graph.values), entry.deps) && first.Some?
        then old(graph.values)[id := first.value] else old(graph.values)
    {
      var entry := graph.entries[id];
      if entry.kind == Source {
        if entry.impl.guarded {
          guards := guards + {id};
        }
      }
      if entry.kind == Compute {
        var allHaveValues := forall d :: d in entry.deps ==> d in graph.values;
        if allHaveValues {
          var result := entry.impl.run(Args(graph.values, entry.deps));
          if result.Some? {
            graph.values := graph.values[id := result.value];
          }
        }
      }
    }

    // ----- removal -----

    /** Releases one reference to a node. When it was the last, everything about the node is
        erased and its dependencies are released in turn. Terminates on cyclic graphs too:
        each effective release lowers the total of all counts by one. */
    method DeactivateNode(id: NodeId)
      requires Invariant(View())
      modifies this, topology, graph`values, graph`entries
      ensures View() == Released(old(View()), [id]).0 && Invariant(View())
      decreases Total(graph.entries), 0
    {
      ghost var s := View();
      ReleasedOne(s, id);
      if id !in graph.entries {
        return;
      }
      var entry := graph.entries[id];
      var refCount := if entry.refCount == 0 then 0 else entry.refCount - 1;
      graph.entries := graph.entries[id := entry.(refCount := refCount)];
      if refCount > 0 {
        assert View() == s.(entries := Lowered(s.entries, id));
        return;
      }
      assert graph.entries - {id} == s.entries - {id};
      Erase(id, s);
      DeactivateAll(entry.deps);
    }

    /** Releases one reference to each of the listed nodes, in order. */
    method DeactivateAll(ids: seq<NodeId>)
      requires Invariant(View())
      modifies this, topology, graph`values, graph`entries
      ensures View() == Released(old(View()), ids).0 && Invariant(View())
      decreases Total(graph.entries), 1
    {
      ghost var s := View();
      var k := 0;
      assert ids[..k] == [];
      while k < |ids|
        invariant 0 <= k <= |ids| && Invariant(View())
        invariant View() == Released(s, ids[..k]).0
      {
        ReleasedTotal(s, ids[..k]);
        ReleasedAppend(s, ids[..k], [ids[k]]);
        assert ids[..k + 1] == ids[..k] + [ids[k]];
        DeactivateNode(ids[k]);
        k := k + 1;
      }
      assert ids[..k] == ids;
    }

    /** Forgets everything about a node whose last reference is gone. */
    method Erase(id: NodeId, ghost s: State)
      requires id in s.entries && id in graph.entries && graph.entries[id].kind == s.entries[id].kind
      requires View().(entries := s.entries) == s && graph.entries - {id} == s.entries - {id}
      modifies this, topology, graph`values, graph`entries
      ensures View() == Dropped(s, id)
    {
      if graph.entries[id].kind == Source {
        guards := guards - {id};
      }
      graph.values := graph.values - {id};
      topology.RemoveNode(id);
      active := active - {id};
      graph.entries := graph.entries - {id};
      strategies := strategies - {id};
    }

    /** Carries out the removals of dropped handles, each handle's nodes in reverse. */
    method DrainPendingRemovals()
      requires Invariant(View())
      modifies this, topology, graph`values, graph`entries, removals
      ensures View() == Released(old(View()), RemovalWork(old(removals.pending))).0 && Invariant(View())
      ensures removals.pending == []
    {
      ghost var s := View();
      var lists := removals.pending;
      removals.pending := [];
      var i := 0;
      while i < |lists|
        invariant 0 <= i <= |lists| && Invariant(View()) && removals.pending == []
        invariant View() == Released(s, RemovalWork(lists[..i])).0
      {
        RemovalWorkAppend(lists, i);
        var ids := Reversed(lists[i]);
        ReleasedAppend(s, RemovalWork(lists[..i]), ids);
        DeactivateAll(ids);
        i := i + 1;
      }
      assert lists[..i] == lists;
    }

    // ----- propagation -----

    /** Executes a compute node under its error strategy; also answers how often it was
        invoked. Retrying stops at the first success or when the attempts are used up, and
        even `maxAttempts == 0` allows one. */
    method ExecuteComputeWithErrorHandling(n: NodeId, strategy: ErrorStrategy) returns (calls: nat)
      requires IsKind(graph.entries, n, Compute) && strategy == Strategy(strategies, n)
      modifies graph`values
      ensures graph.values == Executed(graph.entries, strategies, old(graph.values), n)
      ensures forall x :: x != n ==> Get(graph.values, x) == Get(old(graph.values), x)
      ensures
        var answer := graph.entries[n].impl.run(Args(old(graph.values), graph.entries[n].deps));
        Get(graph.values, n) ==
        if answer.Some? then answer else if strategy.PropagateError? then None else Get(old(graph.values), n)
      ensures calls ==
              if strategy.Retry? && Answer(graph.entries, old(graph.values), n).None? && strategy.maxAttempts > 1
              then strategy.maxAttempts else 1
    {
      ghost var before := graph.values;
      var entry := graph.entries[n];
      match strategy {
        case PropagateStale =>
          var result := entry.impl.run(Args(graph.values, entry.deps));
          calls := 1;
          if result.Some? {
            graph.values := graph.values[n := result.value];
          }
        case PropagateError =>
          var result := entry.impl.run(Args(graph.values, entry.deps));
          calls := 1;
          if result.Some? {
            graph.values := graph.values[n := result.value];
          } else {
            graph.values := graph.values - {n};
          }
        case Retry(maxAttempts) =>
          var attempts := 0;
          calls := 0;
          while true
            invariant graph.values == before && calls == attempts
            invariant attempts > 0 ==> attempts < maxAttempts && Answer(graph.entries, before, n).None?
            decreases maxAttempts - attempts
          {
            var result := entry.impl.run(Args(graph.values, entry.deps));
            calls := calls + 1;
            if result.Some? {
              graph.values := graph.values[n := result.value];
              break;
            }
            attempts := attempts + 1;
            if attempts >= maxAttempts {
              break;
            }
          }
      }
      SameStore(graph.values, Executed(graph.entries, strategies, before, n));
    }

    /** Executes one sorted node; an async node answers the future to spawn. */
    method ExecuteNode(n: NodeId) returns (spawned: Outputs)
      modifies graph`values, graph`emitted
      ensures graph.values == Executed(graph.entries, strategies, old(graph.values), n)
      ensures graph.emitted == old(graph.emitted) + HandedBy(graph.entries, Sink, n, old(graph.values))
      ensures spawned == HandedBy(graph.entries, AsyncCompute, n, old(graph.values))
    {
      spawned := [];
      if n !in graph.entries {
        return;
      }
      var entry := graph.entries[n];
      match entry.kind {
        case Compute =>
          var strategy := if n in strategies then strategies[n] else PropagateStale;
          var _ := ExecuteComputeWithErrorHandling(n, strategy);
        case Sink => graph.Emit(n);
        case AsyncCompute =>
          var future := entry.impl.run(Args(graph.values, entry.deps));
          if future.Some? {
            spawned := [(n, future.value)];
          }
        case Source =>
      }
    }

    /** Executes the sorted nodes one after the other. Whatever is emitted or spawned on the
        way is what the end-of-cycle values call for. */
    method ExecuteSequential(sorted: seq<NodeId>, ghost dirty: set<NodeId>) returns (spawns: Outputs)
      requires RunOrder(topology.View(), dirty, sorted) && DepsAgree(graph.entries, topology.View(), dirty)
      modifies graph`values, graph`emitted
      ensures Solves(graph.entries, strategies, Elems(sorted), old(graph.values), graph.values)
      ensures graph.emitted == old(graph.emitted) + Handed(graph.entries, Sink, sorted, graph.values)
      ensures spawns == Handed(graph.entries, AsyncCompute, sorted, graph.values)
    {
      ghost var e, before, earlier, done := topology.View(), graph.values, graph.emitted, [];
      spawns := [];
      var k := 0;
      while k < |sorted|
        invariant 0 <= k <= |sorted| && done == sorted[..k]
        invariant Executing(graph.entries, strategies, done, before, graph.values, earlier, graph.emitted, spawns)
      {
        var n := sorted[k];
        RunOrderPrefix(e, dirty, sorted, k + 1);
        assert sorted[..k + 1] == done + [n];
        ExecutingStep(graph.entries, strategies, e, dirty, done, n, before, graph.values, earlier, graph.emitted,
                      spawns);
        var spawned := ExecuteNode(n);
        spawns := spawns + spawned;
        done := done + [n];
        k := k + 1;
      }
      assert done == sorted;
    }

    /** Runs the sorted sync nodes in waves, then asks the sorted async nodes for futures. */
    method ExecuteParallel(sorted: seq<NodeId>, dirty: set<NodeId>) returns (spawns: Outputs, ghost order: seq<NodeId>)
      requires topology.View().Coherent() && DepsAgree(graph.entries, topology.View(), dirty)
      requires Elems(sorted) <= dirty
      modifies graph`values, graph`emitted
      ensures WaveOrder(graph.entries, topology.View(), dirty, sorted, order)
      ensures Solves(graph.entries, map[], Elems(order), old(graph.values), graph.values)
      ensures multiset(graph.emitted) ==
              multiset(old(graph.emitted)) + multiset(Handed(graph.entries, Sink, order, graph.values))
      ensures spawns == Handed(graph.entries, AsyncCompute, sorted, graph.values)
    {
      var syncSorted := SyncOnly(graph.entries, sorted);
      order := Schedulers.ExecuteParallel(graph, topology, syncSorted, dirty);
      assert forall n :: n in order ==> n in Elems(order);
      spawns := CollectSpawns(sorted);
    }

    method CollectSpawns(sorted: seq<NodeId>) returns (spawns: Outputs)
      ensures spawns == Handed(graph.entries, AsyncCompute, sorted, graph.values)
    {
      spawns := [];
      var k := 0;
      while k < |sorted|
        invariant 0 <= k <= |sorted|
        invariant spawns == Handed(graph.entries, AsyncCompute, sorted[..k], graph.values)
      {
        var n := sorted[k];
        assert sorted[..k + 1][..k] == sorted[..k];
        if n in graph.entries && graph.entries[n].kind == AsyncCompute {
          var entry := graph.entries[n];
          var future := entry.impl.run(Args(graph.values, entry.deps));
          if future.Some? {
            spawns := spawns + [(n, future.value)];
          }
        }
        k := k + 1;
      }
      assert sorted[..k] == sorted;
    }

    /** Hands futures to the async manager. */
    method SpawnAsyncWork(spawns: Outputs) returns (ghost lates: seq<bool>)
      requires asyncManager.Valid() && forall i :: 0 <= i < |spawns| ==> spawns[i].0 in graph.entries
      modifies asyncManager
      ensures asyncManager.Valid() && asyncManager.inbox == old(asyncManager.inbox)
      ensures Spawns(old(asyncManager.View()), graph.entries, spawns, lates, asyncManager.View())
    {
      ghost var m, entries := asyncManager.View(), graph.entries;
      lates := [];
      var k := 0;
      while k < |spawns|
        invariant 0 <= k <= |spawns| && asyncManager.Valid() && asyncManager.inbox == old(asyncManager.inbox)
        invariant Spawns(m, entries, spawns[..k], lates, asyncManager.View())
      {
        var impl := graph.entries[spawns[k].0].impl;
        var late := *;
        SpawnOneMore(m, entries, spawns, k, lates, late, asyncManager.View());
        AsyncRuntime.TriggeredInbox(asyncManager.View(), spawns[k].0, spawns[k].1, impl.policy, impl.group, late);
        asyncManager.Spawn(spawns[k].0, spawns[k].1, impl.policy, impl.group, late);
        lates := lates + [late];
        k := k + 1;
      }
      assert spawns[..k] == spawns;
    }

    /** Moves the queued source values into the store. */
    method DrainSources() returns (updates: Outputs)
      modifies graph`values, graph`sourceQueue
      ensures updates == old(graph.sourceQueue) && graph.sourceQueue == []
      ensures graph.values == Apply(old(graph.values), updates)
    {
      ghost var before := graph.values;
      updates := [];
      while graph.sourceQueue != []
        invariant updates + graph.sourceQueue == old(graph.sourceQueue)
        invariant graph.values == Apply(before, updates)
        decreases |graph.sourceQueue|
      {
        var u := graph.sourceQueue[0];
        assert (updates + [u])[..|updates|] == updates;
        assert updates + [u] + graph.sourceQueue[1..] == updates + graph.sourceQueue;
        graph.sourceQueue := graph.sourceQueue[1..];
        graph.values := graph.values[u.0 := u.1];
        updates := updates + [u];
      }
    }

    /** Moves drained async results into the store. */
    method StoreResults(results: Outputs)
      modifies graph`values
      ensures graph.values == Apply(old(graph.values), results)
    {
      ghost var before := graph.values;
      var k := 0;
      while k < |results|
        invariant 0 <= k <= |results| && graph.values == Apply(before, results[..k])
      {
        assert results[..k + 1][..k] == results[..k];
        graph.values := graph.values[results[k].0 := results[k].1];
        k := k + 1;
      }
      assert results[..k] == results;
    }

    /** Drains source values, then async results, into the store. */
    method DrainInputs() returns (updates: Outputs)
      requires asyncManager.Valid() && asyncManager.inbox == []
      modifies graph`values, graph`sourceQueue, asyncManager
      ensures asyncManager.Valid() && asyncManager.inbox == [] && graph.sourceQueue == []
      ensures updates == old(graph.sourceQueue) + AsyncRuntime.Results(old(asyncManager.channel))
      ensures graph.values == Apply(old(graph.values), updates)
      ensures asyncManager.View() ==
              AsyncRuntime.ProcessedAll(AsyncRuntime.ReceivedAll(old(asyncManager.View())))
    {
      ghost var before := graph.values;
      var sources := DrainSources();
      var results := asyncManager.DrainResults();
      StoreResults(results);
      updates := sources + results;
      ApplyAppends(before, sources, results);
    }

    /** Recomputes what depends on the updated nodes. */
    method Propagate(updates: Outputs, parallel: bool, ghost s: State)
      returns (spawns: Outputs, ghost sorted: seq<NodeId>, ghost order: seq<NodeId>)
      requires Invariant(s) && updates != [] && View() == s.(store := Apply(s.store, updates))
      modifies graph`values, graph`emitted
      ensures Cycled(s, View(), parallel, updates, sorted, order) && (!parallel ==> order == sorted)
      ensures !parallel ==> graph.emitted == old(graph.emitted) + Handed(graph.entries, Sink, order, graph.values)
      ensures parallel ==>
                multiset(graph.emitted) ==
                multiset(old(graph.emitted)) + multiset(Handed(graph.entries, Sink, order, graph.values))
      ensures spawns == Handed(graph.entries, AsyncCompute, sorted, graph.values)
    {
      var dirty := topology.DirtySet(set u | u in updates :: u.0);
      assert dirty == Dirty(s.edges, Ids(updates));
      DirtyIsActive(s, Ids(updates));
      var ordered := topology.TopoSort(dirty);
      sorted := ordered;
      RunOrderElems(topology.View(), dirty, sorted);
      if parallel {
        spawns, order := ExecuteParallel(ordered, dirty);
      } else {
        order := sorted;
        spawns := ExecuteSequential(ordered, dirty);
      }
    }

    /** One propagation cycle. The ghost results name the drained updates, the order of the
        sort, the order of execution, and the runtime's choices for aborted tasks. */
    method RunCycleImpl(parallel: bool)
      returns (ghost updates: Outputs, ghost sorted: seq<NodeId>, ghost order: seq<NodeId>, ghost lates: seq<bool>)
      requires Valid()
      modifies graph`values, graph`sourceQueue, graph`emitted, asyncManager
      ensures Valid() && graph.sourceQueue == []
      ensures updates == old(graph.sourceQueue) + AsyncRuntime.Results(old(asyncManager.channel))
      ensures Cycled(old(View()), View(), parallel, updates, sorted, order) && (!parallel ==> order == sorted)
      ensures !parallel ==> graph.emitted == old(graph.emitted) + Handed(graph.entries, Sink, order, graph.values)
      ensures parallel ==>
                multiset(graph.emitted) ==
                multiset(old(graph.emitted)) + multiset(Handed(graph.entries, Sink, order, graph.values))
      ensures Spawns(AsyncRuntime.ProcessedAll(AsyncRuntime.ReceivedAll(old(asyncManager.View()))), graph.entries,
                     Handed(graph.entries, AsyncCompute, sorted, graph.values), lates, asyncManager.View())
    {
      ghost var s := View();
      sorted, order, lates := [], [], [];
      var drained := DrainInputs();
      updates := drained;
      var updatedIds := set u | u in drained :: u.0;
      UpdatesHaveIds(drained);
      assert updatedIds == Ids(drained);
      if updatedIds == {} {
        return;
      }
      var spawns;
      spawns, sorted, order := Propagate(drained, parallel, s);
      HandedAreRegistered(graph.entries, AsyncCompute, sorted, graph.values);
      lates := SpawnAsyncWork(spawns);
    }

    method RunCycle()
      returns (ghost updates: Outputs, ghost sorted: seq<NodeId>, ghost lates: seq<bool>)
      requires Valid()
      modifies this, topology, graph, asyncManager, removals
      ensures Valid() && removals.pending == []
      ensures updates == old(graph.sourceQueue) + AsyncRuntime.Results(old(asyncManager.channel))
      ensures InputsInOrder(old(graph.sourceQueue), old(asyncManager.channel), updates)
      ensures InputsStored(old(graph.sourceQueue), old(asyncManager.channel), graph.entries, graph.values)
      ensures Cycled(Drained(old(View()), old(removals.pending)), View(), false, updates, sorted, sorted)
      ensures graph.emitted == old(graph.emitted) + Handed(graph.entries, Sink, sorted, graph.values)
      ensures graph.sourceQueue == []
      ensures Spawns(AsyncRuntime.ProcessedAll(AsyncRuntime.ReceivedAll(old(asyncManager.View()))), graph.entries,
                     Handed(graph.entries, AsyncCompute, sorted, graph.values), lates, asyncManager.View())
    {
      ghost var order;
      ghost var queue, channel := graph.sourceQueue, asyncManager.channel;
      DrainPendingRemovals();
      ghost var s := View();
      updates, sorted, order, lates := RunCycleImpl(false);
      InputsAreStored(s, View(), false, updates, sorted, order, queue, channel);
    }

    method RunCycleParallel()
      returns (ghost updates: Outputs, ghost sorted: seq<NodeId>, ghost order: seq<NodeId>, ghost lates: seq<bool>)
      requires Valid()
      modifies this, topology, graph, asyncManager, removals
      ensures Valid() && removals.pending == []
      ensures updates == old(graph.sourceQueue) + AsyncRuntime.Results(old(asyncManager.channel))
      ensures InputsInOrder(old(graph.sourceQueue), old(asyncManager.channel), updates)
      ensures InputsStored(old(graph.sourceQueue), old(asyncManager.channel), graph.entries, graph.values)
      ensures Cycled(Drained(old(View()), old(removals.pending)), View(), true, updates, sorted, order)
      ensures multiset(graph.emitted) ==
              multiset(old(graph.emitted)) + multiset(Handed(graph.entries, Sink, order, graph.values))
      ensures graph.sourceQueue == []
      ensures Spawns(AsyncRuntime.ProcessedAll(AsyncRuntime.ReceivedAll(old(asyncManager.View()))), graph.entries,
                     Handed(graph.entries, AsyncCompute, sorted, graph.values), lates, asyncManager.View())
    {
      ghost var queue, channel := graph.sourceQueue, asyncManager.channel;
      DrainPendingRemovals();
      ghost var s := View();
      updates, sorted, order, lates := RunCycleImpl(true);
      InputsAreStored(s, View(), true, updates, sorted, order, queue, channel);
    }

    // ----- the public lifecycle operations -----

    method SetErrorStrategy(n: NodeId, strategy: ErrorStrategy)
      requires Valid()
      modifies this`strategies
      ensures Valid() && View() == old(View()).(strategies := old(strategies)[n := strategy])
    {
      strategies := strategies[n := strategy];
    }

    method Register(id: NodeId, kind: NodeKind, deps: seq<NodeId>, impl: NodeImpl) returns (isNew: bool)
      requires Valid()
      modifies this, topology, graph`values, graph`entries, removals
      ensures Valid() && removals.pending == []
      ensures View() == Registered(Drained(old(View()), old(removals.pending)), id, kind, deps, impl)
      ensures isNew <==> id !in Drained(old(View()), old(removals.pending)).entries
    {
      DrainPendingRemovals();
      RegisteredKeepsInvariant(View(), id, kind, deps, impl);
      isNew := graph.RegisterNode(id, kind, deps, impl);
    }

    method ActivateSink(id: NodeId)
      requires Valid()
      modifies this, topology, graph`values, graph`entries, removals
      ensures Valid() && removals.pending == []
      ensures Activated(Drained(old(View()), old(removals.pending)), View(), id)
      ensures ValuesSettled(Drained(old(View()), old(removals.pending)), View(), {}, id, {})
    {
      DrainPendingRemovals();
      ActivateNode(id, {});
    }

    /** Registers a subgraph and activates its sinks. `states` records the states passed. */
    method Merge(g: Subgraph) returns (handle: SubgraphHandle, ghost states: seq<State>)
      requires Valid()
      modifies this, topology, graph`values, graph`entries, removals
      ensures Valid() && removals.pending == []
      ensures Merged(Drained(old(View()), old(removals.pending)), g, states, View())
      ensures forall n :: n in active <==>
                n in Drained(old(View()), old(removals.pending)).active ||
                ReachedBySink(Drained(old(View()), old(removals.pending)).(entries := graph.entries), g.nodeIds, n)
      ensures forall id :: id in g.nodeIds && IsKind(graph.entries, id, Sink) ==> id in active
      ensures WellBuilt(g) ==>
                EntriesMerged(Drained(old(View()), old(removals.pending)).entries, graph.entries, g.descriptors)
      ensures fresh(handle) && handle.nodeIds == g.nodeIds && handle.removals == removals
    {
      DrainPendingRemovals();
      ghost var s := View();
      RegisterDescriptors(g.descriptors);
      states := ActivateSinks(g.nodeIds);
      MergeActivatesExactly(s, g, states, View());
      if WellBuilt(g) {
        MergeRegistersExactly(s, g, states, View());
      }
      handle := new SubgraphHandle(g.nodeIds, removals);
    }

    method RegisterDescriptors(ds: seq<Descriptor>)
      requires Invariant(View())
      modifies graph`entries
      ensures View() == RegisteredAll(old(View()), ds) && Invariant(View())
    {
      ghost var s := View();
      var k := 0;
      while k < |ds|
        invariant 0 <= k <= |ds| && View() == RegisteredAll(s, ds[..k])
      {
        assert ds[..k + 1][..k] == ds[..k];
        var _ := graph.RegisterNode(ds[k].id, ds[k].kind, ds[k].deps, ds[k].impl);
        k := k + 1;
      }
      assert ds[..k] == ds;
      RegisteredAllKeepsInvariant(s, ds);
    }

    method ActivateIfSink(id: NodeId)
      requires Valid() && removals.pending == []
      modifies this, topology, graph`values, graph`entries, removals
      ensures Valid() && removals.pending == []
      ensures SinkActivated(old(View()), View(), id)
    {
      if id in graph.entries && graph.entries[id].kind == Sink {
        NothingDrained(View());
        ActivateSink(id);
      }
    }

    method ActivateSinks(ids: seq<NodeId>) returns (ghost states: seq<State>)
      requires Valid() && removals.pending == []
      modifies this, topology, graph`values, graph`entries, removals
      ensures Valid() && removals.pending == [] && SinksActivated(ids, states)
      ensures states[0] == old(View()) && states[|ids|] == View()
    {
      states := [View()];
      var k := 0;
      while k < |ids|
        invariant 0 <= k <= |ids| && Valid() && removals.pending == []
        invariant |states| == k + 1 && states[0] == old(View()) && states[k] == View()
        invariant SinksActivated(ids[..k], states)
      {
        ActivateIfSink(ids[k]);
        OneMoreSink(ids[..k], states, ids[k], View());
        states := states + [View()];
        assert ids[..k + 1] == ids[..k] + [ids[k]];
        k := k + 1;
      }
      assert ids[..k] == ids;
    }
  }

  lemma NothingDrained(s: State)
    requires Counted(s.entries)
    ensures Drained(s, []) == s
  {
  }

  lemma OneMoreSink(ids: seq<NodeId>, states: seq<State>, id: NodeId, t: State)
    requires SinksActivated(ids, states)
    requires SinkActivated(states[|ids|], t, id)
    ensures SinksActivated(ids + [id], states + [t])
  {
    var longer, after := ids + [id], states + [t];
    forall i {:trigger longer[i]} | 0 <= i < |longer|
      ensures SinkActivated(after[i], after[i + 1], longer[i])
    {
      if i < |ids| {
        assert longer[i] == ids[i] && after[i] == states[i] && after[i + 1] == states[i + 1];
      }
    }
  }

  lemma HandedAreRegistered(entries: Entries, kind: NodeKind, order: seq<NodeId>, store: Store)
    ensures forall i :: 0 <= i < |Handed(entries, kind, order, store)| ==>
              Handed(entries, kind, order, store)[i].0 in entries
  {
    HandedIds(entries, kind, order, store);
    assert forall i :: 0 <= i < |Handed(entries, kind, order, store)| ==>
      Handed(entries, kind, order, store)[i] in Handed(entries, kind, order, store);
  }

  lemma UpdatesHaveIds(updates: Outputs)
    ensures updates != [] ==> Ids(updates) != {}
  {
    if updates != [] {
      assert updates[0] in updates;
      assert updates[0].0 in Ids(updates);
    }
  }
}
