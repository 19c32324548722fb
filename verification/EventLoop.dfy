/** One turn of the event loop (src/event_loop.rs): a batch of commands, then at most one
    propagation cycle. */
module EventLoops {
  import opened Nodes
  import opened Commands
  import opened Topologies
  import opened Propagation
  import opened CycleLaws
  import opened Lifecycle
  import opened Runs
  import opened Subgraphs
  import opened Engines
  import Async = AsyncJobs
  import AsyncRuntime

  ghost predicate MergedSomehow(s: State, g: Subgraph, t: State) {
    exists passed :: Merged(s, g, passed, t)
  }

  /** What one command does to the engine's state. */
  ghost predicate Obeyed(s: State, c: Command, t: State) {
    match c
    case Merge(g) => MergedSomehow(s, g, t)
    case Remove(ids) => Counted(s.entries) && t == Released(s, Reversed(ids)).0
    case _ => t == s
  }

  /** `states` is what the commands, in order, lead through. */
  ghost predicate ObeyedAll(commands: seq<Command>, states: seq<State>) {
    |states| == |commands| + 1 &&
    forall i {:trigger commands[i]} :: 0 <= i < |commands| ==> Obeyed(states[i], commands[i], states[i + 1])
  }

  lemma ObeyedOneMore(commands: seq<Command>, states: seq<State>, c: Command, t: State)
    requires ObeyedAll(commands, states) && Obeyed(states[|commands|], c, t)
    ensures ObeyedAll(commands + [c], states + [t])
  {
    var longer, after := commands + [c], states + [t];
    forall i {:trigger longer[i]} | 0 <= i < |longer| ensures Obeyed(after[i], longer[i], after[i + 1]) {
      if i < |commands| {
        assert longer[i] == commands[i] && after[i] == states[i] && after[i + 1] == states[i + 1];
      }
    }
  }

  // ----- what commands mean -----

  /** One reference to each listed node is given up, once per occurrence, and the nodes in
      `gone` are erased: those whose count does not exceed what is given up on them, directly
      and by erased dependents. The others keep the difference. */
  ghost predicate CountsGivenBack(before: Entries, ids: seq<NodeId>, gone: seq<NodeId>, after: Entries) {
    && (forall x :: x in before ==>
          (x in gone <==> before[x].refCount <= multiset(ids)[x] + GivenUp(before, gone, x)))
    && (forall x :: x in after <==> x in before && x !in gone)
    && (forall x :: x in before && x in after ==>
          before[x] == after[x].(refCount := after[x].refCount + multiset(ids)[x] + GivenUp(before, gone, x)))
  }

  /** All else that is known about the nodes in `gone` is erased, and about no others. */
  ghost predicate Forgotten(s: State, gone: set<NodeId>, t: State) {
    && t.active == s.active - gone && t.guards == s.guards - gone && t.store == s.store - gone
    && t.strategies == s.strategies - gone && t.edges == RemovedAll(s.edges, gone)
  }

  lemma CountsAreGivenBack(s: State, work: seq<NodeId>, ids: seq<NodeId>)
    requires Invariant(s) && multiset(work) == multiset(ids)
    ensures CountsGivenBack(s.entries, ids, Released(s, work).1, Released(s, work).0.entries)
  {
    ReleasedIsBalanced(s, work);
    ReleasedIsSurvivors(s, work);
  }

  /** Handling a removal gives up the listed references and nothing else, and erases no more
      nodes than that calls for. */
  lemma RemoveGivesBack(s: State, ids: seq<NodeId>, t: State) returns (gone: seq<NodeId>)
    requires Invariant(s) && Obeyed(s, Remove(ids), t)
    ensures CountsGivenBack(s.entries, ids, gone, t.entries) && Forgotten(s, Elems(gone), t)
    ensures forall others :: NoDup(others) && Closed(s.entries, ids, others) ==> Elems(gone) <= Elems(others)
  {
    var work := Reversed(ids);
    gone := Released(s, work).1;
    ReversedCounts(ids);
    CountsAreGivenBack(s, work, ids);
    ReleasedIsSurvivors(s, work);
    forall others | NoDup(others) && Closed(s.entries, ids, others) ensures Elems(gone) <= Elems(others) {
      ErasesNoMore(s, work, ids, others);
    }
  }

  lemma ErasesNoMore(s: State, work: seq<NodeId>, ids: seq<NodeId>, others: seq<NodeId>)
    requires Counted(s.entries) && multiset(work) == multiset(ids)
    requires NoDup(others) && Closed(s.entries, ids, others)
    ensures Elems(Released(s, work).1) <= Elems(others)
  {
    assert Closed(s.entries, work, others) by {
      assert forall x :: Demand(s.entries, work, others, x) == Demand(s.entries, ids, others, x);
    }
    ErasedIsLeast(s, work, others);
  }

  /** Handling a merge activates exactly what the listed sinks reach, and registers exactly what
      the subgraph describes. */
  lemma MergeTakesEffect(s: State, g: Subgraph, t: State)
    requires Invariant(s) && Obeyed(s, Merge(g), t)
    ensures forall n :: n in t.active <==> n in s.active || ReachedBySink(s.(entries := t.entries), g.nodeIds, n)
    ensures WellBuilt(g) ==> EntriesMerged(s.entries, t.entries, g.descriptors)
  {
    var passed :| Merged(s, g, passed, t);
    MergeActivatesExactly(s, g, passed, t);
    if WellBuilt(g) {
      MergeRegistersExactly(s, g, passed, t);
    }
  }

  /** What a command's sender must respect: see `Allowed`. */
  ghost predicate Permitted(s: State, c: Command) {
    match c
    case Merge(g) => AllAllowed(s, g.descriptors)
    case Remove(ids) => Allowed(s, Release(Reversed(ids)))
    case _ => true
  }

  lemma {:induction false} ObeyingStaysReachable(commands: seq<Command>, states: seq<State>, i: nat)
    requires ObeyedAll(commands, states) && i <= |commands| && Reachable(states[0])
    requires forall k {:trigger commands[k]} :: 0 <= k < |commands| ==> Permitted(states[k], commands[k])
    ensures Reachable(states[i])
  {
    if i > 0 {
      ObeyingStaysReachable(commands, states, i - 1);
      var s, c, t := states[i - 1], commands[i - 1], states[i];
      assert Permitted(s, c) && Obeyed(s, c, t);
      match c
      case Merge(g) =>
        var passed :| Merged(s, g, passed, t);
        MergedIsReachable(s, g, passed, t);
      case Remove(ids) => ReleasedIsReachable(s, Reversed(ids));
      case _ =>
    }
  }

  /** A turn of the loop keeps everything that runs keep: whatever batch of merges, removals
      and updates it handles, afterwards every active compute node holds what its
      implementation answers for the current values of its dependencies. */
  lemma TurnKeepsValuesCurrent(commands: seq<Command>, states: seq<State>, updates: Outputs, sorted: seq<NodeId>,
                               t: State)
    requires ObeyedAll(commands, states) && Reachable(states[0])
    requires forall k {:trigger commands[k]} :: 0 <= k < |commands| ==> Permitted(states[k], commands[k])
    requires Allowed(states[|commands|], Cycle(updates, false, sorted, sorted))
    requires Cycled(states[|commands|], t, false, updates, sorted, sorted)
    ensures Reachable(t) && Consistent(t.entries, t.active, t.store)
  {
    ObeyingStaysReachable(commands, states, |commands|);
    CycledIsReachable(states[|commands|], t, updates, false, sorted, sorted);
    ReachableIsConsistent(t);
  }

  /** The commands of a turn, one by one. `hasUpdates` collects whether a cycle is due. */
  method Handle(engine: Engine, c: Command) returns (wakes: bool, stops: bool)
    requires engine.Valid() && engine.removals.pending == []
    modifies engine, engine.topology, engine.removals
    modifies engine.graph`values, engine.graph`entries, engine.graph`sourceQueue
    ensures engine.Valid() && engine.removals.pending == []
    ensures Obeyed(old(engine.View()), c, engine.View())
    ensures c.SourceUpdate? || c.Shutdown? || c.AsyncComplete? || c.SourceReady? ==>
              engine.View() == old(engine.View())
    ensures engine.graph.sourceQueue == old(engine.graph.sourceQueue) + UpdateOf(c)
    ensures UpdateOf(c) == if c.SourceUpdate? then [(c.id, c.value)] else []
    ensures wakes == Wakes(c) && stops == c.Shutdown?
    ensures wakes <==> c.SourceUpdate? || c.AsyncComplete? || c.SourceReady?
  {
    ghost var s := engine.View();
    wakes, stops := false, false;
    match c {
      case SourceUpdate(id, value) =>
        engine.graph.Send(id, value);
        wakes := true;
      case SourceReady => wakes := true;
      case Merge(g) =>
        engine.RegisterDescriptors(g.descriptors);
        ghost var passed := engine.ActivateSinks(g.nodeIds);
        assert Merged(s, g, passed, engine.View());
      case Remove(ids) =>
        var reversed := Reversed(ids);
        engine.DeactivateAll(reversed);
      case AsyncComplete => wakes := true;
      case Shutdown => stops := true;
    }
  }

  /** What handling one more command adds to what is known about the batch. */
  lemma BatchOneMore(done: seq<Command>, c: Command)
    ensures UpdatesOf(done + [c]) == UpdatesOf(done) + UpdateOf(c)
    ensures AnyWakes(done + [c]) <==> AnyWakes(done) || Wakes(c)
    ensures Shutdown in done + [c] <==> Shutdown in done || c == Shutdown
  {
    UpdatesAppend(done, [c]);
    UpdatesHead(c, []);
    assert [c] + [] == [c];
    assert c in done + [c];
  }

  /** The whole batch, in order. */
  method HandleAll(engine: Engine, commands: seq<Command>)
    returns (hasUpdates: bool, shutdown: bool, ghost states: seq<State>)
    requires engine.Valid() && engine.removals.pending == []
    modifies engine, engine.topology, engine.removals
    modifies engine.graph`values, engine.graph`entries, engine.graph`sourceQueue
    ensures engine.Valid() && engine.removals.pending == []
    ensures hasUpdates <==> AnyWakes(commands)
    ensures shutdown <==> Shutdown in commands
    ensures ObeyedAll(commands, states) && states[0] == old(engine.View()) && states[|commands|] == engine.View()
    ensures engine.graph.sourceQueue == old(engine.graph.sourceQueue) + UpdatesOf(commands)
  {
    ghost var before, done := engine.graph.sourceQueue, [];
    var k := 0;
    hasUpdates, shutdown, states := false, false, [engine.View()];
    while k < |commands|
      invariant 0 <= k <= |commands| && done == commands[..k] && engine.Valid() && engine.removals.pending == []
      invariant (shutdown <==> Shutdown in done) && (hasUpdates <==> AnyWakes(done))
      invariant ObeyedAll(done, states) && states[0] == old(engine.View()) && states[k] == engine.View()
      invariant engine.graph.sourceQueue == before + UpdatesOf(done)
    {
      var c := commands[k];
      BatchOneMore(done, c);
      Associates(before, UpdatesOf(done), UpdateOf(c));
      var wakes, stops := Handle(engine, c);
      ObeyedOneMore(done, states, c, engine.View());
      states := states + [engine.View()];
      hasUpdates, shutdown := hasUpdates || wakes, shutdown || stops;
      done := done + [c];
      k := k + 1;
    }
    assert done == commands;
  }

  /** The async manager has processed the results that were waiting, then been handed what the
      sorted async nodes call for at the end of the cycle. */
  ghost predicate Spawned(before: Async.Manager, engine: Engine, sorted: seq<NodeId>, lates: seq<bool>)
    reads engine, engine.graph, engine.asyncManager
  {
    Spawns(AsyncRuntime.ProcessedAll(AsyncRuntime.ReceivedAll(before)), engine.graph.entries,
           Handed(engine.graph.entries, AsyncCompute, sorted, engine.graph.values), lates, engine.asyncManager.View())
  }

  /** One turn of the loop on the commands it has collected: all commands in order, then one
      cycle if any of them calls for it, on exactly the updates that are then waiting. */
  method Turn(engine: Engine, commands: seq<Command>)
    returns (shutdown: bool, ghost states: seq<State>, ghost updates: Outputs, ghost sorted: seq<NodeId>,
             ghost lates: seq<bool>)
    requires engine.Valid() && engine.removals.pending == []
    modifies engine, engine.topology, engine.graph, engine.asyncManager, engine.removals
    ensures engine.Valid() && engine.removals.pending == []
    ensures shutdown <==> Shutdown in commands
    ensures ObeyedAll(commands, states) && states[0] == old(engine.View())
    ensures AnyWakes(commands) ==>
              && updates == old(engine.graph.sourceQueue) + UpdatesOf(commands) +
                            AsyncRuntime.Results(old(engine.asyncManager.channel))
              && InputsStored(old(engine.graph.sourceQueue) + UpdatesOf(commands), old(engine.asyncManager.channel),
                              engine.graph.entries, engine.graph.values)
              && Cycled(states[|commands|], engine.View(), false, updates, sorted, sorted)
              && engine.graph.sourceQueue == []
              && engine.graph.emitted == old(engine.graph.emitted) +
                   Handed(engine.graph.entries, Sink, sorted, engine.graph.values)
              && Spawned(old(engine.asyncManager.View()), engine, sorted, lates)
    ensures !AnyWakes(commands) ==>
              && engine.View() == states[|commands|] && engine.graph.emitted == old(engine.graph.emitted)
              && engine.graph.sourceQueue == old(engine.graph.sourceQueue)
              && engine.asyncManager.View() == old(engine.asyncManager.View())
  {
    var hasUpdates;
    hasUpdates, shutdown, states := HandleAll(engine, commands);
    updates, sorted, lates := [], [], [];
    if hasUpdates {
      updates, sorted, lates := RunCycle(engine, states[|commands|]);
    } else {
      NoUpdates(commands);
    }
  }

  /** The cycle of a turn; no removal can be pending in an engine behind a loop. */
  method RunCycle(engine: Engine, ghost s: State)
    returns (ghost updates: Outputs, ghost sorted: seq<NodeId>, ghost lates: seq<bool>)
    requires engine.Valid() && engine.removals.pending == [] && engine.View() == s
    modifies engine, engine.topology, engine.graph, engine.asyncManager, engine.removals
    ensures engine.Valid() && engine.removals.pending == [] && engine.graph.sourceQueue == []
    ensures updates == old(engine.graph.sourceQueue) + AsyncRuntime.Results(old(engine.asyncManager.channel))
    ensures InputsStored(old(engine.graph.sourceQueue), old(engine.asyncManager.channel), engine.graph.entries,
                         engine.graph.values)
    ensures Cycled(s, engine.View(), false, updates, sorted, sorted)
    ensures engine.graph.emitted == old(engine.graph.emitted) +
              Handed(engine.graph.entries, Sink, sorted, engine.graph.values)
    ensures Spawned(old(engine.asyncManager.View()), engine, sorted, lates)
  {
    NothingDrained(s);
    updates, sorted, lates := engine.RunCycle();
  }
}
