# A verified model of the reactive graph engine

The repository is a reactive computation graph engine. Sources feed values into a value
store; compute nodes, sinks and async nodes depend on other nodes; a propagation cycle drains
the incoming values, finds what depends on them, sorts it and re-executes only that. Nodes are
reference counted, subgraphs are merged and removed at run time, async results arrive through a
channel, and an event loop batches commands around the cycles.

This project models that engine in Dafny, from the adjacency lists up to the event loop, and
proves what it is for: recomputing only the dirty nodes gives what recomputing everything would
give; hash-map order cannot be observed; the wave executor refines the sequential one; batching
updates is transparent; a fresh subgraph can be merged and removed without trace; no async work
is lost, run twice or stranded; no wake-up is lost. Nothing was executed.

| file | module | what it holds |
|---|---|---|
| `Nodes.dfy` | `Nodes` | node ids, values, entries, the value store, strict kernels |
| `Topology.dfy` | `Topologies` | class `Topology`; dirty set; Kahn's sort, its soundness and exact coverage |
| `Propagation.dfy` | `Propagation` | the recompute equations of a cycle, their unique solution, their denotation |
| `CycleLaws.dfy` | `CycleLaws` | confluence, parallel against sequential, incremental against full, batching |
| `Lifecycle.dfy` | `Lifecycle` | registration and the release cascade as functions on one state; the ledger of a cascade |
| `Activation.dfy` | `Activation` | what recursive activation reaches, adds and computes |
| `Runs.dfy` | `Runs` | runs of operations and what holds in every state they reach |
| `Lagging.dfy` | `Lagging` | parallel cycles with dirty async nodes: what they leave behind, and catching up |
| `Counterexamples.dfy` | `Counterexamples` | runs that show what documentation or tests do not expect |
| `Subgraph.dfy` | `Subgraphs` | class `SubgraphBuilder`; merging, and what removal undoes |
| `Coexistence.dfy` | `Coexistence` | cycles while a subgraph is merged, seen from outside it |
| `Graph.dfy` | `Graphs` | class `Graph`: registry, value store, source channel, emissions |
| `Scheduler.dfy` | `Schedulers` | the wave executor |
| `Engine.dfy` | `Engines` | class `Engine` and `SubgraphHandle`; every method proved against the functions above |
| `AsyncManager.dfy`, `AsyncLaws.dfy` | `AsyncJobs`, `AsyncLaws` | the async manager as a step system, and its laws over all runs |
| `StartLaws.dfy` | `StartLaws` | which job each step starts; exactly when running tasks exceed a group's maximum |
| `GroupQueue.dfy` | `GroupQueues` | first in, first out across a group; what runs remember of their events: roles, groups, futures |
| `QueueLaws.dfy` | `QueueLaws` | exactly when a `Queue` node runs one task at a time, and in which order it delivers |
| `AsyncRuntime.dfy` | `AsyncRuntime` | class `AsyncManager`, each method proved to make a step of that system |
| `Command.dfy` | `Commands` | the event loop's commands |
| `WakeUp.dfy` | `WakeUp` | bridge, tasks, clients and loop as interleaved steps |
| `EventLoop.dfy` | `EventLoops` | one turn of the event loop around the engine |

How it is modelled:

- `NodeId` and `Value` are abstract types with equality. A node implementation is a function from
  the optional values of its dependencies to an optional result, which also covers a downcast
  that fails. The built-in compute nodes answer exactly when every dependency has a value
  (`src/builder/compute.rs:131-138`); this is `Nodes.Strict`, and it is a hypothesis only where
  a result needs it.
- Iterating a hash map or hash set is an arbitrary choice (`Topologies.InAnyOrder`), so every
  contract holds for every iteration order.
- Dependency lists may repeat a node. A topology is `Coherent` when each reverse edge has either
  its full multiplicity or has gone altogether, which is what removing a node leaves behind. The
  sort needs no more than that: cycles, missing nodes and lost edges are all allowed.
- A cycle's meaning is a set of equations on the final store (`Propagation.Solves`), in which each
  executed node refers to the *final* values of its dependencies. The executors are loops that
  are proved to reach a solution; on an ordered set of nodes the solution is unique.
- Threads and tasks are steps of the environment. A wave reads the store of its start, its nodes
  run in any order, and its results are written afterwards. A future is represented by the value
  it will deliver. The flag `late` on a trigger is the runtime's choice of whether aborting a
  running task still stops it from sending its result.
- The mutable classes keep the source's fields. Each method states its whole new state through a
  function or relation on values; the laws are proved about these.

Where the code departs from what its documentation or tests suggest, the code is modelled:

- The feature list promises automatic dedup of shared nodes, and the test at `src/lib.rs:618-676`
  expects a shared source to stay while another subgraph or a direct registration refers to it.
  Merging counts one reference per described node, but removing a subgraph releases each listed id
  and, in addition, each dependency of each erased node. The node can therefore go while others
  still need it: `Counterexamples.SharedSourceIsLost` is a run that shows it, and `Lifecycle.SharedSurviveIff`
  gives the exact condition, for any number of shared nodes, on the state before the removal.
- `src/graph.rs:25` promises that a `Queue` node computes sequentially. In a concurrency group this can
  break: `QueueLaws.GroupedQueueOverlaps` is a run in which two futures of one node run at once. Exactly
  when is `QueueLaws.SequentialIff`: a step starts a task of the node while another one runs, where
  `StartLaws.StartedBy` names the job a step starts. It takes, then or earlier in the run, a completion of
  another node of the group that hands its slot to a queued future of a node that has a task started
  and not yet processed (`QueueLaws.OneStartedIffNeverDoubled`); triggers alone never get there.
  Delivery is first in, first out until the node is triggered while it is idle with an earlier
  future waiting in the group queue (`QueueLaws.QueueIsFifo`), and outside groups always
  (`QueueLaws.UngroupedQueueIsFifo`).
- A concurrency group can run more tasks than it allows: `AsyncLaws.LateAbortOverruns` is a run in which a
  group of one runs two, because a task was cancelled when its result was already in the channel. The
  counter stays exact exactly as long as no abort comes too late (`AsyncLaws.ExactIffInTime`), and
  running tasks stay within the maximum exactly as long as no step starts one while the group's
  remaining running tasks are at the maximum (`StartLaws.WithinIffNeverOverrun`).
- `src/error.rs:4-7` says that `PropagateStale` does not propagate and that `PropagateError` forwards an
  error value. In the code a node's result stops at the node exactly when nothing depends on it
  (`Runs.StopsIffNoDependents`); `Counterexamples.StaleValuePropagates` is a run in which a sink is called
  again with a stale value. `PropagateError` deletes the value.
- The wave executor ignores strategies. This shows exactly when some node that uses `PropagateError`
  has a value and will have no answer (`CycleLaws.ParallelIffNothingRetracted`);
  `Counterexamples.StrategyMatters` is a run. In states in which no surviving node has lost a dependency it
  never shows (`Runs.ReachableParallelIsSequential`).

## Model

| member | source | states |
|---|---|---|
| `Topologies.Topology.AddNode` | src/topology.rs:22-32 | The new node is linked from each dependency once per occurrence, behind the links already there, and both maps gain its key; what that means edge by edge is `AddedEdges`. |
| `Topologies.AddedEdges` | src/topology.rs:22-32 | Adding a node that is not yet there creates exactly the reverse edges its dependency list calls for, with multiplicity, touches no other edge and keeps the topology coherent. |
| `Topologies.Topology.RemoveNode` | src/topology.rs:35-45 | Removing a node, present or not, takes it out of the lists of its own dependencies only and forgets both its entries; what that means edge by edge is `RemovedEdges`. |
| `Topologies.RemovedEdges` | src/topology.rs:35-45 | In a coherent topology that is enough to erase every edge into and out of the node and nothing else; the topology stays coherent, although dependents lose their reverse edge. |
| `Topologies.RemovedAllTwice` | src/topology.rs:35-45 | Removals compose: removing two groups one after the other removes their union, whatever the order. |
| `Topologies.RemovedIsRemovedAll` | src/topology.rs:35-45 | Filtering only the lists of the node's own dependencies is the same as filtering every list. |
| `Topologies.Topology.DirtySet` | src/topology.rs:48-62 | The dirty set is exactly the nodes reachable from the updated ones by one or more reverse edges; the search ends on cyclic graphs too. |
| `Topologies.DownstreamLeast` | src/topology.rs:48-62 | The dirty set is contained in every set that holds the dependents of the updated nodes and is closed under dependents. |
| `Topologies.Topology.TopoSort` | src/topology.rs:66-106 | For any dirty set of a coherent topology: no node twice, only dirty nodes, each after all its dirty dependencies, and no node left out whose dirty dependencies all came and could report to it. |
| `Topologies.Topology.InDegrees` | src/topology.rs:72-79 | Each dirty node's initial count is the number of its dirty dependencies, repeats included. |
| `Topologies.Topology.Release` | src/topology.rs:93-102 | One round lowers each count by exactly the number of reverse edges, so the saturating subtraction never saturates, and queues exactly the nodes whose count reaches zero, each once. |
| `Topologies.PendingStep` | src/topology.rs:93-102 | What a node still waits for drops by exactly the multiplicity of the reverse edge when one more node has run. |
| `Topologies.KahnSameNodes` | src/topology.rs:82-103 | Whatever order the hash maps are iterated in, the same nodes are sorted. |
| `Topologies.KahnCovers` | src/topology.rs:66-106 | The sort covers the whole dirty set if and only if the dependencies inside it form no cycle and all still have their reverse edges. |
| `Topologies.InAnyOrder` | src/topology.rs:50 | Iterating a hash set yields each element once, in an order the caller cannot know. |
| `Propagation.SolvesStep` | src/engine.rs:303-311 | Executing the next node of a run order keeps every earlier node's equation true, for the strategies as implemented. |
| `Propagation.UniqueSolution` | src/engine.rs:288-395 | At most one store satisfies a cycle's equations, so no executor can end anywhere else. |
| `Propagation.SolvesIsMeaning` | src/engine.rs:288-395 | That store is the denotation: each dirty compute node's value by recursion over the graph alone; a missing answer deletes the value under `PropagateError` and keeps the old one otherwise. |
| `Propagation.OrderIsRanked` | src/topology.rs:82-103 | A sorted order witnesses that the executed nodes form no cycle. |
| `Propagation.HandedOnce` | src/engine.rs:312-331 | A sink emits, and an async node spawns, at most once per cycle, and exactly the payload that the end-of-cycle values of its dependencies call for. |
| `Propagation.HandedStep` | src/engine.rs:312-331 | Nothing handed out earlier in the cycle would come out differently after later nodes have run. |
| `Propagation.HandedInOrder` | src/engine.rs:295-333 | Payloads come in run order: a node's own, which is what its implementation answers for its dependencies' values, stands between those of the nodes that ran before and after it. |
| `CycleLaws.Confluence` | src/topology.rs:82-103 | Hash-map order cannot be observed: any two orders the sort may return leave the same store and make the same emissions. |
| `CycleLaws.GlitchFree` | src/engine.rs:295-333 | Each dirty node runs at one point, after all its dirty dependencies; its result answers the end-of-cycle values of what it read; a sink emits what these values call for, once, or not at all. |
| `CycleLaws.WavesRunAll` | src/scheduler.rs:50-106 | Without async nodes the waves run exactly the sorted nodes. |
| `CycleLaws.WaveRunSet` | src/scheduler.rs:37-106 | On an acyclic dirty set the waves execute precisely the nodes to which no chain of dirty dependencies leads from a dirty async node. |
| `CycleLaws.ParallelIffNothingRetracted` | src/scheduler.rs:26-107 | Without dirty async nodes the two executors leave the same store if and only if no executed node uses `PropagateError`, has a value after the drain, and has no answer to what it will read; all this is determined before the cycle runs. Then they also emit the same. |
| `CycleLaws.ParallelRefinesSequential` | src/scheduler.rs:26-107 | Parallel refines sequential, for every wave order and every topological order, when no dirty node is async or uses `PropagateError`. |
| `CycleLaws.ExecutorsDifferOnlyBehindAsync` | src/engine.rs:397-425 | With dirty async nodes, the two executors leave different values only at dirty nodes to which a chain of dirty dependencies leads from one, as long as no other node will lose its value under `PropagateError`. |
| `CycleLaws.ConsistentMeans` | src/builder/compute.rs:131-138 | In a consistent store an active compute node has a value if and only if all its dependencies have one, and then it is what the node computes from them. |
| `CycleLaws.ValuesStay` | src/engine.rs:347-393 | A cycle that starts consistent takes no value away, whatever the strategies. |
| `CycleLaws.CycleKeepsConsistent` | src/engine.rs:241-286 | Recomputing only the dirty nodes makes every active compute node consistent again. |
| `CycleLaws.IncrementalIsFromScratch` | src/engine.rs:241-286 | A consistent store is what discarding every computed value and recomputing the whole active graph from its inputs gives. |
| `CycleLaws.DirtyUnion` | src/topology.rs:48-62 | The dirty set of a batch of updates is the union of the dirty sets of its parts. |
| `CycleLaws.TwoCyclesAreOne` | src/engine.rs:241-286 | Two cycles in a row satisfy the equations of one cycle on both batches. |
| `CycleLaws.BatchingIsTransparent` | src/engine.rs:244-266 | One cycle on a queue of updates leaves the store that one cycle per update, in order, would leave, from any store, when no node uses `PropagateError`. |
| `CycleLaws.LastUpdateWins` | src/engine.rs:244-256 | After the drain a node holds the last value that came in for it. |
| `Lifecycle.RegisteredKeepsInvariant` | src/graph.rs:108-130 | Registering a node, new or known, keeps the lifecycle invariant. |
| `Lifecycle.ReleaseLowersTotal` | src/engine.rs:196-217 | Each effective release lowers the total of all reference counts by exactly one; this is why the cascade ends on cyclic graphs. |
| `Lifecycle.ReleasedAppend` | src/engine.rs:222-225 | The recursive cascade is a work list: releasing a list is releasing its parts in turn. |
| `Lifecycle.ReleasedIsBalanced` | src/engine.rs:190-226 | A node is erased if and only if the references given up on it, directly and by each occurrence in an erased dependent's list, reach its count; no node is erased twice. |
| `Lifecycle.ReleasedIsSurvivors` | src/engine.rs:190-226 | Every other node's count drops by exactly what was given up on it; nothing else about it changes; the lifecycle invariant holds again. |
| `Lifecycle.ErasedIsLeast` | src/engine.rs:190-226 | The erased nodes are contained in every set that is closed under running out of references, so no schedule of the cascade erases fewer. |
| `Lifecycle.ReleaseOrderIrrelevant` | src/engine.rs:54-58 | Releasing the same ids in any other order erases the same nodes and leaves the same state. |
| `Lifecycle.SurvivesIffCountExceedsDemand` | src/engine.rs:190-226 | A node outlives a cascade if and only if its count exceeds what is given up on it, and keeps the difference. |
| `Lifecycle.SharedSurviveIff` | src/engine.rs:55-57 | Exact condition, in the state before the removal: all the nodes a removed subgraph shares with others survive if and only if each one's count exceeds the times the subgraph lists it plus the times the subgraph's own nodes depend on it. |
| `Lifecycle.SharedNodeIsLost` | src/engine.rs:222-225 | Counterexample to shared nodes surviving: with two subgraphs sharing a source, removing one erases it although the other's sink depends on it. |
| `Activation.ActivatesExactlyReachable` | src/engine.rs:136-187 | Activation activates exactly the registered nodes reachable along dependencies through registered, previously inactive nodes, and no others. |
| `Activation.ActivationKeepsInvariant` | src/engine.rs:136-187 | Whatever has the effect of an activation keeps the lifecycle invariant, also with dangling dependencies and on cyclic graphs. |
| `Activation.EdgesGrownOnce` | src/engine.rs:147-150 | Entering a node adds its forward and reverse edges exactly once, with multiplicity, behind the existing ones. |
| `Activation.FinishedIsSettled` | src/engine.rs:169-186 | Once its dependencies are settled, a node's first computation leaves it with a value if and only if they all have one, and disturbs no settled node. |
| `Runs.RunsStayReachable` | src/engine.rs:130-286 | After any run of registrations, strategy changes, activations, releases and cycles that respects the callers' obligations: the invariant, an acyclic registry, no lost reverse edge among active nodes, and settled values. Late results and values of erased nodes may arrive at any time; parallel cycles make no async node dirty. |
| `Runs.ValuesAreCurrent` | src/engine.rs:241-286 | After any such run an active compute node has a value if and only if all its dependencies have, and it is what the node computes from them. |
| `Runs.IncrementalEqualsScratch` | src/engine.rs:241-286 | After any such run, recomputing the whole active graph from its inputs gives back the same store. |
| `Runs.ReachableParallelIsSequential` | src/engine.rs:270-276 | After any such run a parallel and a sequential cycle on the same updates end in the same state with the same emissions, under any strategies, when no dirty node is async. |
| `Runs.DependentsRunAnyway` | src/engine.rs:295-333 | In every state with the lifecycle invariant, on an acyclic and fully linked dirty set: whatever a node's result, stale or not, everything linked to it is executed in the same cycle and after it. |
| `Runs.StopsIffNoDependents` | src/topology.rs:48-62 | Under the same conditions, no executed node depends on a given executed node if and only if its list of dependents is empty. |
| `Runs.BatchedIsOneByOne` | src/event_loop.rs:50-104 | After any such run one cycle on a queue of updates leaves the state that one cycle per update leaves, whichever of them are parallel and whatever the strategies. |
| `Runs.CycleCoversDirty` | src/engine.rs:262-266 | In a reachable state the sort covers the whole dirty set, and every dirty node is active. |
| `Runs.DirtyIsActive` | src/engine.rs:262-266 | Dirty nodes are active, and the topology agrees with the registry on their dependencies. |
| `Runs.RegisteredIsReachable` | src/graph.rs:108-130 | Registering a node whose dependencies are registered, under an id without a stray value if it computes, keeps all that runs keep. |
| `Runs.ActivatedIsReachable` | src/engine.rs:130-187 | So does activating any node, registered or not. |
| `Runs.ReleasedIsReachable` | src/engine.rs:190-226 | So does any release that leaves no surviving node with an erased dependency. |
| `Runs.CycledIsReachable` | src/engine.rs:241-286 | So does a cycle on any values that are not sent to registered compute nodes, including values for ids that are no longer registered; if it is parallel, it must make no async node dirty (see `CycleLeavesAwaited` otherwise). |
| `Runs.LastInputIsStored` | src/engine.rs:244-266 | After a cycle, sequential or parallel, every node that is not computed holds the last value drained for it. |
| `Runs.InvariantAlways` | src/engine.rs:136-226 | After any interleaving whatever: topology keys are the active nodes, active nodes are registered with the same dependencies, guards belong to active sources, each name in a list of dependents is an active node that has that dependency, each reverse edge has its full multiplicity or none. |
| `Runs.RefCountTally` | src/graph.rs:115-118 | After any interleaving, a registered node's count is one per registration since its last insertion, minus its direct releases, minus one per occurrence in each erased dependent's list, and it is at least one. |
| `Runs.StepKeepsEntry` | src/graph.rs:108-130 | An operation changes nothing about a node that stays registered except its count, and a registration nothing at all about other nodes. |
| `Runs.EntryIsAsInserted` | src/graph.rs:108-130 | After any interleaving a registered node has exactly the kind, the dependencies in their order and the implementation of the registration that last inserted it, whatever was registered under its id since. |
| `Lagging.CycleLeavesAwaited` | src/engine.rs:397-425 | Any cycle on input values, sequential or parallel, with or without dirty async nodes, leaves exactly what is downstream of the awaited nodes to be caught up with: nodes whose values were drained are awaited no more, and the dirty async nodes of a parallel cycle are. |
| `Lagging.ParallelLeavesOnlyAwaited` | src/scheduler.rs:37-106 | After a parallel cycle from a reachable state, every active compute node to which no dirty async node leads holds what its dependencies call for. |
| `Lagging.ResultsCatchUp` | src/engine.rs:251-266 | A later cycle that drains a value of every awaited node, and in parallel makes no async node dirty, restores everything that reachable states promise. |
| `Lagging.ReachableIffNothingAwaited` | src/engine.rs:241-286 | Reachable states are exactly the current ones in which nothing is awaited. |
| `Counterexamples.SharedSourceIsLost` | src/engine.rs:222-225 | A run: two subgraphs share a source, both are active; removing one, ids in reverse, erases the source while the other's active sink still depends on it. |
| `Counterexamples.StaleValuePropagates` | src/engine.rs:347-356 | A run under the default strategy: a node whose second dependency was erased keeps a value it can no longer compute, and its sink is called with it again. |
| `Counterexamples.StrategyMatters` | src/scheduler.rs:90-94 | A run: a `PropagateError` node whose second dependency was erased loses its value in a sequential cycle on the first, and keeps it in a parallel one. |
| `Subgraphs.SubgraphBuilder.constructor` | src/subgraph.rs:27-33 | A new builder describes nothing. |
| `Subgraphs.SubgraphBuilder.RegisterNode` | src/subgraph.rs:36-54 | A node is described once, its id listed once per registration; described and listed ids stay the same set. |
| `Subgraphs.SubgraphBuilder.Build` | src/subgraph.rs:115-120 | The built subgraph has distinct descriptors for exactly the listed ids. |
| `Subgraphs.MergedIsReachable` | src/subgraph.rs:194-217 | Merging a subgraph that registers dependencies first keeps all that runs keep. |
| `Subgraphs.MergeActivatesExactly` | src/subgraph.rs:204-211 | A merge activates exactly the nodes that some listed, registered sink reaches through inactive nodes of the registry after registration, every listed sink among them; edges and guards grow accordingly. |
| `Subgraphs.MergeRegistersExactly` | src/subgraph.rs:198-202 | Each described node that is new gets an entry as described with count one; each known one keeps its entry and counts one more; no other entry changes. |
| `Subgraphs.MergedIsApart` | src/subgraph.rs:198-202 | A fresh, self-contained subgraph is registered with count one, apart from the old nodes. |
| `Subgraphs.SinksStayInside` | src/subgraph.rs:204-211 | Activating its sinks activates nodes of the subgraph only. |
| `Subgraphs.ErasesExactlyFresh` | src/engine.rs:52-59 | Releasing its listed ids erases exactly its nodes, however often ids repeat and whichever nodes the cascade reaches first. |
| `Subgraphs.EdgesRestored` | src/topology.rs:35-45 | The edges its activation added are exactly those its removal erases. |
| `Subgraphs.MergeUseDropRestores` | src/subgraph.rs:183-217 | Round trip: merge a fresh, self-contained subgraph, run any number of cycles on updates of its nodes, release its ids in any order, and registry, counts, active nodes, guards, both topology maps, store and strategies are as before. |
| `Subgraphs.MergeThenDropRestores` | src/subgraph.rs:183-217 | In particular when the subgraph is not used in between. |
| `Coexistence.CycleSeenOutside` | src/engine.rs:241-286 | Seen from outside a merged fresh subgraph, a cycle on any updates is the cycle on the updates not meant for the subgraph, in an engine without it. |
| `Coexistence.EmissionsSeenOutside` | src/engine.rs:312-315 | And every sink outside the subgraph emits the same. |
| `Coexistence.MergeCyclesDrop` | src/subgraph.rs:183-217 | Merging a fresh, self-contained subgraph, any cycles on any updates, and dropping it leaves what the same cycles would have left without it. |
| `Graphs.Graph.RegisterNode` | src/graph.rs:108-130 | A new id gets an entry with count one and exactly the given kind, dependencies and implementation; a known id keeps its own and counts one more; over runs: `Runs.EntryIsAsInserted`. |
| `Graphs.Graph.Send` | src/sender.rs:16-18 | A sent value is queued behind the others. |
| `Graphs.Graph.Emit` | src/engine.rs:312-315 | A sink is called once, with what its dependencies' values call for, or not at all. |
| `Schedulers.ExecuteSingle` | src/scheduler.rs:109-119 | Executing one node answers a compute node's result on the given store, emits for a sink, and does nothing for any other or missing node. |
| `Schedulers.ExecuteWave` | src/scheduler.rs:61-88 | Whatever order the threads finish in, each ready node's result is the one for the store at the start of the wave, and the emissions are the same multiset. |
| `Schedulers.CountReady` | src/scheduler.rs:37-46 | Each sorted node's initial count is the number of its dirty dependencies, async ones included. |
| `Schedulers.Decrement` | src/scheduler.rs:96-102 | Each dependent's count drops by its multiplicity and never saturates. |
| `Schedulers.WriteBackIsExecution` | src/scheduler.rs:90-94 | Writing back a result computed at the start of the wave is the same as executing the node now: no node of a wave depends on another. |
| `Schedulers.WriteBackOne` | src/scheduler.rs:91-105 | One result is stored, if there is one, and exactly the counts of the node's dependents follow. |
| `Schedulers.WriteBack` | src/scheduler.rs:90-105 | After the write-back the nodes executed so far satisfy the recompute equations and the counts are right for the next wave. |
| `Schedulers.Wave` | src/scheduler.rs:61-105 | A wave extends the run order by its nodes, keeps the equations, and its sinks emit what the final values call for. |
| `Schedulers.ExecuteParallel` | src/scheduler.rs:26-107 | The waves run a dependency-respecting order that leaves no runnable sorted node behind, end because the remaining nodes shrink or the loop breaks, solve the recompute equations, and emit each sink's payload once. |
| `Engines.Engine.ActivateNode` | src/engine.rs:136-187 | The recursive activation has the effect characterised by `ActivatesExactlyReachable`, settles values when dependencies are registered and acyclic, and terminates on every graph because inactive registered nodes decrease. |
| `Engines.Engine.FinishActivation` | src/engine.rs:157-186 | A guarded source holds its guard; a compute node gets a first value if and only if all its dependencies have one and it answers; nothing else changes. |
| `Engines.Engine.ActivateSink` | src/engine.rs:130-133 | Pending removals are carried out first, then the node is activated. |
| `Engines.Engine.DeactivateNode` | src/engine.rs:190-226 | The recursive method performs the release cascade of one reference and terminates on every graph because the total of counts decreases. |
| `Engines.Engine.DeactivateAll` | src/engine.rs:222-225 | Releasing a list node by node is the cascade of the whole list. |
| `Engines.Engine.Erase` | src/engine.rs:201-220 | Guard (of a source), value, topology entries and edges, active mark, registry entry and strategy of the node go, and nothing else. |
| `Engines.Engine.DrainPendingRemovals` | src/engine.rs:52-59 | Dropped handles are processed in order, each one's ids in reverse, and the queue is empty afterwards. |
| `Engines.DrainedOneMore` | src/engine.rs:52-59 | Draining one more handle releases its listed ids, in any order, after those of the handles dropped before; draining none changes nothing. |
| `Engines.Engine.ExecuteComputeWithErrorHandling` | src/engine.rs:341-395 | The node gets its implementation's answer; without one it loses its value under `PropagateError` and keeps it under the other strategies; no other node changes; a retrying node that keeps failing is invoked exactly `max_attempts` times, and once even when that is zero. |
| `Engines.Engine.ExecuteNode` | src/engine.rs:295-333 | A sorted node does what its kind says; a node missing from the registry is skipped. |
| `Engines.Engine.ExecuteSequential` | src/engine.rs:288-339 | The sequential executor solves the recompute equations; what its sinks emitted and its async nodes spawned on the way is what the end-of-cycle values call for, in run order. |
| `Engines.Engine.ExecuteParallel` | src/engine.rs:397-453 | The sync nodes run in waves, which know no strategies; each sorted async node then spawns what the final store calls for. |
| `Engines.Engine.CollectSpawns` | src/engine.rs:427-450 | The spawns are those of the sorted async nodes that answer, in sorted order. |
| `Engines.Engine.SpawnAsyncWork` | src/engine.rs:455-460 | Each future is handed to the async manager in order, with its node's policy and group. |
| `Engines.SpawningIsARun` | src/engine.rs:455-460 | Spawning is a run of the async step system, so its laws cover whole cycles. |
| `Engines.SpawnsAreTriggered` | src/engine.rs:455-460 | The async manager is handed one future per spawn, each for its own node, in order and numbered on. |
| `Engines.SpawnsSetRoles` | src/engine.rs:455-460 | A node new to the manager gets the policy and group of its implementation; a known node keeps its own. |
| `Engines.Engine.DrainSources` | src/engine.rs:244-249 | Every queued source value is taken, in order; the last one sent to a node wins. |
| `Engines.Engine.StoreResults` | src/engine.rs:252-256 | Async results go into the store in order. |
| `Engines.Engine.DrainInputs` | src/engine.rs:244-256 | Source values come before async results, both queues are emptied, and completions are processed. |
| `Engines.Engine.Propagate` | src/engine.rs:262-276 | What depends on the updates, and nothing else, is recomputed by the chosen executor. |
| `Engines.Engine.RunCycleImpl` | src/engine.rs:241-286 | One cycle changes the store and nothing else of the engine's state, on exactly the drained updates, does nothing when there are none, and hands the futures that the final store calls for to the async manager. |
| `Engines.Engine.RunCycle` | src/engine.rs:230-233 | Pending removals, then one sequential cycle: store, emissions in order, async manager; results and source values that were waiting are what the store then holds for their nodes. |
| `Engines.Engine.RunCycleParallel` | src/engine.rs:236-239 | Pending removals, then one parallel cycle: store, emissions as a multiset, async manager; results and source values that were waiting are what the store then holds for their nodes. |
| `Engines.InputsAreStored` | src/engine.rs:244-266 | The updates of a cycle are the queued source values, then one result per job in the channel, its own for its own node; afterwards each node that is not computed holds the result of its last job in the channel, or else the last source value queued for it. |
| `Engines.Engine.constructor` | src/engine.rs:38-49 | A new engine is empty and satisfies the invariant. |
| `Engines.Engine.SetErrorStrategy` | src/engine.rs:73-75 | The strategy is recorded for any id, registered or not, without draining removals. |
| `Engines.Engine.Register` | src/engine.rs:62-65 | Reaching the registry carries out pending removals first; then the node is registered, new or not as it was found then, and the invariant kept. |
| `Engines.Engine.RegisterDescriptors` | src/subgraph.rs:198-202 | Descriptors are registered in order; a known id is only counted. |
| `Engines.Engine.ActivateSinks` | src/subgraph.rs:204-211 | Each listed id that is a registered sink is activated, in order; others are left alone; what is active afterwards is `Subgraphs.MergeActivatesExactly`. |
| `Engines.Engine.Merge` | src/subgraph.rs:194-217 | Pending removals; then the described nodes are registered as described or counted once more; afterwards exactly those nodes are active that were, or that a listed sink reaches through inactive nodes; the handle remembers every listed id. |
| `Engines.SubgraphHandle.Drop` | src/subgraph.rs:183-190 | Dropping a handle queues its ids once; a handle without ids queues nothing. |
| `Engines.DroppedHandleRestores` | src/engine.rs:52-59 | The round trip through handle and removal queue: merging, any use, dropping and draining restores the state. |
| `AsyncJobs.NextGood` | src/async_compute.rs:82-278 | Every step keeps each job in one place and the bookkeeping tidy: handles belong to unprocessed tasks of their node, jobs wait where their node's policy and group say. |
| `AsyncLaws.EveryJobInOnePlace` | src/async_compute.rs:82-278 | In every reachable state each future handed over is running, sent, received, waiting with its node or group, delivered or aborted: in exactly one of these places. |
| `AsyncLaws.WorkIsConserved` | src/async_compute.rs:142-151 | In every reachable state, for every mix of policies and however late aborts come: a counter never exceeds the maximum, and a group queues work only while its counter is at the maximum. |
| `AsyncLaws.StepKeepsCountExactIffInTime` | src/async_compute.rs:99-131 | A counter never exceeds the group's unprocessed tasks, and one step keeps it exact if and only if it does not abort a task that has sent, or will still send, its result. |
| `AsyncLaws.NeverOvercounts` | src/async_compute.rs:233-278 | The same over all runs. |
| `AsyncLaws.CounterIsExact` | src/async_compute.rs:99-133 | While no abort in the group comes too late, its counter equals the started, unaborted, unprocessed tasks, which never exceed the maximum. |
| `AsyncLaws.ExactIffInTime` | src/async_compute.rs:99-133 | Over every run: the counter of a group has been exact all along if and only if no abort in the group came too late. |
| `AsyncLaws.StepKeepsCapacityIff` | src/async_compute.rs:99-151 | From an exact count, one step leaves more started and unprocessed tasks than the group allows if and only if it aborts too late while the group is full. |
| `AsyncLaws.QueueGroupsCountExactly` | src/async_compute.rs:112-118 | In a group of `Queue` nodes this holds in every reachable state. |
| `AsyncLaws.LateAbortOverruns` | src/async_compute.rs:102-109 | Counterexample otherwise: a run in which a group that allows one task runs two at the same time. |
| `AsyncLaws.RolesAreFixed` | src/async_compute.rs:89-97 | The policy and group a node was first spawned with never change. |
| `AsyncLaws.NobodyIsForgotten` | src/async_compute.rs:112-118 | A node with waiting futures always has another job started or queued with its group. |
| `AsyncLaws.NoStrandedWork` | src/async_compute.rs:213-278 | In every reachable state, work waiting in a group that allows at least one task implies a started, unprocessed task of that group, over all interleavings and for every mix of policies. |
| `StartLaws.StepStarts` | src/async_compute.rs:135-278 | Every step starts exactly one job or none, named before the step by the policy, the handle and the group's room and queue, ends exactly the task that sends or is aborted in time, and leaves each node with the handle that follows. |
| `StartLaws.StepKeepsWithinIff` | src/async_compute.rs:142-151 | One step: a group's running tasks stay within its maximum if and only if the step does not start one while the group's other running tasks are at the maximum. |
| `StartLaws.WithinIffNeverOverrun` | src/async_compute.rs:142-151 | The same over every run and interleaving. |
| `GroupQueues.StepQueues` | src/async_compute.rs:142-151 | One step: each group's queue loses at most its head, which is then the job the step starts, and gets at most one job, behind all others: the one that finds the group full, named before the step. |
| `GroupQueues.GroupQueueIsFifo` | src/async_compute.rs:256-278 | Over every run: the jobs that ever joined a group's queue, in order and across nodes and policies, are those started from it so far followed by the queue. |
| `GroupQueues.StepPends` | src/async_compute.rs:112-118 | One step: a busy `Queue` node's trigger waits behind the node's other futures, a completion lets the first one go, and nothing else touches them. |
| `GroupQueues.StepRecords` | src/async_compute.rs:82-97 | One step: a trigger is recorded with its own node and future under the next number; nodes become known by their trigger only, groups by their creation only. |
| `GroupQueues.RoleIsFirstTriggers` | src/async_compute.rs:89-97 | Over every run: a node's policy and group are those of its first trigger. |
| `GroupQueues.HandlesAreNumbers` | src/async_compute.rs:67-79 | Over every run: the groups are exactly those numbered below the number of creations. |
| `GroupQueues.GroupIsAsCreated` | src/async_compute.rs:67-79 | Over every run: a group's maximum is what the creation with its number asked for. |
| `QueueLaws.StepKeepsOneRunningIff` | src/async_compute.rs:227-278 | One step: a `Queue` node, in a group or not, keeps running at most one task if and only if the step does not start one of its jobs while another runs. |
| `QueueLaws.SequentialIff` | src/async_compute.rs:112-118 | Over every run: it has run one task at a time all along if and only if no step did so. |
| `QueueLaws.StepKeepsHandleIff` | src/async_compute.rs:256-278 | One step: the node keeps holding the handle of every started and unprocessed task of its own, of which there is then at most one, if and only if the step is not a completion of another node of its group whose slot goes to its queued future while it has such a task. No trigger breaks this. |
| `QueueLaws.OneStartedIffNeverDoubled` | src/async_compute.rs:256-278 | Over every run: at most one future of the node has been started and unprocessed all along if and only if there was no such completion. |
| `QueueLaws.StepKeepsOneOutIff` | src/async_compute.rs:112-118 | One step: at most one future of a `Queue` node stays started or waiting with the group if and only if the step does not trigger the node while it is idle with an earlier future of it in the group queue. This is the precondition of order, not of sequential execution. |
| `QueueLaws.OneOutIffNeverOvertaken` | src/async_compute.rs:112-118 | Over every run: at most one of its futures has been started or waiting with the group all along if and only if there was no such trigger. |
| `QueueLaws.QueueIsFifo` | src/async_compute.rs:227-278 | Until such a trigger, what the node was triggered with is what it delivered, then at most one future started or queued with the group, then the waiting ones, in order; refills for other nodes of the group do not disturb this. |
| `QueueLaws.UngroupedQueueIsFifo` | src/async_compute.rs:112-118 | Outside any group this holds in every reachable state. |
| `QueueLaws.GroupedQueueOverlaps` | src/async_compute.rs:142-151 | Counterexample in a group of two: two futures of one `Queue` node run at the same time. |
| `AsyncRuntime.AsyncManager.CreateGroup` | src/async_compute.rs:67-79 | A new group is idle, under a handle never used before; its maximum over runs is `GroupQueues.GroupIsAsCreated`. |
| `AsyncRuntime.AsyncManager.Spawn` | src/async_compute.rs:82-133 | The node's first policy decides: replace, queue with the node, or offer to the group. |
| `AsyncRuntime.AsyncManager.CancelInFlight` | src/async_compute.rs:102-109 | The node's handle is taken, its task aborted if still possible, its slot given back in any case. |
| `AsyncRuntime.AsyncManager.TrySpawn` | src/async_compute.rs:135-154 | The job takes a free slot of its group, waits behind the others with a full group, and starts at once without a group; over runs: `GroupQueues.GroupQueueIsFifo`. |
| `AsyncRuntime.AsyncManager.SpawnDebounced` | src/async_compute.rs:156-189 | Debounced work goes through the same group capacity. |
| `AsyncRuntime.AsyncManager.SpawnRaw` | src/async_compute.rs:191-210 | The job becomes a task and the node's handle. |
| `AsyncRuntime.AsyncManager.TaskSends` | src/async_compute.rs:199-201 | A finishing task sends its result behind the others. |
| `AsyncRuntime.AsyncManager.DrainResults` | src/async_compute.rs:213-225 | One result for each job in the channel, in the order they were sent, each job's own for its own node; only then are the completions processed, in that order. |
| `AsyncRuntime.AsyncManager.ProcessCompletion` | src/async_compute.rs:227-254 | The node becomes idle, the slot is freed, the group queue goes first, then the node's next future. |
| `AsyncRuntime.AsyncManager.TrySpawnFromGroupQueue` | src/async_compute.rs:256-278 | Queued jobs start, oldest first, while there is room. |
| `AsyncRuntime.AsyncManager.GroupInFlight` | src/async_compute.rs:281-283 | The number a caller gets never exceeds the group's unprocessed tasks nor its maximum, is the maximum while work is queued, equals the unprocessed tasks as long as no abort came too late and always in a group of `Queue` nodes, and is zero for an unknown handle. |
| `AsyncRuntime.DrainIsARun` | src/async_compute.rs:213-225 | Draining is a run of the step system, so every law about runs covers it. |
| `AsyncRuntime.DrainDelivers` | src/async_compute.rs:213-225 | Processing delivers exactly the received jobs, in order, and leaves the channel alone. |
| `WakeUp.StepKeepsAttended` | src/event_loop.rs:33-106 | Each step keeps it so that data in a channel is being drained, or a wake-up for it is on its way, or its sender is about to send one. |
| `WakeUp.StepLosesNothing` | src/event_loop.rs:34-66 | Each step keeps every value sent in exactly one place, each sender's values in order. |
| `WakeUp.RunIsAttended` | src/event_loop.rs:43-109 | Both hold over all interleavings of sources, bridge, tasks, clients and loop. |
| `WakeUp.NoLostWakeUp` | src/event_loop.rs:28-104 | When the loop is blocked with no command queued, the bridge has no notice to send and no task is between its two sends, both data channels are empty and every value has been drained exactly once, in order. |
| `WakeUp.HandledInOrder` | src/event_loop.rs:50-59 | Over every run: the commands handled, followed by those ahead of the loop, are the commands that bridge, tasks and clients have put into the channel, in order. |
| `WakeUp.StoppedIffShutdown` | src/event_loop.rs:95-108 | Over every run: the loop has stopped if and only if it has handled a shutdown and that turn is over; a turn that ends without one goes back to waiting, a turn with one stops. |
| `WakeUp.OnlyClientsStop` | src/event_loop.rs:95-108 | A run in which no client sends a shutdown never stops. |
| `WakeUp.BatchHandled` | src/event_loop.rs:59-99 | Handling a batch step by step adds up to what a turn of the loop does with it: updates join the source channel in order, a cycle is due if and only if some command announces a value, the loop stops if and only if there is a shutdown. |
| `WakeUp.HandlingIsARun` | src/event_loop.rs:59-99 | Handling a batch is a run of the step system. |
| `Commands.UpdatesInParts` | src/event_loop.rs:61-66 | A batch carries exactly the values of its source updates, each its own, in order. |
| `EventLoops.Handle` | src/event_loop.rs:59-99 | One command does what it says to the engine: a source update queues its own value, merges and removals change the engine's state as `MergeTakesEffect` and `RemoveGivesBack` say, the others leave it alone; exactly source updates, source notices and async notices call for a cycle. |
| `EventLoops.RemoveGivesBack` | src/event_loop.rs:86-90 | Handling a removal erases exactly the nodes whose count does not exceed the times they are listed plus the times erased nodes name them, and no more than any closed set; every other node keeps the difference and all else. |
| `EventLoops.MergeTakesEffect` | src/event_loop.rs:70-84 | Handling a merge activates exactly what the listed sinks reach through inactive nodes and registers exactly what is described. |
| `EventLoops.HandleAll` | src/event_loop.rs:56-99 | The batch is obeyed in order; updates join the source channel in order; a cycle is due if and only if some command calls for it. |
| `EventLoops.Turn` | src/event_loop.rs:50-108 | A turn obeys its whole batch, then runs one cycle, on exactly the values waiting then, if and only if some command calls for it, hands the async manager what that cycle spawned, and stops if and only if the batch contains a shutdown. |
| `EventLoops.RunCycle` | src/event_loop.rs:101-104 | The turn's cycle runs on the state the commands left. |
| `EventLoops.TurnKeepsValuesCurrent` | src/event_loop.rs:59-104 | After a turn over any permitted batch of merges, removals and updates, every active compute node again holds what it computes from its dependencies' current values. |

## Left out

- Wall-clock time: debounce delays, retry back-off, cycle durations and metrics.
- Real threads, the tokio runtime and channels: they appear as steps of the environment and as sequences; a disconnected channel is not modelled.
- The infinite loop and its shutdown by disconnection: `EventLoops.Turn` is one iteration, and `WakeUp` covers the interleavings of iterations with the other parties, up to the stop after a shutdown command. That a waiting loop is ever scheduled again is not stated.
- AsyncRuntime.AsyncManager.SpawnDebounced: does not model the delay before the future starts, because time is not modelled; while it waits the task can be aborted like any running task.
- Engines.Engine.ExecuteComputeWithErrorHandling: a failing node fails again on every retry, because implementations are functions of their dependencies' values; an implementation whose answer changes between attempts is not covered, and the back-off between attempts is time.
- Builders, typestate macros, `Any` downcasts, key hashing and its collisions: ids and values are abstract.
- `EngineHandle`, the reply of a merge command, introspection, metrics and the example application.
- `get_entry_mut`, which lets a caller change entries behind the engine's back.
- A source callback that sends values while it is being activated: its values arrive through the source channel like any others.
- A node implementation that reads or changes anything but the values of its own dependencies.
- Integer widths of counters and group ids: reference counts, slot counts and ids are unbounded.
- Which thread executes a node, and the order of emissions inside a wave: emissions of a parallel cycle are a multiset.
- Current values of a compute node registered under an id that already holds a value: nothing computes it before its dependencies have values. `Runs.Allowed` excludes it. Ids are scoped by the node's type, so such a value could only have been sent by bypassing the typed senders.
- Current values after a removal that erases a node some surviving node depends on: its reverse edges are gone, so its dependents are no longer told; `Runs.Allowed` excludes such removals, while `Runs.InvariantAlways` and `Runs.RefCountTally` cover them.
- Registrations, activations and removals between a parallel cycle that made an async node dirty and the cycle on its result: `Lagging` follows cycles only.
- Delivery of only the newest result under `LatestWins` and `Debounce`: the code does not provide it, since a result may already be in the channel when its task is aborted.
- What a `Queue` node in a group does after it has been overtaken, beyond capacity, conservation and progress, which hold throughout.
