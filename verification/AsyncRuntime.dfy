/** The async manager as the mutable object the engine owns (src/async_compute.rs). Each
    method is proved to make the step that `AsyncJobs` describes. */
module AsyncRuntime {
  import opened Nodes
  import opened AsyncJobs
  import opened AsyncLaws
  import opened GroupQueues

  /** What the engine is told about completed jobs. */
  function Results(js: seq<Job>): (r: seq<(NodeId, Value)>)
    ensures |r| == |js| && forall i :: 0 <= i < |js| ==> r[i] == (js[i].node, js[i].result)
  {
    seq(|js|, i requires 0 <= i < |js| => (js[i].node, js[i].result))
  }

  function ReceivedAll(m: Manager): Manager {
    m.(channel := [], inbox := m.inbox + m.channel)
  }

  lemma {:induction false} RefilledInbox(m: Manager, g: nat)
    ensures Refilled(m, g).inbox == m.inbox && Refilled(m, g).channel == m.channel
    decreases if g in m.groups then |m.groups[g].queue| else 0
  {
    if g in m.groups && m.groups[g].inFlight < m.groups[g].maxConcurrent && m.groups[g].queue != [] {
      RefilledInbox(RefillRound(m, g), g);
    }
  }

  lemma ProcessedInbox(m: Manager)
    requires m.inbox != []
    ensures Processed(m).inbox == m.inbox[1..] && Processed(m).channel == m.channel
  {
    if m.inbox[0].node in m.nodes {
      var m1, g := Completed(m), m.nodes[m.inbox[0].node].group;
      if g.Some? {
        RefilledInbox(if g.value in m1.groups
                      then WithGroup(m1, g.value, MinusOne(m1.groups[g.value].inFlight), m1.groups[g.value].queue)
                      else m1, g.value);
      }
      assert SlotFreed(m1, g).inbox == m1.inbox && SlotFreed(m1, g).channel == m1.channel;
    }
  }

  lemma OfferedInbox(m: Manager, j: Job)
    ensures Offered(m, j).inbox == m.inbox
  {
  }

  lemma TriggeredInbox(m: Manager, n: NodeId, v: Value, p: AsyncPolicy, g: Option<nat>, late: bool)
    ensures Triggered(m, n, v, p, g, late).inbox == m.inbox
  {
    var j, m1 := Job(|m.triggered|, n, v), HandedOver(m, n, v, p, g);
    OfferedInbox(m1, j);
    OfferedInbox(Cancelled(m1, n, late), j);
  }

  function ProcessedAll(m: Manager): Manager
    decreases |m.inbox|
  {
    if m.inbox == [] then m else
    ProcessedInbox(m);
    ProcessedAll(Processed(m))
  }

  /** Draining is a finite run of the step system: every law about runs covers it. */
  lemma {:induction false} ReceiveSteps(states: seq<Manager>, events: seq<Event>)
    returns (states': seq<Manager>, events': seq<Event>)
    requires Run(states, events)
    ensures Run(states', events') && states <= states' && events <= events'
    ensures states'[|events'|] == ReceivedAll(states[|events|])
    decreases |states[|events|].channel|
  {
    var m := states[|events|];
    if m.channel == [] {
      states', events' := states, events;
    } else {
      RunExtends(states, events, Receive, Received(m));
      states', events' := ReceiveSteps(states + [Received(m)], events + [Receive]);
      assert m.inbox + [m.channel[0]] + m.channel[1..] == m.inbox + m.channel;
    }
  }

  lemma {:induction false} ProcessSteps(states: seq<Manager>, events: seq<Event>)
    returns (states': seq<Manager>, events': seq<Event>)
    requires Run(states, events)
    ensures Run(states', events') && states <= states' && events <= events'
    ensures states'[|events'|] == ProcessedAll(states[|events|])
    decreases |states[|events|].inbox|
  {
    var m := states[|events|];
    if m.inbox == [] {
      states', events' := states, events;
    } else {
      ProcessedInbox(m);
      RunExtends(states, events, Process, Processed(m));
      states', events' := ProcessSteps(states + [Processed(m)], events + [Process]);
    }
  }

  /** Draining delivers everything received or sent so far, in order. */
  lemma {:induction false} DrainDelivers(m: Manager)
    ensures ProcessedAll(m).delivered == m.delivered + m.inbox && ProcessedAll(m).inbox == []
    ensures ProcessedAll(m).channel == m.channel && ProcessedAll(m).triggered == m.triggered
    decreases |m.inbox|
  {
    if m.inbox != [] {
      ProcessedInbox(m);
      ProcessRecords(m);
      DrainDelivers(Processed(m));
      assert m.delivered + [m.inbox[0]] + m.inbox[1..] == m.delivered + m.inbox;
    }
  }

  lemma DrainIsARun(states: seq<Manager>, events: seq<Event>)
    returns (states': seq<Manager>, events': seq<Event>)
    requires Run(states, events)
    ensures Run(states', events') && states <= states'
    ensures states'[|events'|] == ProcessedAll(ReceivedAll(states[|events|]))
  {
    states', events' := ReceiveSteps(states, events);
    states', events' := ProcessSteps(states', events');
  }

  class AsyncManager {
    var nodeStates: map<NodeId, NodeState>
    var groups: map<nat, GroupState>
    var nextGroupId: nat
    /** The runtime's tasks and the result channel. */
    var running: set<Job>
    var channel: seq<Job>
    /** Results taken out of the channel by `DrainResults` and not yet processed. */
    var inbox: seq<Job>
    var handedOver: nat
    ghost var triggered: seq<Job>
    ghost var delivered: seq<Job>
    ghost var aborted: set<Job>

    ghost function View(): Manager
      reads this
    {
      Manager(nodeStates, groups, nextGroupId, running, channel, inbox, triggered, delivered, aborted)
    }

    ghost predicate Valid()
      reads this
    {
      handedOver == |triggered|
    }

    constructor ()
      ensures Valid() && View() == INITIAL
    {
      nodeStates, groups, nextGroupId := map[], map[], 0;
      running, channel, inbox, handedOver := {}, [], [], 0;
      triggered, delivered, aborted := [], [], {};
    }

    method CreateGroup(maxConcurrent: nat) returns (handle: nat)
      requires Valid()
      modifies this
      ensures Valid() && View() == GroupCreated(old(View()), maxConcurrent) && handle == old(nextGroupId)
    {
      handle := nextGroupId;
      nextGroupId := nextGroupId + 1;
      groups := groups[handle := GroupState(maxConcurrent, 0, [])];
    }

    /** `late` is the runtime's choice: whether the abort fails to stop a running task. */
    method Spawn(nodeId: NodeId, future: Value, policy: AsyncPolicy, groupId: Option<nat>, late: bool)
      requires Valid()
      modifies this
      ensures Valid() && View() == Triggered(old(View()), nodeId, future, policy, groupId, late)
    {
      var job := Job(handedOver, nodeId, future);
      handedOver, triggered := handedOver + 1, triggered + [job];
      if nodeId !in nodeStates {
        nodeStates := nodeStates[nodeId := NodeState(policy, None, groupId, [])];
      }
      assert View() == HandedOver(old(View()), nodeId, future, policy, groupId);
      match nodeStates[nodeId].policy {
        case LatestWins =>
          CancelInFlight(nodeId, late);
          TrySpawn(job);
        case Queue =>
          if nodeStates[nodeId].inFlight.Some? {
            var state := nodeStates[nodeId];
            nodeStates := nodeStates[nodeId := state.(pending := state.pending + [job])];
          } else {
            TrySpawn(job);
          }
        case Debounce =>
          CancelInFlight(nodeId, late);
          SpawnDebounced(job);
      }
    }

    method CancelInFlight(nodeId: NodeId, late: bool)
      requires Valid() && nodeId in nodeStates
      modifies this
      ensures Valid() && View() == Cancelled(old(View()), nodeId, late) && handedOver == old(handedOver)
    {
      var state := nodeStates[nodeId];
      if state.inFlight.Some? {
        var handle := state.inFlight.value;
        nodeStates := nodeStates[nodeId := state.(inFlight := None)];
        if handle in running && !late {
          running, aborted := running - {handle}, aborted + {handle};
        }
        if state.group.Some? && state.group.value in groups {
          var group := groups[state.group.value];
          groups := groups[state.group.value :=
            group.(inFlight := if group.inFlight == 0 then 0 else group.inFlight - 1)];
        }
      }
    }

    method TrySpawn(job: Job)
      requires Valid()
      modifies this
      ensures Valid() && View() == Offered(old(View()), job)
    {
      var groupId := if job.node in nodeStates then nodeStates[job.node].group else None;
      if groupId.Some? && groupId.value in groups {
        var group := groups[groupId.value];
        if group.inFlight >= group.maxConcurrent {
          groups := groups[groupId.value := group.(queue := group.queue + [job])];
          return;
        }
        groups := groups[groupId.value := group.(inFlight := group.inFlight + 1)];
      }
      SpawnRaw(job);
    }

    /** Like `TrySpawn`; the delay before the future starts is not modelled. */
    method SpawnDebounced(job: Job)
      requires Valid()
      modifies this
      ensures Valid() && View() == Offered(old(View()), job)
    {
      var groupId := if job.node in nodeStates then nodeStates[job.node].group else None;
      if groupId.Some? && groupId.value in groups {
        var group := groups[groupId.value];
        if group.inFlight >= group.maxConcurrent {
          groups := groups[groupId.value := group.(queue := group.queue + [job])];
          return;
        }
        groups := groups[groupId.value := group.(inFlight := group.inFlight + 1)];
      }
      SpawnRaw(job);
    }

    method SpawnRaw(job: Job)
      requires Valid()
      modifies this
      ensures Valid() && View() == Started(old(View()), job)
    {
      running := running + {job};
      if job.node in nodeStates {
        nodeStates := nodeStates[job.node := nodeStates[job.node].(inFlight := Some(job))];
      }
    }

    /** The environment: a task finishes. */
    method TaskSends(job: Job)
      requires Valid() && job in running
      modifies this
      ensures Valid() && View() == Sent(old(View()), job)
    {
      running, channel := running - {job}, channel + [job];
    }

    /** Hands every result in the channel to the engine, in order, and lets waiting jobs go
        ahead, one completion after the other. */
    method DrainResults() returns (results: seq<(NodeId, Value)>)
      requires Valid() && inbox == []
      modifies this
      ensures Valid() && View() == ProcessedAll(ReceivedAll(old(View())))
      ensures results == Results(old(channel)) && inbox == [] && channel == []
      ensures |results| == |old(channel)|
      ensures forall i :: 0 <= i < |results| ==> results[i] == (old(channel)[i].node, old(channel)[i].result)
    {
      ghost var m := View();
      results := [];
      while channel != []
        invariant Valid() && ReceivedAll(View()) == ReceivedAll(m)
        invariant inbox + channel == m.channel && results == Results(inbox)
        decreases |channel|
      {
        results := results + [(channel[0].node, channel[0].result)];
        assert inbox + [channel[0]] + channel[1..] == inbox + channel;
        channel, inbox := channel[1..], inbox + [channel[0]];
      }
      assert View().inbox + View().channel == View().inbox;
      while inbox != []
        invariant Valid() && channel == [] && ProcessedAll(View()) == ProcessedAll(ReceivedAll(m))
        decreases |inbox|
      {
        ProcessedInbox(View());
        ProcessCompletion();
      }
    }

    method ProcessCompletion()
      requires Valid() && inbox != []
      modifies this
      ensures Valid() && View() == Processed(old(View()))
    {
      ghost var m := View();
      var completed := inbox[0];
      inbox, delivered := inbox[1..], delivered + [completed];
      if completed.node in nodeStates {
        var state := nodeStates[completed.node];
        var pops := state.policy.Queue? && state.pending != [];
        nodeStates := nodeStates[completed.node :=
          state.(inFlight := None, pending := if pops then state.pending[1..] else state.pending)];
        assert View() == Completed(m);
        if state.group.Some? {
          FreeSlot(state.group.value);
        }
        if pops {
          TrySpawn(state.pending[0]);
        }
      }
    }

    /** The slot of a completed job goes to the group's queue. */
    method FreeSlot(g: nat)
      requires Valid()
      modifies this
      ensures Valid() && View() == SlotFreed(old(View()), Some(g))
    {
      if g in groups {
        var group := groups[g];
        groups := groups[g := group.(inFlight := if group.inFlight == 0 then 0 else group.inFlight - 1)];
      }
      TrySpawnFromGroupQueue(g);
    }

    method TrySpawnFromGroupQueue(groupId: nat)
      requires Valid()
      modifies this
      ensures Valid() && View() == Refilled(old(View()), groupId)
    {
      ghost var m := View();
      while groupId in groups && groups[groupId].inFlight < groups[groupId].maxConcurrent && groups[groupId].queue != []
        invariant Valid() && Refilled(View(), groupId) == Refilled(m, groupId)
        decreases if groupId in groups then |groups[groupId].queue| else 0
      {
        ghost var round := RefillRound(View(), groupId);
        var group := groups[groupId];
        groups := groups[groupId := group.(queue := group.queue[1..], inFlight := group.inFlight + 1)];
        SpawnRaw(group.queue[0]);
        assert View() == round;
      }
    }

    /** The counter of a group, for a manager with the given history: never more than the tasks
        started and not yet processed, nor than the maximum; at the maximum while work is
        queued; and exact as long as no abort in the group came too late. */
    method GroupInFlight(handle: nat, ghost states: seq<Manager>, ghost events: seq<Event>) returns (inFlight: nat)
      requires Run(states, events) && states[|events|] == View()
      ensures handle !in groups ==> inFlight == 0
      ensures handle in groups ==> inFlight <= |LiveIn(View(), handle)| && inFlight <= groups[handle].maxConcurrent
      ensures handle in groups && groups[handle].queue != [] ==> inFlight == groups[handle].maxConcurrent
      ensures handle in groups && InTime(states, events, |events|, handle) ==> inFlight == |LiveIn(View(), handle)|
      ensures handle in groups && QueueOnly(View(), handle) ==> inFlight == |LiveIn(View(), handle)|
    {
      inFlight := if handle in groups then groups[handle].inFlight else 0;
      if handle in groups {
        NeverOvercounts(states, events, |events|, handle);
        WorkIsConserved(states, events, |events|);
        if QueueOnly(View(), handle) {
          QueueGroupsCountExactly(states, events, |events|, handle);
        }
      }
    }
  }
}
