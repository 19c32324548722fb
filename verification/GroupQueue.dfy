/** The queue of a concurrency group, its maximum, and what a run remembers of its events
    (src/async_compute.rs). Everything is said in terms of the events and of the states before
    the steps. */
module GroupQueues {
  import opened Nodes
  import opened AsyncJobs
  import opened AsyncLaws
  import opened StartLaws

  // ----- what one step does to a queue -----

  /** The job at the head of a group's queue, if the completion of a job of the group lets it
      start: it does unless the group has no slots at all. */
  function Leaving(m: Manager, ev: Event, g: nat): (r: seq<Job>)
    requires Enabled(m, ev)
  {
    if ev.Process? && GroupAt(m, ev) == Some(g) && g in m.groups && m.groups[g].queue != [] &&
       m.groups[g].maxConcurrent > 0
    then [m.groups[g].queue[0]] else []
  }

  /** The job that finds the group full: that of a trigger which neither waits with its node nor
      starts; or the next job waiting with a completed `Queue` node, if the group's own queue
      takes the slot or there is none. */
  function Joining(m: Manager, ev: Event, g: nat): (r: seq<Job>)
    requires Enabled(m, ev)
  {
    if GroupAt(m, ev) != Some(g) then [] else
    match ev
    case Trigger(n, v, p, h, _) =>
      if n in m.nodes && m.nodes[n].policy.Queue? && m.nodes[n].inFlight.Some? then []
      else if StartedBy(m, ev).Some? then [] else [Job(|m.triggered|, n, v)]
    case Process =>
      var s := m.nodes[m.inbox[0].node];
      if s.policy.Queue? && s.pending != [] && g in m.groups &&
         (m.groups[g].queue != [] || m.groups[g].maxConcurrent == 0)
      then [s.pending[0]] else []
    case _ => []
  }

  lemma OfferedQueue(m: Manager, j: Job, g: nat)
    ensures
      Queued(Offered(m, j), Some(g)) ==
      Queued(m, Some(g)) +
      if GroupOf(m, j.node) == Some(g) && !HasRoom(m, Some(g), Used(m, Some(g))) then [j] else []
  {
  }

  lemma CancelledQueue(m: Manager, n: NodeId, late: bool, g: nat)
    requires n in m.nodes
    ensures Queued(Cancelled(m, n, late), Some(g)) == Queued(m, Some(g))
  {
  }

  lemma TriggerQueues(m: Manager, ev: Event, g: nat)
    requires Enabled(m, ev) && ev.Trigger?
    ensures Queued(Next(m, ev), Some(g)) == Queued(m, Some(g)) + Joining(m, ev, g)
  {
    var n, j := ev.node, Job(|m.triggered|, ev.node, ev.result);
    var m1 := HandedOver(m, n, ev.result, ev.policy, ev.group);
    assert m1.groups == m.groups && GroupOf(m1, n) == GroupAt(m, ev);
    if m1.nodes[n].policy.Queue? {
      if m1.nodes[n].inFlight.None? {
        OfferedQueue(m1, j, g);
      }
    } else {
      CancelTriggerQueues(m, ev, g);
    }
  }

  lemma CancelTriggerQueues(m: Manager, ev: Event, g: nat)
    requires Enabled(m, ev) && ev.Trigger?
    requires !HandedOver(m, ev.node, ev.result, ev.policy, ev.group).nodes[ev.node].policy.Queue?
    ensures Queued(Next(m, ev), Some(g)) == Queued(m, Some(g)) + Joining(m, ev, g)
  {
    var n, j := ev.node, Job(|m.triggered|, ev.node, ev.result);
    var m1 := HandedOver(m, n, ev.result, ev.policy, ev.group);
    CancelledEnds(m1, n, ev.late);
    CancelledQueue(m1, n, ev.late, g);
    OfferedQueue(Cancelled(m1, n, ev.late), j, g);
  }

  lemma SlotFreedQueues(m: Manager, h: nat, g: nat)
    requires h in m.groups && Full(m.groups[h])
    ensures
      Queued(SlotFreed(m, Some(h)), Some(g)) ==
      if g == h && m.groups[g].queue != [] && m.groups[g].maxConcurrent > 0 then m.groups[g].queue[1..]
      else Queued(m, Some(g))
  {
    var m1 := WithGroup(m, h, MinusOne(m.groups[h].inFlight), m.groups[h].queue);
    RefilledOnce(m1, h);
    assert SlotFreed(m, Some(h)) == Refilled(m1, h);
  }

  lemma ProcessQueues(m: Manager, g: nat)
    requires Good(m, None) && WorkConserving(m) && m.inbox != []
    ensures Leaving(m, Process, g) + Queued(Next(m, Process), Some(g)) == Queued(m, Some(g)) + Joining(m, Process, g)
  {
    assert m.inbox[0] in Live(m);
    var r := SlotFreed(Completed(m), m.nodes[m.inbox[0].node].group);
    CompletionQueues(m, g);
    PoppedQueues(m, g);
    Associates(Leaving(m, Process, g), Queued(r, Some(g)), Joining(m, Process, g));
  }

  lemma CompletionQueues(m: Manager, g: nat)
    requires m.inbox != [] && m.inbox[0].node in m.nodes && WorkConserving(m) && Tidy(m)
    ensures
      var r := SlotFreed(Completed(m), m.nodes[m.inbox[0].node].group);
      Leaving(m, Process, g) + Queued(r, Some(g)) == Queued(m, Some(g))
  {
    var h := m.nodes[m.inbox[0].node].group;
    if h.Some? {
      SlotFreedQueues(Completed(m), h.value, g);
    }
  }

  lemma PoppedQueues(m: Manager, g: nat)
    requires m.inbox != [] && m.inbox[0].node in m.nodes && WorkConserving(m) && Tidy(m)
    ensures
      var r := SlotFreed(Completed(m), m.nodes[m.inbox[0].node].group);
      Queued(Next(m, Process), Some(g)) == Queued(r, Some(g)) + Joining(m, Process, g)
  {
    var n := m.inbox[0].node;
    if Popped(m).Some? {
      var r := SlotFreed(Completed(m), m.nodes[n].group);
      assert OwnPending(n, m.nodes[n]);
      assert Popped(m).value in m.nodes[n].pending;
      CompletionStarts(m);
      CompletedKeepsGroup(m, n);
      OfferedQueue(r, Popped(m).value, g);
    }
  }

  /** One step: every queue loses at most its head, which is then the job that the step starts,
      and gets at most one job, behind all others. */
  lemma StepQueues(m: Manager, ev: Event, g: nat)
    requires Good(m, None) && WorkConserving(m) && Enabled(m, ev)
    ensures Leaving(m, ev, g) + Queued(Next(m, ev), Some(g)) == Queued(m, Some(g)) + Joining(m, ev, g)
    ensures Leaving(m, ev, g) != [] ==> StartedBy(m, ev).Some? && Leaving(m, ev, g) == [StartedBy(m, ev).value]
  {
    match ev
    case Trigger(_, _, _, _, _) => TriggerQueues(m, ev, g);
    case Process => ProcessQueues(m, g);
    case _ =>
  }

  // ----- over runs -----

  /** All jobs that have joined the queue of the group, in the order of the steps. */
  ghost function Joined(states: seq<Manager>, events: seq<Event>, i: nat, g: nat): seq<Job>
    requires Run(states, events) && i <= |events|
  {
    if i == 0 then [] else Joined(states, events, i - 1, g) + Joining(states[i - 1], events[i - 1], g)
  }

  /** All jobs that have been started from the queue of the group, in the order of the steps. */
  ghost function Left(states: seq<Manager>, events: seq<Event>, i: nat, g: nat): seq<Job>
    requires Run(states, events) && i <= |events|
  {
    if i == 0 then [] else Left(states, events, i - 1, g) + Leaving(states[i - 1], events[i - 1], g)
  }

  /** A group's queue is first in, first out, across its nodes and their policies: the jobs that
      ever found the group full are those started from the queue so far, followed by the queue. */
  lemma {:induction false} GroupQueueIsFifo(states: seq<Manager>, events: seq<Event>, i: nat, g: nat)
    requires Run(states, events) && i <= |events|
    ensures Joined(states, events, i, g) == Left(states, events, i, g) + Queued(states[i], Some(g))
  {
    if i > 0 {
      var m, ev := states[i - 1], events[i - 1];
      GroupQueueIsFifo(states, events, i - 1, g);
      RunGood(states, events, i - 1);
      WorkIsConserved(states, events, i - 1);
      assert Enabled(m, ev) && states[i] == Next(m, ev);
      StepQueues(m, ev, g);
      var left := Left(states, events, i - 1, g);
      Associates(left, Queued(m, Some(g)), Joining(m, ev, g));
      Associates(left, Leaving(m, ev, g), Queued(states[i], Some(g)));
    }
  }

  // ----- what a run remembers -----

  /** What refilling a queue leaves alone. */
  lemma {:induction false} RefilledKeeps(m: Manager, g: nat)
    ensures Refilled(m, g).nextGroup == m.nextGroup && Refilled(m, g).nodes.Keys == m.nodes.Keys
    ensures Refilled(m, g).triggered == m.triggered && Refilled(m, g).delivered == m.delivered
    decreases if g in m.groups then |m.groups[g].queue| else 0
  {
    if g in m.groups && m.groups[g].inFlight < m.groups[g].maxConcurrent && m.groups[g].queue != [] {
      RefilledKeeps(RefillRound(m, g), g);
    }
  }

  lemma SlotFreedKeeps(m: Manager, g: Option<nat>)
    ensures SlotFreed(m, g).nextGroup == m.nextGroup && SlotFreed(m, g).nodes.Keys == m.nodes.Keys
    ensures SlotFreed(m, g).triggered == m.triggered && SlotFreed(m, g).delivered == m.delivered
  {
    if g.Some? {
      RefilledKeeps(if g.value in m.groups
                    then WithGroup(m, g.value, MinusOne(m.groups[g.value].inFlight), m.groups[g.value].queue)
                    else m, g.value);
    }
  }

  /** A step records a trigger's future under the next number and a processed result as
      delivered, lets a node become known by its trigger only, and numbers groups in turn. */
  ghost predicate RecordsExactly(m: Manager, m': Manager, ev: Event)
    requires Enabled(m, ev)
  {
    && m'.triggered == m.triggered + (if ev.Trigger? then [Job(|m.triggered|, ev.node, ev.result)] else [])
    && m'.delivered == m.delivered + (if ev.Process? then [m.inbox[0]] else [])
    && m'.nodes.Keys == m.nodes.Keys + (if ev.Trigger? then {ev.node} else {})
    && (ev.Trigger? && ev.node !in m.nodes ==> HasRole(m', ev.node, ev.policy, ev.group))
    && m'.nextGroup == m.nextGroup + (if ev.CreateGroup? then 1 else 0)
  }

  ghost predicate HasRole(m: Manager, n: NodeId, policy: AsyncPolicy, group: Option<nat>) {
    n in m.nodes && m.nodes[n].policy == policy && m.nodes[n].group == group
  }

  /** The futures that wait with a node: a busy `Queue` node's trigger adds its own behind the
      others, and a completion lets the first one go. */
  ghost predicate PendsExactly(m: Manager, m': Manager, ev: Event, n: NodeId)
    requires Enabled(m, ev) && n in m.nodes
  {
    n in m'.nodes &&
    var s := m.nodes[n];
    m'.nodes[n].pending ==
    if ev.Trigger? && ev.node == n && s.policy.Queue? && s.inFlight.Some?
    then s.pending + [Job(|m.triggered|, n, ev.result)]
    else if ev.Process? && m.inbox[0].node == n && s.policy.Queue? && s.pending != [] then s.pending[1..]
    else s.pending
  }

  lemma ProcessPends(m: Manager, n: NodeId)
    requires Good(m, None) && WorkConserving(m) && m.inbox != [] && n in m.nodes
    ensures PendsExactly(m, Next(m, Process), Process, n)
  {
    assert m.inbox[0] in Live(m);
    CompletionStarts(m);
    if Popped(m).Some? {
      assert OwnPending(m.inbox[0].node, m.nodes[m.inbox[0].node]);
      assert Popped(m).value in m.nodes[m.inbox[0].node].pending;
      OfferedStarts(SlotFreed(Completed(m), m.nodes[m.inbox[0].node].group), Popped(m).value);
    }
  }

  lemma TriggerPends(m: Manager, ev: Event, n: NodeId)
    requires Enabled(m, ev) && ev.Trigger? && n in m.nodes
    ensures PendsExactly(m, Next(m, ev), ev, n)
  {
    var j, m1 := Job(|m.triggered|, ev.node, ev.result), HandedOver(m, ev.node, ev.result, ev.policy, ev.group);
    if m1.nodes[ev.node].policy.Queue? {
      if m1.nodes[ev.node].inFlight.None? {
        OfferedStarts(m1, j);
      }
    } else {
      CancelledEnds(m1, ev.node, ev.late);
      OfferedStarts(Cancelled(m1, ev.node, ev.late), j);
    }
  }

  lemma StepPends(m: Manager, ev: Event, n: NodeId)
    requires Good(m, None) && WorkConserving(m) && Enabled(m, ev) && n in m.nodes
    ensures PendsExactly(m, Next(m, ev), ev, n)
  {
    match ev
    case Trigger(_, _, _, _, _) => TriggerPends(m, ev, n);
    case Process => ProcessPends(m, n);
    case _ =>
  }

  /** Offering a job leaves all that alone. */
  lemma OfferedKeeps(m: Manager, j: Job)
    ensures Offered(m, j).nextGroup == m.nextGroup && Offered(m, j).nodes.Keys == m.nodes.Keys
    ensures Offered(m, j).triggered == m.triggered && Offered(m, j).delivered == m.delivered
  {
  }

  lemma TriggerRecords(m: Manager, ev: Event)
    requires Enabled(m, ev) && ev.Trigger?
    ensures RecordsExactly(m, Next(m, ev), ev)
  {
    TriggeredHistory(m, ev.node, ev.result, ev.policy, ev.group, ev.late);
    TriggeredRoles(m, ev.node, ev.result, ev.policy, ev.group, ev.late, ev.node);
  }

  lemma TriggeredHistory(m: Manager, n: NodeId, v: Value, p: AsyncPolicy, g: Option<nat>, late: bool)
    ensures
      var m' := Triggered(m, n, v, p, g, late);
      && m'.triggered == m.triggered + [Job(|m.triggered|, n, v)] && m'.delivered == m.delivered
      && m'.nodes.Keys == m.nodes.Keys + {n} && m'.nextGroup == m.nextGroup
  {
    var j, m1 := Job(|m.triggered|, n, v), HandedOver(m, n, v, p, g);
    if m1.nodes[n].policy.Queue? {
      OfferedKeeps(m1, j);
    } else {
      CancelledKeeps(m1, n, late);
      OfferedKeeps(Cancelled(m1, n, late), j);
    }
  }

  lemma CancelledKeeps(m: Manager, n: NodeId, late: bool)
    requires n in m.nodes
    ensures
      var m' := Cancelled(m, n, late);
      && m'.nextGroup == m.nextGroup && m'.nodes.Keys == m.nodes.Keys
      && m'.triggered == m.triggered && m'.delivered == m.delivered
  {
  }

  lemma ProcessRecords(m: Manager)
    requires m.inbox != []
    ensures RecordsExactly(m, Next(m, Process), Process)
  {
    if m.inbox[0].node in m.nodes {
      var m1 := SlotFreed(Completed(m), m.nodes[m.inbox[0].node].group);
      SlotFreedKeeps(Completed(m), m.nodes[m.inbox[0].node].group);
      if Popped(m).Some? {
        OfferedKeeps(m1, Popped(m).value);
      }
    }
  }

  lemma StepRecords(m: Manager, ev: Event)
    requires Enabled(m, ev)
    ensures RecordsExactly(m, Next(m, ev), ev)
  {
    match ev
    case Trigger(_, _, _, _, _) => TriggerRecords(m, ev);
    case Process => ProcessRecords(m);
    case _ =>
  }

  ghost predicate TriggeredBefore(events: seq<Event>, k: nat, n: NodeId) {
    exists j :: 0 <= j < k && j < |events| && events[j].Trigger? && events[j].node == n
  }

  /** The policy and the group of a node are those of its first trigger. */
  lemma {:induction false} RoleIsFirstTriggers(states: seq<Manager>, events: seq<Event>, i: nat, n: NodeId)
    returns (k: nat)
    requires Run(states, events) && i <= |events| && n in states[i].nodes
    ensures k < i && events[k].Trigger? && events[k].node == n && !TriggeredBefore(events, k, n)
    ensures HasRole(states[i], n, events[k].policy, events[k].group)
  {
    var m, ev := states[i - 1], events[i - 1];
    assert Enabled(m, ev) && states[i] == Next(m, ev);
    StepRecords(m, ev);
    if n in m.nodes {
      k := RoleIsFirstTriggers(states, events, i - 1, n);
      StepKeepsRole(m, ev, n);
    } else {
      k := i - 1;
      TriggeredAreKnown(states, events, k, n);
    }
  }

  lemma {:induction false} TriggeredAreKnown(states: seq<Manager>, events: seq<Event>, i: nat, n: NodeId)
    requires Run(states, events) && i <= |events|
    ensures n in states[i].nodes <==> TriggeredBefore(events, i, n)
  {
    if i > 0 {
      TriggeredAreKnown(states, events, i - 1, n);
      assert Enabled(states[i - 1], events[i - 1]) && states[i] == Next(states[i - 1], events[i - 1]);
      StepRecords(states[i - 1], events[i - 1]);
      assert TriggeredBefore(events, i, n) <==>
             TriggeredBefore(events, i - 1, n) || (events[i - 1].Trigger? && events[i - 1].node == n);
    }
  }

  ghost function GroupsCreated(events: seq<Event>, i: nat): nat
    requires i <= |events|
  {
    if i == 0 then 0 else GroupsCreated(events, i - 1) + if events[i - 1].CreateGroup? then 1 else 0
  }

  lemma {:induction false} HandlesAreNumbers(states: seq<Manager>, events: seq<Event>, i: nat)
    requires Run(states, events) && i <= |events|
    ensures states[i].nextGroup == GroupsCreated(events, i)
    ensures forall g: nat :: g in states[i].groups <==> g < GroupsCreated(events, i)
  {
    if i > 0 {
      HandlesAreNumbers(states, events, i - 1);
      var m, ev := states[i - 1], events[i - 1];
      assert Enabled(m, ev) && states[i] == Next(m, ev);
      StepRecords(m, ev);
      match ev
      case Trigger(n, v, p, h, late) => TriggeredGroups(m, n, v, p, h, late);
      case Process => ProcessedGroups(m);
      case _ =>
    }
  }

  /** What one step of a run does to a group's maximum. */
  lemma MaximumIsKept(states: seq<Manager>, events: seq<Event>, k: nat, g: nat)
    requires Run(states, events) && k < |events| && g in states[k + 1].groups
    ensures g in states[k].groups ==> states[k + 1].groups[g].maxConcurrent == states[k].groups[g].maxConcurrent
    ensures g !in states[k].groups ==>
              && events[k].CreateGroup? && g == states[k].nextGroup
              && states[k + 1].groups[g].maxConcurrent == events[k].maxConcurrent
  {
    RunGood(states, events, k);
    assert Enabled(states[k], events[k]) && states[k + 1] == Next(states[k], events[k]);
    if g in states[k].groups {
      StepKeepsMax(states[k], events[k], g);
    } else {
      GroupsAppear(states[k], events[k], g);
    }
  }

  /** A group is the one that the creation with its number asked for: its maximum is what was
      asked for then, whatever has happened since. */
  lemma {:induction false} GroupIsAsCreated(states: seq<Manager>, events: seq<Event>, i: nat, g: nat)
    returns (k: nat)
    requires Run(states, events) && i <= |events| && g in states[i].groups
    ensures k < i && events[k].CreateGroup? && GroupsCreated(events, k) == g
    ensures states[i].groups[g].maxConcurrent == events[k].maxConcurrent
  {
    k := i - 1;
    MaximumIsKept(states, events, k, g);
    if g in states[k].groups {
      k := GroupIsAsCreated(states, events, k, g);
    } else {
      HandlesAreNumbers(states, events, k);
    }
  }
}
