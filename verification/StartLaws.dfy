/** Which job a step of the async manager starts, and what that says about tasks that really run
    (src/async_compute.rs). */
module StartLaws {
  import opened Nodes
  import opened AsyncJobs
  import opened AsyncLaws

  // ----- the job a step starts -----

  /** The group of the node has a free slot, or the node has no group. */
  predicate HasRoom(m: Manager, group: Option<nat>, used: nat) {
    group.None? || group.value !in m.groups || used < m.groups[group.value].maxConcurrent
  }

  function Used(m: Manager, group: Option<nat>): nat {
    if group.Some? && group.value in m.groups then m.groups[group.value].inFlight else 0
  }

  /** A trigger starts its own job, unless the node is a busy `Queue` node or its group has no
      room; a busy node of another policy gives its slot back first. */
  function StartedByTrigger(m: Manager, n: NodeId, result: Value, policy: AsyncPolicy, group: Option<nat>)
    : Option<Job>
  {
    var s := if n in m.nodes then m.nodes[n] else NodeState(policy, None, group, []);
    var used := if s.inFlight.Some? then MinusOne(Used(m, s.group)) else Used(m, s.group);
    if s.policy.Queue? && s.inFlight.Some? then None
    else if HasRoom(m, s.group, used) then Some(Job(|m.triggered|, n, result)) else None
  }

  predicate QueueWaits(m: Manager, group: Option<nat>) {
    group.Some? && group.value in m.groups && m.groups[group.value].queue != []
  }

  /** A completion starts the first job queued with the group; if there is none, the next job
      waiting with the node. */
  function StartedByProcess(m: Manager): Option<Job>
    requires m.inbox != []
  {
    if m.inbox[0].node !in m.nodes then None else
    var g := m.nodes[m.inbox[0].node].group;
    if !HasRoom(m, g, 0) then None
    else if QueueWaits(m, g) then Some(m.groups[g.value].queue[0])
    else Popped(m)
  }

  function StartedBy(m: Manager, ev: Event): Option<Job>
    requires Enabled(m, ev)
  {
    match ev
    case Trigger(n, v, p, g, _) => StartedByTrigger(m, n, v, p, g)
    case Process => StartedByProcess(m)
    case _ => None
  }

  function Just(j: Option<Job>): set<Job> {
    if j.Some? then {j.value} else {}
  }

  /** The tasks that a step ends: one that sends its result, or one aborted in time. */
  function EndedBy(m: Manager, ev: Event): set<Job> {
    match ev
    case Send(j) => {j}
    case Trigger(n, _, _, _, late) =>
      if n in m.nodes && !m.nodes[n].policy.Queue? && !late then Just(m.nodes[n].inFlight) else {}
    case _ => {}
  }

  // ----- completions -----

  lemma RefilledOnce(m: Manager, g: nat)
    requires g in m.groups && (m.groups[g].queue != [] ==> m.groups[g].inFlight + 1 >= m.groups[g].maxConcurrent)
    ensures Refilled(m, g) ==
            if m.groups[g].inFlight < m.groups[g].maxConcurrent && m.groups[g].queue != [] then RefillRound(m, g) else m
  {
    if m.groups[g].inFlight < m.groups[g].maxConcurrent && m.groups[g].queue != [] {
      var t := RefillRound(m, g);
      assert t.groups[g].inFlight == t.groups[g].maxConcurrent;
      assert Refilled(t, g) == t;
    }
  }

  /** The state of the group whose slot a completion gives back. */
  ghost predicate SlotPassedOn(m: Manager, r: Manager, g: nat, head: Option<Job>)
    requires g in m.groups
  {
    && r.running == m.running + Just(head) && r.channel == m.channel && r.inbox == m.inbox
    && g in r.groups && r.groups[g].maxConcurrent == m.groups[g].maxConcurrent
    && r.groups[g].inFlight == (if head.Some? then m.groups[g].maxConcurrent else MinusOne(m.groups[g].inFlight))
    && r.nodes == (if head.Some? && head.value.node in m.nodes
                   then m.nodes[head.value.node := m.nodes[head.value.node].(inFlight := head)] else m.nodes)
  }

  lemma SlotFreedStarts(m: Manager, g: nat)
    requires g in m.groups && Full(m.groups[g])
    ensures
      var head := if QueueWaits(m, Some(g)) && m.groups[g].maxConcurrent > 0 then Some(m.groups[g].queue[0]) else None;
      SlotPassedOn(m, SlotFreed(m, Some(g)), g, head)
  {
    var m1 := WithGroup(m, g, MinusOne(m.groups[g].inFlight), m.groups[g].queue);
    RefilledOnce(m1, g);
    assert SlotFreed(m, Some(g)) == Refilled(m1, g);
  }

  /** What offering a job does to the tasks and to its node's handle. */
  lemma OfferedStarts(m: Manager, j: Job)
    requires j.node in m.nodes
    ensures
      var m', started := Offered(m, j), HasRoom(m, GroupOf(m, j.node), Used(m, GroupOf(m, j.node)));
      && m'.running == m.running + (if started then {j} else {}) && m'.channel == m.channel && m'.inbox == m.inbox
      && m'.nodes == (if started then m.nodes[j.node := m.nodes[j.node].(inFlight := Some(j))] else m.nodes)
  {
  }

  /** What a step does to the tasks that run, to the results under way, and to the nodes'
      handles. */
  ghost predicate StartsExactly(m: Manager, m': Manager, ev: Event)
    requires Enabled(m, ev)
  {
    && m'.running == (m.running - EndedBy(m, ev)) + Just(StartedBy(m, ev))
    && m'.channel == (match ev case Send(j) => m.channel + [j] case Receive => m.channel[1..] case _ => m.channel)
    && m'.inbox == (match ev case Receive => m.inbox + [m.channel[0]] case Process => m.inbox[1..] case _ => m.inbox)
    && (forall n :: n in m.nodes ==>
          n in m'.nodes &&
          m'.nodes[n].inFlight ==
          if StartedBy(m, ev).Some? && StartedBy(m, ev).value.node == n then StartedBy(m, ev)
          else if ev.Process? && m.inbox[0].node == n then None
          else if ev.Trigger? && ev.node == n && !m.nodes[n].policy.Queue? then None
          else m.nodes[n].inFlight)
    && (ev.Trigger? && ev.node !in m.nodes ==>
          ev.node in m'.nodes && m'.nodes[ev.node].inFlight == StartedBy(m, ev))
  }

  lemma CancelledEnds(m: Manager, n: NodeId, late: bool)
    requires n in m.nodes
    ensures
      var m' := Cancelled(m, n, late);
      && m'.running == m.running - (if late then {} else Just(m.nodes[n].inFlight))
      && m'.channel == m.channel && m'.inbox == m.inbox && GroupOf(m', n) == GroupOf(m, n)
      && Used(m', GroupOf(m, n)) == (if m.nodes[n].inFlight.Some? then MinusOne(Used(m, GroupOf(m, n)))
                                     else Used(m, GroupOf(m, n)))
      && m'.nodes == m.nodes[n := m.nodes[n].(inFlight := None)]
      && (forall used :: HasRoom(m', GroupOf(m, n), used) <==> HasRoom(m, GroupOf(m, n), used))
  {
    assert m.nodes[n].inFlight.None? ==> m.nodes == m.nodes[n := m.nodes[n].(inFlight := None)];
  }

  lemma TriggerStarts(m: Manager, ev: Event)
    requires Enabled(m, ev) && ev.Trigger?
    ensures StartsExactly(m, Next(m, ev), ev)
  {
    var k, j := ev.node, Job(|m.triggered|, ev.node, ev.result);
    var m1 := HandedOver(m, k, ev.result, ev.policy, ev.group);
    assert m1.groups == m.groups && m1.running == m.running && m1.channel == m.channel && m1.inbox == m.inbox;
    if m1.nodes[k].policy.Queue? {
      if m1.nodes[k].inFlight.None? {
        OfferedStarts(m1, j);
      }
    } else {
      CancelTriggerStarts(m, ev);
    }
  }

  lemma CancelTriggerStarts(m: Manager, ev: Event)
    requires Enabled(m, ev) && ev.Trigger?
    requires !HandedOver(m, ev.node, ev.result, ev.policy, ev.group).nodes[ev.node].policy.Queue?
    ensures StartsExactly(m, Next(m, ev), ev)
  {
    var m1 := HandedOver(m, ev.node, ev.result, ev.policy, ev.group);
    CancelledEnds(m1, ev.node, ev.late);
    OfferedStarts(Cancelled(m1, ev.node, ev.late), Job(|m.triggered|, ev.node, ev.result));
  }

  /** The job that goes ahead in a completion, given what the group's queue did with the slot. */
  lemma CompletionStarts(m: Manager)
    requires m.inbox != [] && m.inbox[0].node in m.nodes && WorkConserving(m) && Tidy(m)
    ensures
      var m1, g := Completed(m), m.nodes[m.inbox[0].node].group;
      var r := SlotFreed(m1, g);
      var head := if QueueWaits(m, g) && HasRoom(m, g, 0) then StartedByProcess(m) else None;
      && r.running == m.running + Just(head) && r.channel == m.channel && r.inbox == m.inbox[1..]
      && r.nodes == (if head.Some? then m1.nodes[head.value.node := m1.nodes[head.value.node].(inFlight := head)]
                     else m1.nodes)
      && (HasRoom(r, g, Used(r, g)) <==> !QueueWaits(m, g) && HasRoom(m, g, 0))
  {
    var m1, g := Completed(m), m.nodes[m.inbox[0].node].group;
    if g.Some? {
      SlotFreedStarts(m1, g.value);
      if QueueWaits(m, g) {
        assert OwnQueue(m, g.value, m.groups[g.value].queue);
        assert m.groups[g.value].queue[0].node in m.nodes;
      }
    }
  }

  lemma ProcessStarts(m: Manager)
    requires Good(m, None) && WorkConserving(m) && m.inbox != []
    ensures StartsExactly(m, Next(m, Process), Process)
  {
    var j := m.inbox[0];
    assert j in Live(m);
    assert OwnPending(j.node, m.nodes[j.node]);
    assert Popped(m).Some? ==> Popped(m).value in m.nodes[j.node].pending;
    CompletionStarts(m);
    if Popped(m).Some? {
      CompletedKeepsGroup(m, Popped(m).value.node);
      OfferedStarts(SlotFreed(Completed(m), m.nodes[j.node].group), Popped(m).value);
    }
  }

  lemma CompletedKeepsGroup(m: Manager, n: NodeId)
    requires m.inbox != [] && m.inbox[0].node in m.nodes && n in m.nodes
    ensures GroupOf(SlotFreed(Completed(m), m.nodes[m.inbox[0].node].group), n) == GroupOf(m, n)
  {
    var m1, g := Completed(m), m.nodes[m.inbox[0].node].group;
    if g.Some? {
      RefilledRoles(if g.value in m1.groups
                    then WithGroup(m1, g.value, MinusOne(m1.groups[g.value].inFlight), m1.groups[g.value].queue)
                    else m1, g.value, n);
    }
  }

  /** Every step starts exactly the job its guards name, if any, and ends exactly the task that
      sends or is aborted in time. */
  lemma StepStarts(m: Manager, ev: Event)
    requires Good(m, None) && WorkConserving(m) && Enabled(m, ev)
    ensures StartsExactly(m, Next(m, ev), ev)
  {
    match ev
    case Trigger(_, _, _, _, _) => TriggerStarts(m, ev);
    case Process => ProcessStarts(m);
    case _ =>
  }

  lemma JobIsElsewhere(m: Manager, hand: Option<Job>, j: Job)
    requires Good(m, hand)
    requires hand == Some(j) || j in Pending(m, j.node) || j in Queued(m, GroupOf(m, j.node))
    ensures j !in Live(m)
  {
    InOnePlace(m, hand, j);
    assert j in Pending(m, j.node) ==> j in multiset(Pending(m, j.node));
    assert j in Queued(m, GroupOf(m, j.node)) ==> j in multiset(Queued(m, GroupOf(m, j.node)));
    assert j !in multiset(m.channel) && j !in multiset(m.inbox);
  }

  /** The job a step starts has not been started before, and its node is known. */
  lemma StartedIsNew(m: Manager, ev: Event)
    requires Good(m, None) && Enabled(m, ev) && StartedBy(m, ev).Some?
    ensures StartedBy(m, ev).value !in Live(m)
  {
    match ev
    case Trigger(n, v, p, g, _) =>
      HandedOverGood(m, n, v, p, g);
      HandedOverTidy(m, n, v, p, g);
      JobIsElsewhere(HandedOver(m, n, v, p, g), StartedBy(m, ev), StartedBy(m, ev).value);
    case Process =>
      var k := m.inbox[0].node;
      if QueueWaits(m, m.nodes[k].group) {
        var g := m.nodes[k].group.value;
        assert OwnQueue(m, g, m.groups[g].queue);
      } else {
        assert OwnPending(k, m.nodes[k]);
      }
      JobIsElsewhere(m, None, StartedBy(m, ev).value);
  }

  // ----- tasks that run, against the capacity -----

  ghost function RunningIn(m: Manager, g: nat): set<Job> {
    set j | j in m.running && GroupOf(m, j.node) == Some(g)
  }

  ghost predicate WithinCapacity(m: Manager, g: nat) {
    g in m.groups ==> |RunningIn(m, g)| <= m.groups[g].maxConcurrent
  }

  /** The group of the triggered or completed node. */
  function GroupAt(m: Manager, ev: Event): Option<nat>
    requires Enabled(m, ev)
  {
    match ev
    case Trigger(n, _, _, g, _) => if n in m.nodes then m.nodes[n].group else g
    case Process => GroupOf(m, m.inbox[0].node)
    case _ => None
  }

  ghost predicate StartsIn(m: Manager, ev: Event, g: nat)
    requires Enabled(m, ev)
  {
    StartedBy(m, ev).Some? && GroupAt(m, ev) == Some(g)
  }

  lemma StartedInGroup(m: Manager, ev: Event)
    requires Good(m, None) && Enabled(m, ev) && StartedBy(m, ev).Some?
    ensures GroupOf(Next(m, ev), StartedBy(m, ev).value.node) == GroupAt(m, ev)
  {
    match ev
    case Trigger(n, v, p, g, late) => TriggeredRoles(m, n, v, p, g, late, n);
    case Process =>
      var k := m.inbox[0].node;
      if QueueWaits(m, m.nodes[k].group) {
        var g := m.nodes[k].group.value;
        assert OwnQueue(m, g, m.groups[g].queue);
      } else {
        assert OwnPending(k, m.nodes[k]);
      }
      StepKeepsRole(m, ev, StartedBy(m, ev).value.node);
  }

  /** The step starts a task of a group of which as many as it allows run and go on running. */
  ghost predicate Overruns(m: Manager, ev: Event, g: nat)
    requires Enabled(m, ev)
  {
    g in m.groups && StartsIn(m, ev, g) && |RunningIn(m, g) - EndedBy(m, ev)| >= m.groups[g].maxConcurrent
  }

  lemma RunningKeepsGroup(m: Manager, ev: Event, j: Job)
    requires Tidy(m) && Enabled(m, ev) && j in m.running
    ensures GroupOf(Next(m, ev), j.node) == GroupOf(m, j.node)
  {
    assert j in Live(m);
    StepKeepsRole(m, ev, j.node);
  }

  lemma RunningInOf(m: Manager, m': Manager, ended: set<Job>, started: Option<Job>, g: nat)
    requires m'.running == (m.running - ended) + Just(started)
    requires forall j: Job :: j in m.running ==> GroupOf(m', j.node) == GroupOf(m, j.node)
    ensures RunningIn(m', g) ==
            (RunningIn(m, g) - ended) +
            if started.Some? && GroupOf(m', started.value.node) == Some(g) then Just(started) else {}
  {
  }

  lemma RunningInNext(m: Manager, ev: Event, g: nat)
    requires Good(m, None) && WorkConserving(m) && Enabled(m, ev)
    ensures RunningIn(Next(m, ev), g) ==
            (RunningIn(m, g) - EndedBy(m, ev)) + if StartsIn(m, ev, g) then Just(StartedBy(m, ev)) else {}
  {
    var m' := Next(m, ev);
    StepStarts(m, ev);
    forall j: Job | j in m.running ensures GroupOf(m', j.node) == GroupOf(m, j.node) {
      RunningKeepsGroup(m, ev, j);
    }
    if StartedBy(m, ev).Some? {
      StartedInGroup(m, ev);
    }
    RunningInOf(m, m', EndedBy(m, ev), StartedBy(m, ev), g);
  }

  /** One step: a group's running tasks stay within its maximum if and only if the step does not
      overrun. */
  lemma StepKeepsWithinIff(m: Manager, ev: Event, g: nat)
    requires Good(m, None) && WorkConserving(m) && Enabled(m, ev) && WithinCapacity(m, g)
    ensures WithinCapacity(Next(m, ev), g) <==> !Overruns(m, ev, g)
  {
    RunningInNext(m, ev, g);
    var stay := RunningIn(m, g) - EndedBy(m, ev);
    if g in m.groups {
      StepKeepsMax(m, ev, g);
      Fewer(RunningIn(m, g), stay);
      if StartsIn(m, ev, g) {
        StartedIsNew(m, ev);
        assert stay + Just(StartedBy(m, ev)) == stay + {StartedBy(m, ev).value} && StartedBy(m, ev).value !in stay;
      }
    } else {
      NewGroupRunsNothing(m, ev, g);
    }
  }

  lemma Fewer(a: set<Job>, b: set<Job>)
    requires b <= a
    ensures |b| <= |a|
  {
    assert a == b + (a - b);
  }

  lemma NewGroupRunsNothing(m: Manager, ev: Event, g: nat)
    requires Good(m, None) && WorkConserving(m) && Enabled(m, ev) && g !in m.groups
    ensures g in Next(m, ev).groups ==> RunningIn(Next(m, ev), g) == {}
  {
    if g in Next(m, ev).groups {
      GroupsAppear(m, ev, g);
      assert forall j: Job :: j in m.running ==> j in Live(m);
      assert Next(m, ev).nodes == m.nodes;
    }
  }

  ghost predicate NeverOverrun(states: seq<Manager>, events: seq<Event>, i: nat, g: nat)
    requires Run(states, events) && i < |states|
  {
    forall k :: 0 <= k < i ==> !Overruns(states[k], events[k], g)
  }

  lemma RunKeepsWithinIff(states: seq<Manager>, events: seq<Event>, k: nat, g: nat)
    requires Run(states, events) && k < |events| && WithinCapacity(states[k], g)
    ensures WithinCapacity(states[k + 1], g) <==> !Overruns(states[k], events[k], g)
  {
    RunGood(states, events, k);
    WorkIsConserved(states, events, k);
    assert Enabled(states[k], events[k]) && states[k + 1] == Next(states[k], events[k]);
    StepKeepsWithinIff(states[k], events[k], g);
  }

  lemma {:induction false} WithinUntilOverrun(states: seq<Manager>, events: seq<Event>, i: nat, g: nat)
    requires Run(states, events) && i < |states| && NeverOverrun(states, events, i, g)
    ensures WithinCapacity(states[i], g)
  {
    if i > 0 {
      WithinUntilOverrun(states, events, i - 1, g);
      RunKeepsWithinIff(states, events, i - 1, g);
    }
  }

  /** Over a run: the running tasks of a group have stayed within its maximum all along if and
      only if no step overran. */
  lemma WithinIffNeverOverrun(states: seq<Manager>, events: seq<Event>, i: nat, g: nat)
    requires Run(states, events) && i < |states|
    ensures (forall k :: 0 <= k <= i ==> WithinCapacity(states[k], g)) <==> NeverOverrun(states, events, i, g)
  {
    if NeverOverrun(states, events, i, g) {
      forall k | 0 <= k <= i ensures WithinCapacity(states[k], g) {
        WithinUntilOverrun(states, events, k, g);
      }
    } else {
      var k :| 0 <= k < i && Overruns(states[k], events[k], g);
      if WithinCapacity(states[k], g) {
        RunKeepsWithinIff(states, events, k, g);
        assert !WithinCapacity(states[k + 1], g);
      }
    }
  }
}
