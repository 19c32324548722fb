/** Laws of the async manager over every run: capacity, exact counting, no stranded work. */
module AsyncLaws {
  import opened Nodes
  import opened AsyncJobs

  lemma {:induction false} RunGood(states: seq<Manager>, events: seq<Event>, i: nat)
    requires Run(states, events) && i < |states|
    ensures Good(states[i], None)
  {
    if i == 0 {
      InitiallyGood();
    } else {
      RunGood(states, events, i - 1);
      assert Enabled(states[i - 1], events[i - 1]);
      NextGood(states[i - 1], events[i - 1]);
    }
  }

  lemma InitiallyGood()
    ensures Good(INITIAL, None) && Live(INITIAL) == {}
  {
    assert forall j :: Places(INITIAL, j) == 0;
    assert Live(INITIAL) == {};
  }

  /** No future is lost or run twice: in every reachable state each future handed over is in
      exactly one place (running, sent, received, waiting with its node, waiting with its
      group, delivered, or aborted), and nothing else is anywhere. */
  lemma EveryJobInOnePlace(states: seq<Manager>, events: seq<Event>, i: nat, j: Job)
    requires Run(states, events) && i < |states|
    ensures Places(states[i], j) == if j in states[i].triggered then 1 else 0
  {
    RunGood(states, events, i);
    InOnePlace(states[i], None, j);
    assert j in states[i].triggered <==> j in multiset(states[i].triggered);
  }

  // ----- work conservation -----

  /** Never over capacity, and never idle capacity while jobs are queued. */
  ghost predicate Full(s: GroupState) {
    s.inFlight <= s.maxConcurrent && (s.queue != [] ==> s.inFlight == s.maxConcurrent)
  }

  /** What cancelling a task may temporarily leave: one free slot. */
  ghost predicate AlmostFull(s: GroupState) {
    s.inFlight <= s.maxConcurrent && (s.queue != [] ==> s.inFlight + 1 >= s.maxConcurrent)
  }

  ghost predicate WorkConserving(m: Manager) {
    forall g :: g in m.groups ==> Full(m.groups[g])
  }

  lemma OfferedIsFull(m: Manager, j: Job)
    requires forall g :: g in m.groups ==>
               if GroupOf(m, j.node) == Some(g) then AlmostFull(m.groups[g]) else Full(m.groups[g])
    ensures WorkConserving(Offered(m, j))
  {
  }

  lemma {:induction false} RefilledIsFull(m: Manager, g: nat)
    requires forall h :: h in m.groups && h != g ==> Full(m.groups[h])
    requires g in m.groups ==> m.groups[g].inFlight <= m.groups[g].maxConcurrent
    ensures WorkConserving(Refilled(m, g))
    decreases if g in m.groups then |m.groups[g].queue| else 0
  {
    if g in m.groups && m.groups[g].inFlight < m.groups[g].maxConcurrent && m.groups[g].queue != [] {
      RefilledIsFull(RefillRound(m, g), g);
    }
  }

  lemma TriggeredIsFull(m: Manager, n: NodeId, result: Value, policy: AsyncPolicy, group: Option<nat>, late: bool)
    requires WorkConserving(m)
    ensures WorkConserving(Triggered(m, n, result, policy, group, late))
  {
    var j, m1 := Job(|m.triggered|, n, result), HandedOver(m, n, result, policy, group);
    if m1.nodes[n].policy.Queue? {
      if m1.nodes[n].inFlight.None? {
        OfferedIsFull(m1, j);
      }
    } else {
      var m2 := Cancelled(m1, n, late);
      assert GroupOf(m2, n) == GroupOf(m1, n);
      OfferedIsFull(m2, j);
    }
  }

  lemma ProcessedIsFull(m: Manager)
    requires WorkConserving(m) && m.inbox != []
    ensures WorkConserving(Processed(m))
  {
    if m.inbox[0].node in m.nodes {
      var m1, g := Completed(m), m.nodes[m.inbox[0].node].group;
      if g.Some? {
        RefilledIsFull(if g.value in m1.groups
                       then WithGroup(m1, g.value, MinusOne(m1.groups[g.value].inFlight), m1.groups[g.value].queue)
                       else m1, g.value);
      }
      assert WorkConserving(SlotFreed(m1, g));
      if Popped(m).Some? {
        OfferedIsFull(SlotFreed(m1, g), Popped(m).value);
      }
    }
  }

  lemma StepIsFull(m: Manager, ev: Event)
    requires WorkConserving(m) && Enabled(m, ev)
    ensures WorkConserving(Next(m, ev))
  {
    match ev
    case Trigger(n, v, p, g, late) => TriggeredIsFull(m, n, v, p, g, late);
    case Process => ProcessedIsFull(m);
    case _ =>
  }

  /** Work conservation in every reachable state, for every mix of policies and however late
      aborts come: a group never counts more tasks than it allows, and queues a job only
      while its count is at the maximum. */
  lemma {:induction false} WorkIsConserved(states: seq<Manager>, events: seq<Event>, i: nat)
    requires Run(states, events) && i < |states|
    ensures WorkConserving(states[i])
  {
    if i > 0 {
      WorkIsConserved(states, events, i - 1);
      assert Enabled(states[i - 1], events[i - 1]);
      StepIsFull(states[i - 1], events[i - 1]);
    }
  }

  // ----- the counter -----

  /** By how much a group's counter falls short of its unprocessed tasks. */
  ghost function Lag(m: Manager, g: nat): int
    requires g in m.groups
  {
    |LiveIn(m, g)| - m.groups[g].inFlight
  }

  lemma LiveGrows(m: Manager, m': Manager, j: Job, g: nat)
    requires Live(m') == Live(m) + {j} && j !in Live(m) && forall n :: GroupOf(m', n) == GroupOf(m, n)
    ensures |LiveIn(m', g)| == |LiveIn(m, g)| + if GroupOf(m, j.node) == Some(g) then 1 else 0
  {
    if GroupOf(m, j.node) == Some(g) {
      assert LiveIn(m', g) == LiveIn(m, g) + {j};
    } else {
      assert LiveIn(m', g) == LiveIn(m, g);
    }
  }

  lemma LiveShrinks(m: Manager, m': Manager, j: Job, g: nat)
    requires Live(m') == Live(m) - {j} && j in Live(m) && forall n :: GroupOf(m', n) == GroupOf(m, n)
    ensures |LiveIn(m', g)| == |LiveIn(m, g)| - if GroupOf(m, j.node) == Some(g) then 1 else 0
  {
    if GroupOf(m, j.node) == Some(g) {
      assert LiveIn(m', g) == LiveIn(m, g) - {j};
    } else {
      assert LiveIn(m', g) == LiveIn(m, g);
    }
  }

  lemma LiveSame(m: Manager, m': Manager, g: nat)
    requires Live(m') == Live(m) && forall j :: j in Live(m) ==> GroupOf(m', j.node) == GroupOf(m, j.node)
    ensures LiveIn(m', g) == LiveIn(m, g)
  {
  }

  lemma HandIsNotLive(m: Manager, j: Job)
    requires Good(m, Some(j))
    ensures j !in Live(m)
  {
    InOnePlace(m, Some(j), j);
    assert j !in multiset(m.channel) && j !in multiset(m.inbox);
  }

  lemma OfferedLag(m: Manager, j: Job, g: nat)
    requires Good(m, Some(j)) && g in m.groups
    ensures g in Offered(m, j).groups && Lag(Offered(m, j), g) == Lag(m, g)
  {
    HandIsNotLive(m, j);
    var h := GroupOf(m, j.node);
    if h.None? || h.value !in m.groups {
      StartedTidy(m, j);
      LiveGrows(m, Started(m, j), j, g);
    } else if m.groups[h.value].inFlight >= m.groups[h.value].maxConcurrent {
      QueuedInTidy(m, h.value, j);
      LiveSame(m, QueuedIn(m, h.value, j), g);
    } else {
      StartedInTidy(m, h.value, j);
      LiveGrows(m, StartedIn(m, h.value, j), j, g);
    }
  }

  lemma {:induction false} RefilledLag(m: Manager, hand: Option<Job>, h: nat, g: nat)
    requires Good(m, hand) && g in m.groups
    ensures g in Refilled(m, h).groups && Lag(Refilled(m, h), g) == Lag(m, g)
    decreases if h in m.groups then |m.groups[h].queue| else 0
  {
    if h in m.groups && m.groups[h].inFlight < m.groups[h].maxConcurrent && m.groups[h].queue != [] {
      RefillRoundGood(m, hand, h);
      LiveGrows(m, RefillRound(m, h), m.groups[h].queue[0], g);
      RefilledLag(RefillRound(m, h), hand, h, g);
    }
  }

  /** The trigger cancels a task of group `g` that has already sent its result or can no
      longer be stopped from sending it. */
  ghost predicate AbortsTooLate(m: Manager, ev: Event, g: nat) {
    ev.Trigger? && ev.node in m.nodes && !m.nodes[ev.node].policy.Queue? && GroupOf(m, ev.node) == Some(g) &&
    m.nodes[ev.node].inFlight.Some? && (ev.late || m.nodes[ev.node].inFlight.value !in m.running)
  }

  lemma HandleTakenLag(m: Manager, hand: Option<Job>, n: NodeId, late: bool, g: nat)
    requires Good(m, hand) && n in m.nodes && m.nodes[n].inFlight.Some?
    ensures |LiveIn(HandleTaken(m, n, late), g)| ==
            |LiveIn(m, g)| - if GroupOf(m, n) == Some(g) && m.nodes[n].inFlight.value in m.running && !late
                             then 1 else 0
    ensures GroupOf(m, n) == Some(g) ==> |LiveIn(m, g)| >= 1
  {
    var j, m1 := m.nodes[n].inFlight.value, HandleTaken(m, n, late);
    HandleTakenGood(m, hand, n, late);
    assert forall k :: GroupOf(m1, k) == GroupOf(m, k);
    if GroupOf(m, n) == Some(g) {
      assert j in LiveIn(m, g);
    }
    if j in m.running && !late {
      LiveShrinks(m, m1, j, g);
    } else {
      LiveSame(m, m1, g);
    }
  }

  lemma CancelledLag(m: Manager, hand: Option<Job>, n: NodeId, late: bool, g: nat)
    requires Good(m, hand) && n in m.nodes && g in m.groups && Lag(m, g) >= 0
    ensures g in Cancelled(m, n, late).groups && Lag(Cancelled(m, n, late), g) >= 0
    ensures Lag(m, g) == 0 ==>
              (Lag(Cancelled(m, n, late), g) == 0 <==>
               !(GroupOf(m, n) == Some(g) && m.nodes[n].inFlight.Some? &&
                 (late || m.nodes[n].inFlight.value !in m.running)))
  {
    if m.nodes[n].inFlight.Some? {
      HandleTakenLag(m, hand, n, late, g);
      CounterIsNoTask(HandleTaken(m, n, late), Cancelled(m, n, late), g);
    }
  }

  lemma CounterIsNoTask(m: Manager, m': Manager, g: nat)
    requires m'.nodes == m.nodes && m'.running == m.running && m'.channel == m.channel && m'.inbox == m.inbox
    ensures LiveIn(m', g) == LiveIn(m, g)
  {
    assert Live(m') == Live(m);
  }

  lemma TriggeredLag(m: Manager, ev: Event, g: nat)
    requires Good(m, None) && Enabled(m, ev) && ev.Trigger? && g in m.groups && Lag(m, g) >= 0
    ensures g in Next(m, ev).groups && Lag(Next(m, ev), g) >= 0
    ensures Lag(m, g) == 0 ==> (Lag(Next(m, ev), g) == 0 <==> !AbortsTooLate(m, ev, g))
  {
    var j, m1 := Job(|m.triggered|, ev.node, ev.result), HandedOver(m, ev.node, ev.result, ev.policy, ev.group);
    HandedOverGood(m, ev.node, ev.result, ev.policy, ev.group);
    HandedOverTidy(m, ev.node, ev.result, ev.policy, ev.group);
    LiveSame(m, m1, g);
    if m1.nodes[ev.node].policy.Queue? {
      if m1.nodes[ev.node].inFlight.Some? {
        var m2 := PendingPushed(m1, j);
        assert Live(m2) == Live(m1);
        LiveSame(m1, m2, g);
      } else {
        OfferedLag(m1, j, g);
      }
    } else {
      CancelledLag(m1, Some(j), ev.node, ev.late, g);
      CancelledGood(m1, Some(j), ev.node, ev.late);
      OfferedLag(Cancelled(m1, ev.node, ev.late), j, g);
    }
  }

  lemma SlotFreedLag(m: Manager, hand: Option<Job>, h: Option<nat>, g: nat)
    requires Good(m, hand) && g in m.groups
    ensures g in SlotFreed(m, h).groups
    ensures Lag(SlotFreed(m, h), g) ==
            |LiveIn(m, g)| - if h == Some(g) then MinusOne(m.groups[g].inFlight) else m.groups[g].inFlight
  {
    if h.Some? {
      if h.value in m.groups {
        var m1 := WithGroup(m, h.value, MinusOne(m.groups[h.value].inFlight), m.groups[h.value].queue);
        CounterGood(m, hand, h.value, MinusOne(m.groups[h.value].inFlight));
        CounterIsNoTask(m, m1, g);
        RefilledLag(m1, hand, h.value, g);
      } else {
        RefilledLag(m, hand, h.value, g);
      }
    }
  }

  lemma ProcessedLag(m: Manager, g: nat)
    requires Good(m, None) && m.inbox != [] && g in m.groups && Lag(m, g) >= 0
    ensures g in Processed(m).groups && Lag(Processed(m), g) >= 0
    ensures Lag(m, g) == 0 ==> Lag(Processed(m), g) == 0
  {
    var j := m.inbox[0];
    assert j in Live(m);
    var m1, h := Completed(m), m.nodes[j.node].group;
    CompletedGood(m);
    LiveShrinks(m, m1, j, g);
    if h == Some(g) {
      assert j in LiveIn(m, g);
    }
    SlotFreedLag(m1, Popped(m), h, g);
    SlotFreedGood(m1, Popped(m), h);
    if Popped(m).Some? {
      OfferedLag(SlotFreed(m1, h), Popped(m).value, g);
    }
  }

  /** One step: a counter never exceeds the number of unprocessed tasks, and it stays exact
      if and only if the step does not abort too late. */
  lemma StepKeepsCountExactIffInTime(m: Manager, ev: Event, g: nat)
    requires Good(m, None) && Enabled(m, ev) && g in m.groups && Lag(m, g) >= 0
    ensures g in Next(m, ev).groups && Lag(Next(m, ev), g) >= 0
    ensures Lag(m, g) == 0 ==> (Lag(Next(m, ev), g) == 0 <==> !AbortsTooLate(m, ev, g))
  {
    match ev
    case Trigger(_, _, _, _, _) => TriggeredLag(m, ev, g);
    case Process => ProcessedLag(m, g);
    case Send(j) =>
      SentGood(m, j);
      LiveSame(m, Sent(m, j), g);
    case Receive =>
      ReceivedGood(m);
      LiveSame(m, Received(m), g);
    case CreateGroup(max) =>
      GroupCreatedTidy(m, max);
      LiveSame(m, GroupCreated(m, max), g);
  }

  lemma NewGroupIsIdle(m: Manager, max: nat)
    requires Good(m, None)
    ensures Lag(GroupCreated(m, max), m.nextGroup) == 0
  {
    GroupCreatedTidy(m, max);
    assert LiveIn(GroupCreated(m, max), m.nextGroup) == {};
  }

  lemma GroupsAppear(m: Manager, ev: Event, g: nat)
    requires Good(m, None) && Enabled(m, ev) && g in Next(m, ev).groups && g !in m.groups
    ensures ev.CreateGroup? && g == m.nextGroup
  {
    match ev
    case Trigger(n, v, p, h, late) => TriggeredGroups(m, n, v, p, h, late);
    case Process => ProcessedGroups(m);
    case _ =>
  }

  lemma TriggeredGroups(m: Manager, n: NodeId, v: Value, p: AsyncPolicy, h: Option<nat>, late: bool)
    ensures Triggered(m, n, v, p, h, late).groups.Keys == m.groups.Keys
  {
  }

  lemma {:induction false} RefilledGroups(m: Manager, g: nat)
    ensures Refilled(m, g).groups.Keys == m.groups.Keys
    decreases if g in m.groups then |m.groups[g].queue| else 0
  {
    if g in m.groups && m.groups[g].inFlight < m.groups[g].maxConcurrent && m.groups[g].queue != [] {
      RefilledGroups(RefillRound(m, g), g);
    }
  }

  lemma ProcessedGroups(m: Manager)
    requires m.inbox != []
    ensures Processed(m).groups.Keys == m.groups.Keys
  {
    if m.inbox[0].node in m.nodes {
      var m1, g := Completed(m), m.nodes[m.inbox[0].node].group;
      if g.Some? {
        RefilledGroups(if g.value in m1.groups
                       then WithGroup(m1, g.value, MinusOne(m1.groups[g.value].inFlight), m1.groups[g.value].queue)
                       else m1, g.value);
      }
      assert SlotFreed(m1, g).groups.Keys == m.groups.Keys;
    }
  }

  /** Before the last step the group had been counted right, or it did not exist. */
  lemma CountedAfterStep(m: Manager, ev: Event, g: nat)
    requires Good(m, None) && Enabled(m, ev) && g in Next(m, ev).groups && (g in m.groups ==> Lag(m, g) >= 0)
    ensures Lag(Next(m, ev), g) >= 0
    ensures (g in m.groups ==> Lag(m, g) == 0) && !AbortsTooLate(m, ev, g) ==> Lag(Next(m, ev), g) == 0
  {
    if g in m.groups {
      StepKeepsCountExactIffInTime(m, ev, g);
    } else {
      GroupsAppear(m, ev, g);
      NewGroupIsIdle(m, ev.maxConcurrent);
    }
  }

  ghost predicate InTime(states: seq<Manager>, events: seq<Event>, i: nat, g: nat)
    requires i <= |events| <= |states|
  {
    forall k :: 0 <= k < i ==> !AbortsTooLate(states[k], events[k], g)
  }

  lemma {:induction false} NeverOvercounts(states: seq<Manager>, events: seq<Event>, i: nat, g: nat)
    requires Run(states, events) && i < |states| && g in states[i].groups
    ensures Lag(states[i], g) >= 0
    ensures InTime(states, events, i, g) ==> Lag(states[i], g) == 0
  {
    if i > 0 {
      RunGood(states, events, i - 1);
      assert Enabled(states[i - 1], events[i - 1]) && states[i] == Next(states[i - 1], events[i - 1]);
      if g in states[i - 1].groups {
        NeverOvercounts(states, events, i - 1, g);
      }
      CountedAfterStep(states[i - 1], events[i - 1], g);
    }
  }

  /** Counter exactness: as long as no abort in the group comes too late, its counter equals
      the number of started, unaborted, unprocessed tasks, which therefore never exceeds the
      maximum. */
  lemma CounterIsExact(states: seq<Manager>, events: seq<Event>, i: nat, g: nat)
    requires Run(states, events) && i < |states| && g in states[i].groups
    requires InTime(states, events, i, g)
    ensures states[i].groups[g].inFlight == |LiveIn(states[i], g)| <= states[i].groups[g].maxConcurrent
  {
    NeverOvercounts(states, events, i, g);
    WorkIsConserved(states, events, i);
  }

  // ----- exactly when counting and capacity break -----

  /** Over a run: the counter of a group has been exact all along if and only if no abort in the
      group came too late. */
  lemma ExactIffInTime(states: seq<Manager>, events: seq<Event>, i: nat, g: nat)
    requires Run(states, events) && i < |states|
    ensures (forall k :: 0 <= k <= i && g in states[k].groups ==> Lag(states[k], g) == 0) <==>
            InTime(states, events, i, g)
  {
    if InTime(states, events, i, g) {
      forall k | 0 <= k <= i && g in states[k].groups ensures Lag(states[k], g) == 0 {
        NeverOvercounts(states, events, k, g);
      }
    } else {
      var k :| 0 <= k < i && AbortsTooLate(states[k], events[k], g);
      RunGood(states, events, k);
      assert Enabled(states[k], events[k]) && states[k + 1] == Next(states[k], events[k]);
      assert g in states[k].groups;
      NeverOvercounts(states, events, k, g);
      StepKeepsCountExactIffInTime(states[k], events[k], g);
    }
  }

  /** Cancelling too late gives back a slot whose task is still counted among the unprocessed. */
  lemma LateCancelLag(m: Manager, hand: Option<Job>, n: NodeId, late: bool, g: nat)
    requires Good(m, hand) && n in m.nodes && GroupOf(m, n) == Some(g) && g in m.groups && Lag(m, g) == 0
    requires m.nodes[n].inFlight.Some? && (late || m.nodes[n].inFlight.value !in m.running)
    ensures g in Cancelled(m, n, late).groups && Lag(Cancelled(m, n, late), g) == 1
    ensures Cancelled(m, n, late).groups[g].inFlight + 1 == m.groups[g].inFlight
    ensures Cancelled(m, n, late).groups[g].maxConcurrent == m.groups[g].maxConcurrent
    ensures GroupOf(Cancelled(m, n, late), n) == Some(g)
  {
    HandleTakenLag(m, hand, n, late, g);
    CounterIsNoTask(HandleTaken(m, n, late), Cancelled(m, n, late), g);
  }

  lemma LateTriggerCounts(m: Manager, ev: Event, g: nat)
    requires Good(m, None) && WorkConserving(m) && Enabled(m, ev) && g in m.groups && Lag(m, g) == 0
    requires AbortsTooLate(m, ev, g)
    ensures g in Next(m, ev).groups && Next(m, ev).groups[g].inFlight == m.groups[g].inFlight
    ensures Lag(Next(m, ev), g) == 1
  {
    var n, j := ev.node, Job(|m.triggered|, ev.node, ev.result);
    var m1 := HandedOver(m, n, ev.result, ev.policy, ev.group);
    HandedOverGood(m, n, ev.result, ev.policy, ev.group);
    HandedOverTidy(m, n, ev.result, ev.policy, ev.group);
    LiveSame(m, m1, g);
    LateCancelLag(m1, Some(j), n, ev.late, g);
    CancelledGood(m1, Some(j), n, ev.late);
    RoomIsTaken(Cancelled(m1, n, ev.late), j, g);
    OfferedLag(Cancelled(m1, n, ev.late), j, g);
  }

  lemma RoomIsTaken(m: Manager, j: Job, g: nat)
    requires GroupOf(m, j.node) == Some(g) && g in m.groups && m.groups[g].inFlight < m.groups[g].maxConcurrent
    ensures g in Offered(m, j).groups && Offered(m, j).groups[g].inFlight == m.groups[g].inFlight + 1
  {
  }

  /** One step from an exact count: more tasks of the group than it allows are started and
      unprocessed if and only if the step aborts too late while the group is full. */
  lemma StepKeepsCapacityIff(m: Manager, ev: Event, g: nat)
    requires Good(m, None) && WorkConserving(m) && Enabled(m, ev) && g in m.groups && Lag(m, g) == 0
    ensures g in Next(m, ev).groups
    ensures |LiveIn(Next(m, ev), g)| > Next(m, ev).groups[g].maxConcurrent <==>
            AbortsTooLate(m, ev, g) && m.groups[g].inFlight == m.groups[g].maxConcurrent
  {
    StepKeepsMax(m, ev, g);
    StepKeepsCountExactIffInTime(m, ev, g);
    StepIsFull(m, ev);
    if AbortsTooLate(m, ev, g) {
      LateTriggerCounts(m, ev, g);
    }
  }

  // ----- groups of Queue nodes -----

  ghost predicate SameRole(m: Manager, m': Manager, n: NodeId) {
    n in m.nodes ==> n in m'.nodes && m'.nodes[n].policy == m.nodes[n].policy && m'.nodes[n].group == m.nodes[n].group
  }

  lemma {:induction false} RefilledRoles(m: Manager, g: nat, n: NodeId)
    ensures SameRole(m, Refilled(m, g), n)
    decreases if g in m.groups then |m.groups[g].queue| else 0
  {
    if g in m.groups && m.groups[g].inFlight < m.groups[g].maxConcurrent && m.groups[g].queue != [] {
      RefilledRoles(RefillRound(m, g), g, n);
    }
  }

  lemma ProcessedRoles(m: Manager, n: NodeId)
    requires m.inbox != []
    ensures SameRole(m, Processed(m), n)
  {
    if m.inbox[0].node in m.nodes {
      var m1, g := Completed(m), m.nodes[m.inbox[0].node].group;
      if g.Some? {
        RefilledRoles(if g.value in m1.groups
                      then WithGroup(m1, g.value, MinusOne(m1.groups[g.value].inFlight), m1.groups[g.value].queue)
                      else m1, g.value, n);
      }
      assert SameRole(m, SlotFreed(m1, g), n);
    }
  }

  lemma OfferedRoles(m: Manager, j: Job, n: NodeId)
    ensures SameRole(m, Offered(m, j), n) && SameRole(Offered(m, j), m, n)
  {
  }

  lemma CancelledRoles(m: Manager, k: NodeId, late: bool, n: NodeId)
    requires k in m.nodes
    ensures SameRole(m, Cancelled(m, k, late), n) && SameRole(Cancelled(m, k, late), m, n)
  {
  }

  lemma TriggeredRoles(m: Manager, k: NodeId, v: Value, p: AsyncPolicy, g: Option<nat>, late: bool, n: NodeId)
    ensures SameRole(HandedOver(m, k, v, p, g), Triggered(m, k, v, p, g, late), n)
    ensures SameRole(Triggered(m, k, v, p, g, late), HandedOver(m, k, v, p, g), n)
    ensures SameRole(m, HandedOver(m, k, v, p, g), n)
  {
    var j, m1 := Job(|m.triggered|, k, v), HandedOver(m, k, v, p, g);
    if m1.nodes[k].policy.Queue? {
      if m1.nodes[k].inFlight.None? {
        OfferedRoles(m1, j, n);
      }
    } else {
      CancelledRoles(m1, k, late, n);
      OfferedRoles(Cancelled(m1, k, late), j, n);
    }
  }

  lemma StepKeepsRole(m: Manager, ev: Event, n: NodeId)
    requires Enabled(m, ev)
    ensures SameRole(m, Next(m, ev), n)
  {
    match ev
    case Trigger(x, v, p, g, late) => TriggeredRoles(m, x, v, p, g, late, n);
    case Process => ProcessedRoles(m, n);
    case _ =>
  }

  /** The policy and group a node was first spawned with never change. */
  lemma {:induction false} RolesAreFixed(states: seq<Manager>, events: seq<Event>, k: nat, i: nat, n: NodeId)
    requires Run(states, events) && k <= i < |states|
    ensures SameRole(states[k], states[i], n)
  {
    if k < i {
      RolesAreFixed(states, events, k, i - 1, n);
      assert Enabled(states[i - 1], events[i - 1]);
      StepKeepsRole(states[i - 1], events[i - 1], n);
    }
  }

  // ----- the maximum -----

  ghost predicate SameMax(m: Manager, m': Manager, g: nat) {
    g in m.groups ==> g in m'.groups && m'.groups[g].maxConcurrent == m.groups[g].maxConcurrent
  }

  lemma {:induction false} RefilledMax(m: Manager, h: nat, g: nat)
    ensures SameMax(m, Refilled(m, h), g)
    decreases if h in m.groups then |m.groups[h].queue| else 0
  {
    if h in m.groups && m.groups[h].inFlight < m.groups[h].maxConcurrent && m.groups[h].queue != [] {
      RefilledMax(RefillRound(m, h), h, g);
    }
  }

  lemma OfferedMax(m: Manager, j: Job, g: nat)
    ensures SameMax(m, Offered(m, j), g)
  {
  }

  lemma SlotFreedMax(m: Manager, h: Option<nat>, g: nat)
    ensures SameMax(m, SlotFreed(m, h), g)
  {
    if h.Some? {
      RefilledMax(if h.value in m.groups
                  then WithGroup(m, h.value, MinusOne(m.groups[h.value].inFlight), m.groups[h.value].queue)
                  else m, h.value, g);
    }
  }

  lemma StepKeepsMax(m: Manager, ev: Event, g: nat)
    requires Good(m, None) && Enabled(m, ev)
    ensures SameMax(m, Next(m, ev), g)
  {
    match ev
    case Trigger(n, v, p, h, late) =>
      var j, m1 := Job(|m.triggered|, n, v), HandedOver(m, n, v, p, h);
      OfferedMax(m1, j, g);
      OfferedMax(Cancelled(m1, n, late), j, g);
    case Process =>
      if m.inbox[0].node in m.nodes {
        var m1, h := Completed(m), m.nodes[m.inbox[0].node].group;
        SlotFreedMax(m1, h, g);
        if Popped(m).Some? {
          OfferedMax(SlotFreed(m1, h), Popped(m).value, g);
        }
      }
    case CreateGroup(_) => assert g in m.groups ==> g < m.nextGroup;
    case _ =>
  }

  ghost predicate QueueOnly(m: Manager, g: nat) {
    forall n :: n in m.nodes && m.nodes[n].group == Some(g) ==> m.nodes[n].policy.Queue?
  }

  /** In a group of Queue nodes the counter is exact in every reachable state. */
  lemma QueueGroupsCountExactly(states: seq<Manager>, events: seq<Event>, i: nat, g: nat)
    requires Run(states, events) && i < |states| && g in states[i].groups && QueueOnly(states[i], g)
    ensures states[i].groups[g].inFlight == |LiveIn(states[i], g)| <= states[i].groups[g].maxConcurrent
  {
    forall k | 0 <= k < i ensures !AbortsTooLate(states[k], events[k], g) {
      if AbortsTooLate(states[k], events[k], g) {
        RolesAreFixed(states, events, k, i, events[k].node);
      }
    }
    CounterIsExact(states, events, i, g);
  }

  lemma RunExtends(states: seq<Manager>, events: seq<Event>, ev: Event, next: Manager)
    requires Run(states, events) && Enabled(states[|events|], ev) && next == Next(states[|events|], ev)
    ensures Run(states + [next], events + [ev])
  {
    var longer, evs := states + [next], events + [ev];
    forall i | 0 <= i < |evs| ensures Enabled(longer[i], evs[i]) && longer[i + 1] == Next(longer[i], evs[i]) {
      if i < |events| {
        assert longer[i] == states[i] && longer[i + 1] == states[i + 1] && evs[i] == events[i];
      }
    }
  }

  lemma Extended(states: seq<Manager>, events: seq<Event>, ev: Event)
    returns (states': seq<Manager>, events': seq<Event>)
    requires Run(states, events) && Enabled(states[|events|], ev)
    ensures Run(states', events') && states'[|events'|] == Next(states[|events|], ev)
    ensures states' == states + [Next(states[|events|], ev)] && events' == events + [ev]
  {
    RunExtends(states, events, ev, Next(states[|events|], ev));
    states', events' := states + [Next(states[|events|], ev)], events + [ev];
  }

  /** A task of a group of one is cancelled when its result is already in the channel. */
  lemma LateAbort(n: NodeId, v: Value) returns (states: seq<Manager>, events: seq<Event>)
    ensures Run(states, events) && |events| == 4 && AbortsTooLate(states[3], events[3], 0)
    ensures
      var m := states[4];
      && m.groups.Keys == {0} && m.groups[0] == GroupState(1, 1, []) && m.nodes.Keys == {n}
      && m.nodes[n] == NodeState(LatestWins, Some(Job(1, n, v)), Some(0), [])
      && m.running == {Job(1, n, v)} && m.channel == [Job(0, n, v)] && m.inbox == [] && |m.triggered| == 2
  {
    var trigger := Trigger(n, v, LatestWins, Some(0), false);
    states, events := Extended([INITIAL], [], CreateGroup(1));
    states, events := Extended(states, events, trigger);
    states, events := Extended(states, events, Send(Job(0, n, v)));
    states, events := Extended(states, events, trigger);
  }

  /** Processing the result of a cancelled task gives back a slot that the new task still needs. */
  lemma LateResult(n: NodeId, v: Value) returns (states: seq<Manager>, events: seq<Event>)
    ensures Run(states, events) && |events| == 6 && AbortsTooLate(states[3], events[3], 0)
    ensures
      var m := states[6];
      && m.groups.Keys == {0} && m.groups[0] == GroupState(1, 0, []) && m.nodes.Keys == {n}
      && m.nodes[n] == NodeState(LatestWins, None, Some(0), [])
      && m.running == {Job(1, n, v)} && |m.triggered| == 2
  {
    states, events := LateAbort(n, v);
    states, events := Extended(states, events, Receive);
    states, events := Extended(states, events, Process);
  }

  /** What an abort that comes too late does: a group that allows one task runs two. */
  lemma LateAbortOverruns(n: NodeId, v: Value) returns (states: seq<Manager>, events: seq<Event>)
    ensures Run(states, events) && |events| == 7
    ensures AbortsTooLate(states[3], events[3], 0)
    ensures 0 in states[7].groups && states[7].groups[0].maxConcurrent == 1
    ensures GroupOf(states[7], n) == Some(0) && states[7].running == {Job(1, n, v), Job(2, n, v)}
  {
    states, events := LateResult(n, v);
    states, events := Extended(states, events, Trigger(n, v, LatestWins, Some(0), false));
  }

  // ----- no stranded work -----

  /** The job is either started and unprocessed, or queued with its node's group. */
  ghost predicate Around(m: Manager, j: Job) {
    j in Live(m) || j in Queued(m, GroupOf(m, j.node))
  }

  /** A node with waiting jobs has another job around whose completion will wake them. */
  ghost predicate HasAdvocate(m: Manager, n: NodeId) {
    exists j :: Around(m, j) && j.node == n
  }

  ghost predicate NobodyForgotten(m: Manager) {
    forall n {:trigger HasAdvocate(m, n)} :: n in m.nodes && m.nodes[n].pending != [] ==> HasAdvocate(m, n)
  }

  lemma OfferedAround(m: Manager, j: Job, k: Job)
    ensures Around(m, k) || k == j ==> Around(Offered(m, j), k)
    ensures Pending(Offered(m, j), k.node) == Pending(m, k.node)
  {
    assert GroupOf(Offered(m, j), k.node) == GroupOf(m, k.node);
  }

  lemma RefillRoundAround(m: Manager, g: nat, k: Job)
    requires g in m.groups && m.groups[g].queue != []
    ensures Around(m, k) ==> Around(RefillRound(m, g), k)
    ensures Pending(RefillRound(m, g), k.node) == Pending(m, k.node)
  {
    assert GroupOf(RefillRound(m, g), k.node) == GroupOf(m, k.node);
    assert m.groups[g].queue == [m.groups[g].queue[0]] + m.groups[g].queue[1..];
  }

  lemma {:induction false} RefilledAround(m: Manager, g: nat, k: Job)
    ensures Around(m, k) ==> Around(Refilled(m, g), k)
    ensures Pending(Refilled(m, g), k.node) == Pending(m, k.node)
    decreases if g in m.groups then |m.groups[g].queue| else 0
  {
    if g in m.groups && m.groups[g].inFlight < m.groups[g].maxConcurrent && m.groups[g].queue != [] {
      RefillRoundAround(m, g, k);
      RefilledAround(RefillRound(m, g), g, k);
    }
  }

  lemma SlotFreedAround(m: Manager, g: Option<nat>, k: Job)
    ensures Around(m, k) ==> Around(SlotFreed(m, g), k)
    ensures Pending(SlotFreed(m, g), k.node) == Pending(m, k.node)
  {
    if g.Some? {
      var m1 := if g.value in m.groups
                then WithGroup(m, g.value, MinusOne(m.groups[g.value].inFlight), m.groups[g.value].queue) else m;
      assert Around(m, k) ==> Around(m1, k) by { assert GroupOf(m1, k.node) == GroupOf(m, k.node); }
      RefilledAround(m1, g.value, k);
    }
  }

  lemma CancelledAround(m: Manager, n: NodeId, late: bool, k: Job)
    requires n in m.nodes && (m.nodes[n].inFlight.Some? ==> m.nodes[n].inFlight.value.node == n)
    ensures Around(m, k) && k.node != n ==> Around(Cancelled(m, n, late), k)
    ensures Pending(Cancelled(m, n, late), k.node) == Pending(m, k.node)
  {
    assert GroupOf(Cancelled(m, n, late), k.node) == GroupOf(m, k.node);
  }

  lemma CompletedAround(m: Manager, k: Job)
    requires m.inbox != [] && m.inbox[0].node in m.nodes
    ensures Around(m, k) && k != m.inbox[0] ==> Around(Completed(m), k)
    ensures k.node != m.inbox[0].node ==> Pending(Completed(m), k.node) == Pending(m, k.node)
  {
    assert GroupOf(Completed(m), k.node) == GroupOf(m, k.node);
    assert m.inbox == [m.inbox[0]] + m.inbox[1..];
  }

  lemma TriggeredForgetsNobody(m: Manager, n: NodeId, v: Value, p: AsyncPolicy, g: Option<nat>, late: bool)
    requires Good(m, None) && NobodyForgotten(m) && (g.Some? ==> g.value in m.groups)
    ensures NobodyForgotten(Triggered(m, n, v, p, g, late))
  {
    var j, m1, m' := Job(|m.triggered|, n, v), HandedOver(m, n, v, p, g), Triggered(m, n, v, p, g, late);
    HandedOverGood(m, n, v, p, g);
    forall x | x in m'.nodes && m'.nodes[x].pending != [] ensures HasAdvocate(m', x) {
      if x == n && m1.nodes[n].policy.Queue? && m1.nodes[n].inFlight.Some? {
        assert Around(m', m1.nodes[n].inFlight.value);
      } else if x == n {
        TriggeredOthers(m, n, v, p, g, late, j);
        assert OwnPending(n, m1.nodes[n]);
        assert Around(m', j);
      } else {
        TriggeredOthers(m, n, v, p, g, late, Job(0, x, v));
        assert x in m.nodes && HasAdvocate(m, x);
        var k :| Around(m, k) && k.node == x;
        TriggeredOthers(m, n, v, p, g, late, k);
        assert Around(m', k);
      }
    }
  }

  lemma TriggeredOthers(m: Manager, n: NodeId, v: Value, p: AsyncPolicy, g: Option<nat>, late: bool, k: Job)
    requires Good(m, None) && (g.Some? ==> g.value in m.groups)
    ensures k.node != n ==> Pending(Triggered(m, n, v, p, g, late), k.node) == Pending(m, k.node)
    ensures k.node != n && Around(m, k) ==> Around(Triggered(m, n, v, p, g, late), k)
    ensures k == Job(|m.triggered|, n, v) && !(HandedOver(m, n, v, p, g).nodes[n].policy.Queue? &&
                                              HandedOver(m, n, v, p, g).nodes[n].inFlight.Some?) ==>
              Around(Triggered(m, n, v, p, g, late), k)
  {
    var j, m1 := Job(|m.triggered|, n, v), HandedOver(m, n, v, p, g);
    HandedOverGood(m, n, v, p, g);
    assert k.node != n && Around(m, k) ==> Around(m1, k) by {
      assert k.node != n ==> GroupOf(m1, k.node) == GroupOf(m, k.node);
    }
    if m1.nodes[n].policy.Queue? {
      if m1.nodes[n].inFlight.None? {
        OfferedAround(m1, j, k);
      } else {
        assert k.node != n && Around(m1, k) ==> Around(PendingPushed(m1, j), k) by {
          assert GroupOf(PendingPushed(m1, j), k.node) == GroupOf(m1, k.node);
        }
      }
    } else {
      CancelledAround(m1, n, late, k);
      OfferedAround(Cancelled(m1, n, late), j, k);
    }
  }

  lemma ProcessedAround(m: Manager, k: Job)
    requires Good(m, None) && m.inbox != []
    ensures Around(m, k) && k != m.inbox[0] ==> Around(Processed(m), k)
    ensures Popped(m) == Some(k) ==> Around(Processed(m), k)
    ensures k.node != m.inbox[0].node ==> Pending(Processed(m), k.node) == Pending(m, k.node)
    ensures k.node == m.inbox[0].node ==>
              Pending(Processed(m), k.node) ==
              if Popped(m).Some? then Pending(m, k.node)[1..] else Pending(m, k.node)
  {
    var g := m.nodes[m.inbox[0].node].group;
    CompletedAround(m, k);
    SlotFreedAround(Completed(m), g, k);
    if Popped(m).Some? {
      OfferedAround(SlotFreed(Completed(m), g), Popped(m).value, k);
    }
  }

  lemma ProcessedForgetsNobody(m: Manager)
    requires Good(m, None) && NobodyForgotten(m) && m.inbox != []
    ensures NobodyForgotten(Processed(m))
  {
    var j, m' := m.inbox[0], Processed(m);
    forall x | x in m'.nodes && m'.nodes[x].pending != [] ensures HasAdvocate(m', x) {
      ProcessedAround(m, Job(0, x, j.result));
      if x == j.node {
        assert OwnPending(x, m.nodes[x]) && m.nodes[x].pending != [];
        var k := m.nodes[x].pending[0];
        assert k in m.nodes[x].pending;
        ProcessedAround(m, k);
        assert Around(m', k);
      } else {
        assert x in m.nodes && HasAdvocate(m, x);
        var k :| Around(m, k) && k.node == x;
        ProcessedAround(m, k);
        assert Around(m', k);
      }
    }
  }

  lemma QuietStepsForgetNobody(m: Manager, m': Manager)
    requires NobodyForgotten(m) && m'.nodes == m.nodes && Live(m') == Live(m)
    requires forall g :: g in m.groups ==> g in m'.groups && m'.groups[g] == m.groups[g]
    ensures NobodyForgotten(m')
  {
    forall x | x in m'.nodes && m'.nodes[x].pending != [] ensures HasAdvocate(m', x) {
      assert HasAdvocate(m, x);
      var k :| Around(m, k) && k.node == x;
      assert Around(m', k);
    }
  }

  lemma {:induction false} NobodyIsForgotten(states: seq<Manager>, events: seq<Event>, i: nat)
    requires Run(states, events) && i < |states|
    ensures NobodyForgotten(states[i])
  {
    if i > 0 {
      NobodyIsForgotten(states, events, i - 1);
      RunGood(states, events, i - 1);
      var m, ev := states[i - 1], events[i - 1];
      assert Enabled(m, ev);
      match ev
      case Trigger(n, v, p, g, late) => TriggeredForgetsNobody(m, n, v, p, g, late);
      case Process => ProcessedForgetsNobody(m);
      case Send(j) => SentGood(m, j); QuietStepsForgetNobody(m, Sent(m, j));
      case Receive => ReceivedGood(m); QuietStepsForgetNobody(m, Received(m));
      case CreateGroup(max) => GroupCreatedTidy(m, max); QuietStepsForgetNobody(m, GroupCreated(m, max));
    }
  }

  /** No stranded work: in every reachable state a job waiting in a group that allows at least
      one task, with its node or in the group queue, has some started and unprocessed task of
      the same group whose completion will move the queues. It holds for every mix of
      policies. */
  lemma NoStrandedWork(states: seq<Manager>, events: seq<Event>, i: nat, g: nat, n: NodeId)
    requires Run(states, events) && i < |states|
    requires g in states[i].groups && states[i].groups[g].maxConcurrent >= 1
    requires states[i].groups[g].queue != [] ||
             (GroupOf(states[i], n) == Some(g) && Pending(states[i], n) != [])
    ensures exists j :: j in LiveIn(states[i], g)
  {
    var m := states[i];
    WorkIsConserved(states, events, i);
    NeverOvercounts(states, events, i, g);
    NobodyIsForgotten(states, events, i);
    if m.groups[g].queue != [] {
      assert |LiveIn(m, g)| >= 1;
      assert LiveIn(m, g) != {};
    } else {
      assert HasAdvocate(m, n);
      var j :| Around(m, j) && j.node == n;
      assert j in LiveIn(m, g);
    }
  }
}
