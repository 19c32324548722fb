/** Nodes with the `Queue` policy (src/async_compute.rs): exactly when they run one task at a
    time, and in which order they deliver. */
module QueueLaws {
  import opened Nodes
  import opened AsyncJobs
  import opened AsyncLaws
  import opened StartLaws

  // ----- the futures of one node -----

  /** The jobs of one node, in order. */
  function Of(s: seq<Job>, n: NodeId): (r: seq<Job>)
    ensures forall j :: j in r <==> j in s && j.node == n
  {
    if s == [] then [] else
    assert s == s[..|s| - 1] + [s[|s| - 1]];
    var rest := Of(s[..|s| - 1], n);
    if s[|s| - 1].node == n then rest + [s[|s| - 1]] else rest
  }

  lemma OfAppend(s: seq<Job>, j: Job, n: NodeId)
    ensures Of(s + [j], n) == if j.node == n then Of(s, n) + [j] else Of(s, n)
  {
    assert (s + [j])[..|s|] == s;
  }

  lemma {:induction false} OfHead(s: seq<Job>, n: NodeId)
    requires s != []
    ensures Of(s, n) == (if s[0].node == n then [s[0]] else []) + Of(s[1..], n)
  {
    var init, last := s[..|s| - 1], s[|s| - 1];
    if |s| > 1 {
      OfHead(init, n);
      assert init[1..] == s[1..][..|s| - 2] && s[1..][|s| - 2] == last;
      assert s[1..][..|s[1..]| - 1] == init[1..];
    } else {
      assert init == [];
    }
  }

  function Outstanding(m: Manager, n: NodeId): seq<Job> {
    if n in m.nodes && m.nodes[n].inFlight.Some? then [m.nodes[n].inFlight.value] else []
  }

  /** The futures of a node that have left it and are not delivered: the outstanding task, and
      what waits with the group. */
  function Current(m: Manager, n: NodeId): seq<Job> {
    Outstanding(m, n) + Of(Queued(m, GroupOf(m, n)), n)
  }

  function Hand(hand: Option<Job>, n: NodeId): seq<Job> {
    if hand.Some? && hand.value.node == n then [hand.value] else []
  }

  /** A started task of the node is the one it holds the handle of. */
  ghost predicate HoldsHandle(m: Manager, n: NodeId) {
    forall j: Job :: j in Live(m) && j.node == n ==> n in m.nodes && m.nodes[n].inFlight == Some(j)
  }

  /** At most one future of the node has left it; `hand` is on its way. */
  ghost predicate Single(m: Manager, n: NodeId, hand: Option<Job>) {
    |Current(m, n)| + |Hand(hand, n)| <= 1 && HoldsHandle(m, n)
  }

  /** At most one future of the node is started or waits with the group, and a started one is
      the one the node holds the handle of. */
  ghost predicate OneOut(m: Manager, n: NodeId) {
    Single(m, n, None)
  }

  /** The futures of a node in the order in which they are delivered, or will be. */
  function Line(m: Manager, n: NodeId, hand: Option<Job>): seq<Job> {
    Of(m.delivered, n) + (Current(m, n) + Hand(hand, n)) + Pending(m, n)
  }

  ghost predicate QueueNode(m: Manager, n: NodeId) {
    n in m.nodes ==> m.nodes[n].policy.Queue?
  }

  /** The node is idle, but an earlier future of it still waits with its group: the trigger
      does not see it, and sends a second one after it. */
  ghost predicate Overtakes(m: Manager, ev: Event, n: NodeId) {
    ev.Trigger? && ev.node == n && n in m.nodes && m.nodes[n].inFlight.None? &&
    exists j :: j in Queued(m, GroupOf(m, n)) && j.node == n
  }

  // ----- what one operation does to the line -----

  /** The two states differ in nothing that concerns the node, except that a future in hand may
      have taken its place. */
  lemma LineShifts(m: Manager, m': Manager, hand: Option<Job>, hand': Option<Job>, n: NodeId)
    requires Single(m, n, hand) && HoldsHandle(m', n)
    requires m'.delivered == m.delivered && Pending(m', n) == Pending(m, n)
    requires Current(m', n) + Hand(hand', n) == Current(m, n) + Hand(hand, n)
    ensures Single(m', n, hand') && Line(m', n, hand') == Line(m, n, hand)
  {
    assert |Current(m', n) + Hand(hand', n)| == |Current(m, n) + Hand(hand, n)|;
  }

  lemma LineKept(m: Manager, m': Manager, hand: Option<Job>, n: NodeId)
    requires Single(m, n, hand) && HoldsHandle(m', n)
    requires m'.delivered == m.delivered && Pending(m', n) == Pending(m, n)
    requires Current(m', n) == Current(m, n)
    ensures Single(m', n, hand) && Line(m', n, hand) == Line(m, n, hand)
  {
    LineShifts(m, m', hand, hand, n);
  }

  lemma HandleKept(m: Manager, m': Manager, n: NodeId)
    requires HoldsHandle(m, n) && Live(m') <= Live(m)
    requires n in m.nodes ==> n in m'.nodes && m'.nodes[n].inFlight == m.nodes[n].inFlight
    ensures HoldsHandle(m', n)
  {
  }

  lemma StartedHandle(m: Manager, j: Job, n: NodeId)
    requires HoldsHandle(m, n) && j.node in m.nodes && (j.node == n ==> m.nodes[n].inFlight.None?)
    ensures HoldsHandle(Started(m, j), n)
  {
    assert Live(Started(m, j)) == Live(m) + {j};
  }

  lemma StartedInLine(m: Manager, j: Job, n: NodeId)
    requires Single(m, n, Some(j)) && j.node in m.nodes
    ensures OneOut(Started(m, j), n) && Line(Started(m, j), n, None) == Line(m, n, Some(j))
  {
    StartedHandle(m, j, n);
    assert Current(Started(m, j), n) + [] == Current(m, n) + Hand(Some(j), n);
    LineShifts(m, Started(m, j), Some(j), None, n);
  }

  lemma CounterInLine(m: Manager, hand: Option<Job>, g: nat, inFlight: nat, n: NodeId)
    requires g in m.groups && Single(m, n, hand)
    ensures Single(WithGroup(m, g, inFlight, m.groups[g].queue), n, hand)
    ensures Line(WithGroup(m, g, inFlight, m.groups[g].queue), n, hand) == Line(m, n, hand)
  {
    var m' := WithGroup(m, g, inFlight, m.groups[g].queue);
    HandleKept(m, m', n);
    LineKept(m, m', hand, n);
  }

  lemma QueuedCurrent(m: Manager, g: nat, j: Job, n: NodeId)
    requires g in m.groups && GroupOf(m, j.node) == Some(g)
    ensures j.node == n ==> Current(QueuedIn(m, g, j), n) == Current(m, n) + [j]
    ensures j.node != n ==> Current(QueuedIn(m, g, j), n) == Current(m, n)
  {
    var m', q := QueuedIn(m, g, j), m.groups[g].queue;
    OfAppend(q, j, n);
    assert Outstanding(m', n) == Outstanding(m, n) && GroupOf(m', n) == GroupOf(m, n);
    if GroupOf(m, n) == Some(g) {
      assert Queued(m', Some(g)) == q + [j] && Queued(m, Some(g)) == q;
      Associates(Outstanding(m, n), Of(q, n), [j]);
    }
  }

  lemma QueuedInLine(m: Manager, g: nat, j: Job, n: NodeId)
    requires g in m.groups && GroupOf(m, j.node) == Some(g) && Single(m, n, Some(j))
    ensures OneOut(QueuedIn(m, g, j), n) && Line(QueuedIn(m, g, j), n, None) == Line(m, n, Some(j))
  {
    var m' := QueuedIn(m, g, j);
    HandleKept(m, m', n);
    QueuedCurrent(m, g, j, n);
    assert Current(m', n) + [] == Current(m, n) + Hand(Some(j), n);
    LineShifts(m, m', Some(j), None, n);
  }

  lemma StartedInInLine(m: Manager, g: nat, j: Job, n: NodeId)
    requires g in m.groups && j.node in m.nodes && Single(m, n, Some(j))
    ensures OneOut(StartedIn(m, g, j), n) && Line(StartedIn(m, g, j), n, None) == Line(m, n, Some(j))
  {
    CounterInLine(m, Some(j), g, m.groups[g].inFlight + 1, n);
    StartedInLine(WithGroup(m, g, m.groups[g].inFlight + 1, m.groups[g].queue), j, n);
  }

  lemma OfferedInLine(m: Manager, j: Job, n: NodeId)
    requires j.node in m.nodes && Single(m, n, Some(j))
    ensures OneOut(Offered(m, j), n) && Line(Offered(m, j), n, None) == Line(m, n, Some(j))
  {
    var g := GroupOf(m, j.node);
    if g.None? || g.value !in m.groups {
      StartedInLine(m, j, n);
    } else if m.groups[g.value].inFlight >= m.groups[g.value].maxConcurrent {
      QueuedInLine(m, g.value, j, n);
    } else {
      StartedInInLine(m, g.value, j, n);
    }
  }

  /** A refill takes the first job of a queue, which stays the node's only future ahead. */
  lemma RefillKeepsCurrent(m: Manager, g: nat, n: NodeId)
    requires g in m.groups && m.groups[g].queue != [] && |Current(m, n)| <= 1
    requires GroupOf(m, m.groups[g].queue[0].node) == Some(g)
    ensures Current(RefillRound(m, g), n) == Current(m, n)
    ensures m.groups[g].queue[0].node == n ==> m.nodes[n].inFlight.None?
  {
    var q := m.groups[g].queue;
    OfHead(q, n);
    if q[0].node == n {
      assert Of(q, n)[0] == q[0];
      assert Outstanding(m, n) == [] && Of(q[1..], n) == [];
      assert Current(RefillRound(m, g), n) == [q[0]] == Current(m, n);
    }
  }

  lemma RefillRoundInLine(m: Manager, hand: Option<Job>, g: nat, n: NodeId)
    requires g in m.groups && m.groups[g].queue != [] && Single(m, n, hand)
    requires GroupOf(m, m.groups[g].queue[0].node) == Some(g)
    ensures Single(RefillRound(m, g), n, hand) && Line(RefillRound(m, g), n, hand) == Line(m, n, hand)
  {
    var s := m.groups[g];
    var m1 := WithGroup(m, g, s.inFlight + 1, s.queue[1..]);
    RefillKeepsCurrent(m, g, n);
    HandleKept(m, m1, n);
    StartedHandle(m1, s.queue[0], n);
    LineKept(m, RefillRound(m, g), hand, n);
  }

  lemma {:induction false} RefilledInLine(m: Manager, hand: Option<Job>, g: nat, n: NodeId)
    requires Good(m, hand) && Single(m, n, hand)
    ensures Single(Refilled(m, g), n, hand) && Line(Refilled(m, g), n, hand) == Line(m, n, hand)
    decreases if g in m.groups then |m.groups[g].queue| else 0
  {
    if g in m.groups && m.groups[g].inFlight < m.groups[g].maxConcurrent && m.groups[g].queue != [] {
      RefillRoundGood(m, hand, g);
      RefillRoundInLine(m, hand, g, n);
      RefilledInLine(RefillRound(m, g), hand, g, n);
    }
  }

  lemma SlotFreedInLine(m: Manager, hand: Option<Job>, g: Option<nat>, n: NodeId)
    requires Good(m, hand) && Single(m, n, hand)
    ensures Single(SlotFreed(m, g), n, hand) && Line(SlotFreed(m, g), n, hand) == Line(m, n, hand)
  {
    if g.Some? {
      if g.value in m.groups {
        CounterGood(m, hand, g.value, MinusOne(m.groups[g.value].inFlight));
        CounterInLine(m, hand, g.value, MinusOne(m.groups[g.value].inFlight), n);
        RefilledInLine(WithGroup(m, g.value, MinusOne(m.groups[g.value].inFlight), m.groups[g.value].queue),
                       hand, g.value, n);
      } else {
        RefilledInLine(m, hand, g.value, n);
      }
    }
  }

  lemma CancelledInLine(m: Manager, hand: Option<Job>, k: NodeId, late: bool, n: NodeId)
    requires k in m.nodes && Single(m, n, hand) && (k == n ==> m.nodes[k].inFlight.None?)
    ensures Single(Cancelled(m, k, late), n, hand) && Line(Cancelled(m, k, late), n, hand) == Line(m, n, hand)
  {
    if m.nodes[k].inFlight.Some? {
      HandleKept(m, Cancelled(m, k, late), n);
      LineKept(m, Cancelled(m, k, late), hand, n);
    }
  }

  lemma CompletedInLine(m: Manager, n: NodeId)
    requires m.inbox != [] && m.inbox[0].node in m.nodes && OneOut(m, n)
    requires OwnPending(m.inbox[0].node, m.nodes[m.inbox[0].node]) && Live(Completed(m)) == Live(m) - {m.inbox[0]}
    ensures Single(Completed(m), n, Popped(m)) && Line(Completed(m), n, Popped(m)) == Line(m, n, None)
  {
    assert m.inbox[0] in Live(m);
    assert Popped(m).Some? ==> Popped(m).value in m.nodes[m.inbox[0].node].pending;
    if m.inbox[0].node == n {
      CompletedOwn(m, n);
    } else {
      CompletedElsewhere(m, n);
    }
  }

  lemma CompletedElsewhere(m: Manager, n: NodeId)
    requires m.inbox != [] && m.inbox[0].node in m.nodes && m.inbox[0].node != n && OneOut(m, n)
    requires Live(Completed(m)) <= Live(m) && (Popped(m).Some? ==> Popped(m).value.node != n)
    ensures Single(Completed(m), n, Popped(m)) && Line(Completed(m), n, Popped(m)) == Line(m, n, None)
  {
    OfAppend(m.delivered, m.inbox[0], n);
    HandleKept(m, Completed(m), n);
    assert Current(Completed(m), n) == Current(m, n);
  }

  lemma CompletedOwn(m: Manager, n: NodeId)
    requires m.inbox != [] && m.inbox[0].node == n && n in m.nodes && OneOut(m, n)
    requires m.inbox[0] in Live(m) && Live(Completed(m)) == Live(m) - {m.inbox[0]}
    requires Popped(m).Some? ==> Popped(m).value.node == n
    ensures Single(Completed(m), n, Popped(m)) && Line(Completed(m), n, Popped(m)) == Line(m, n, None)
  {
    var j, m' := m.inbox[0], Completed(m);
    CompletedCurrent(m, n);
    CompletedPending(m, n);
    OfAppend(m.delivered, j, n);
    assert HoldsHandle(m', n);
    Delivered(Of(m.delivered, n), j, Hand(Popped(m), n), Pending(m', n));
  }

  lemma Delivered(before: seq<Job>, j: Job, next: seq<Job>, rest: seq<Job>)
    ensures before + ([j] + []) + (next + rest) == (before + [j]) + ([] + next) + rest
  {
  }

  lemma CompletedCurrent(m: Manager, n: NodeId)
    requires m.inbox != [] && m.inbox[0].node == n && n in m.nodes && OneOut(m, n)
    requires m.inbox[0] in Live(m)
    ensures Current(m, n) == [m.inbox[0]] && Current(Completed(m), n) == []
  {
    assert Outstanding(m, n) == [m.inbox[0]];
    assert |Of(Queued(m, GroupOf(m, n)), n)| == 0;
    assert Queued(Completed(m), GroupOf(Completed(m), n)) == Queued(m, GroupOf(m, n));
  }

  lemma CompletedPending(m: Manager, n: NodeId)
    requires m.inbox != [] && m.inbox[0].node == n && n in m.nodes && (Popped(m).Some? ==> Popped(m).value.node == n)
    ensures Pending(m, n) == Hand(Popped(m), n) + Pending(Completed(m), n)
  {
  }

  lemma HandStaysKnown(m: Manager, hand: Option<Job>, g: Option<nat>)
    requires Good(m, hand) && hand.Some?
    ensures hand.value.node in SlotFreed(m, g).nodes
  {
    SlotFreedGood(m, hand, g);
  }

  /** What follows a completion: the slot goes to the group queue first, then to the node. */
  lemma HandedOnInLine(m: Manager, hand: Option<Job>, g: Option<nat>, n: NodeId)
    requires Good(m, hand) && Single(m, n, hand)
    ensures
      var m1 := SlotFreed(m, g);
      var m' := if hand.Some? then Offered(m1, hand.value) else m1;
      OneOut(m', n) && Line(m', n, None) == Line(m, n, hand) && m'.triggered == m.triggered
  {
    SlotFreedInLine(m, hand, g, n);
    SlotFreedTriggered(m, g);
    if hand.Some? {
      HandStaysKnown(m, hand, g);
      OfferedHistory(SlotFreed(m, g), hand.value);
      OfferedInLine(SlotFreed(m, g), hand.value, n);
    }
  }

  lemma ProcessedInLine(m: Manager, n: NodeId)
    requires Good(m, None) && m.inbox != [] && OneOut(m, n)
    ensures OneOut(Processed(m), n) && Line(Processed(m), n, None) == Line(m, n, None)
    ensures Processed(m).triggered == m.triggered
  {
    var j := m.inbox[0];
    assert j in Live(m);
    CompletedGood(m);
    CompletedInLine(m, n);
    HandedOnInLine(Completed(m), Popped(m), m.nodes[j.node].group, n);
  }

  lemma {:induction false} RefilledTriggered(m: Manager, g: nat)
    ensures Refilled(m, g).triggered == m.triggered
    decreases if g in m.groups then |m.groups[g].queue| else 0
  {
    if g in m.groups && m.groups[g].inFlight < m.groups[g].maxConcurrent && m.groups[g].queue != [] {
      RefilledTriggered(RefillRound(m, g), g);
    }
  }

  lemma SlotFreedTriggered(m: Manager, g: Option<nat>)
    ensures SlotFreed(m, g).triggered == m.triggered
  {
    if g.Some? {
      RefilledTriggered(if g.value in m.groups
                        then WithGroup(m, g.value, MinusOne(m.groups[g.value].inFlight), m.groups[g.value].queue)
                        else m, g.value);
    }
  }

  /** A node nobody has triggered yet has nothing anywhere. */
  lemma NothingYet(m: Manager, g: Option<nat>, n: NodeId)
    requires Tidy(m) && n !in m.nodes
    ensures Of(Queued(m, g), n) == []
  {
    if g.Some? && g.value in m.groups {
      assert OwnQueue(m, g.value, m.groups[g.value].queue);
      NothingOf(Queued(m, g), n);
    }
  }

  lemma HandedOverInLine(m: Manager, k: NodeId, v: Value, p: AsyncPolicy, g: Option<nat>, n: NodeId)
    requires Good(m, None) && (g.Some? ==> g.value in m.groups) && OneOut(m, n)
    ensures
      var m1 := HandedOver(m, k, v, p, g);
      OneOut(m1, n) && Line(m1, n, None) == Line(m, n, None) && Current(m1, n) == Current(m, n)
  {
    var m1 := HandedOver(m, k, v, p, g);
    HandedOverTidy(m, k, v, p, g);
    if n !in m.nodes {
      NothingYet(m, g, n);
      NothingYet(m, None, n);
    }
    assert Current(m1, n) == Current(m, n);
    LineKept(m, m1, None, n);
  }

  lemma PendingPushedInLine(m: Manager, j: Job, n: NodeId)
    requires j.node in m.nodes && OneOut(m, n)
    ensures OneOut(PendingPushed(m, j), n)
    ensures Line(PendingPushed(m, j), n, None) == Line(m, n, None) + Hand(Some(j), n)
  {
    var m' := PendingPushed(m, j);
    assert Live(m') == Live(m);
    assert Current(m', n) == Current(m, n);
  }

  /** A future for an idle node starts or waits with the group. */
  lemma OfferedAfterCancelInLine(m: Manager, j: Job, late: bool, n: NodeId)
    requires j.node in m.nodes && OneOut(m, n)
    requires j.node == n ==> Current(m, n) == []
    ensures
      var m' := if m.nodes[j.node].policy.Queue? then Offered(m, j) else Offered(Cancelled(m, j.node, late), j);
      OneOut(m', n) && Line(m', n, None) == Line(m, n, Some(j))
  {
    assert Single(m, n, Some(j));
    if m.nodes[j.node].policy.Queue? {
      OfferedInLine(m, j, n);
    } else {
      CancelledInLine(m, Some(j), j.node, late, n);
      OfferedInLine(Cancelled(m, j.node, late), j, n);
    }
  }

  /** A trigger that overtakes nothing leaves at most one future out. If nothing waits
      with an idle node, the new future joins the end of its line. */
  lemma TriggeredInLine(m: Manager, ev: Event, n: NodeId)
    requires Good(m, None) && Enabled(m, ev) && ev.Trigger? && QueueNode(m, n) && OneOut(m, n)
    requires !Overtakes(m, ev, n)
    ensures OneOut(Next(m, ev), n)
    ensures (Current(m, n) == [] ==> Pending(m, n) == []) ==>
              Line(Next(m, ev), n, None) == Line(m, n, None) + Hand(Some(Job(|m.triggered|, ev.node, ev.result)), n)
  {
    var k, j := ev.node, Job(|m.triggered|, ev.node, ev.result);
    var m1 := HandedOver(m, k, ev.result, ev.policy, ev.group);
    HandedOverInLine(m, k, ev.result, ev.policy, ev.group, n);
    if m1.nodes[k].policy.Queue? && m1.nodes[k].inFlight.Some? {
      PendingPushedInLine(m1, j, n);
    } else {
      IdleHasNothingAhead(m, ev, n);
      OfferedAfterCancelInLine(m1, j, ev.late, n);
      NewJoinsTheEnd(m1, j, n);
    }
  }

  lemma NewJoinsTheEnd(m: Manager, j: Job, n: NodeId)
    ensures Pending(m, n) == [] || j.node != n ==> Line(m, n, Some(j)) == Line(m, n, None) + Hand(Some(j), n)
  {
    var before, current, hand := Of(m.delivered, n), Current(m, n), Hand(Some(j), n);
    if j.node != n {
      assert hand == [] && Line(m, n, None) + [] == Line(m, n, None);
    } else if Pending(m, n) == [] {
      assert before + (current + hand) + [] == before + (current + []) + [] + hand;
    }
  }

  lemma IdleHasNothingAhead(m: Manager, ev: Event, n: NodeId)
    requires Tidy(m) && ev.Trigger? && !Overtakes(m, ev, n)
    requires ev.node in m.nodes ==> ev.node != n || m.nodes[n].inFlight.None?
    ensures ev.node == n ==> Current(m, n) == []
  {
    if n !in m.nodes {
      NothingYet(m, None, n);
    } else if ev.node == n {
      NothingOf(Queued(m, GroupOf(m, n)), n);
    }
  }

  lemma NothingOf(s: seq<Job>, n: NodeId)
    requires forall j :: j in s ==> j.node != n
    ensures Of(s, n) == []
  {
    if Of(s, n) != [] {
      assert Of(s, n)[0] in Of(s, n);
      assert false;
    }
  }

  /** A trigger that overtakes leaves two futures of the node ahead of it. */
  lemma OvertakingBreaks(m: Manager, ev: Event, n: NodeId)
    requires Good(m, None) && Enabled(m, ev) && QueueNode(m, n) && Overtakes(m, ev, n)
    ensures !OneOut(Next(m, ev), n)
  {
    var j := Job(|m.triggered|, n, ev.result);
    var m1, m' := HandedOver(m, n, ev.result, ev.policy, ev.group), Next(m, ev);
    HandedOverGood(m, n, ev.result, ev.policy, ev.group);
    InOnePlace(m1, Some(j), j);
    var k :| k in Queued(m, GroupOf(m, n)) && k.node == n;
    assert k in Of(Queued(m1, GroupOf(m1, n)), n);
    assert k in multiset(Queued(m1, GroupOf(m1, k.node)));
    assert j !in multiset(Queued(m1, GroupOf(m1, n)));
    assert k != j && m' == Offered(m1, j);
    TwoAhead(m1, j, k, n);
  }

  lemma TwoAhead(m: Manager, j: Job, k: Job, n: NodeId)
    requires j.node == n && k in Of(Queued(m, GroupOf(m, n)), n) && j != k
    ensures |Current(Offered(m, j), n)| > 1
  {
    var m', g := Offered(m, j), GroupOf(m, n);
    OfAppend(Queued(m, g), j, n);
    if m.groups[g.value].inFlight >= m.groups[g.value].maxConcurrent {
      assert Of(Queued(m', g), n) == Of(Queued(m, g), n) + [j];
    }
  }

  lemma QuietStepInLine(m: Manager, m': Manager, n: NodeId)
    requires OneOut(m, n) && m'.nodes == m.nodes && m'.delivered == m.delivered && Live(m') == Live(m)
    requires Queued(m', GroupOf(m, n)) == Queued(m, GroupOf(m, n))
    ensures OneOut(m', n) && Line(m', n, None) == Line(m, n, None)
  {
    LineKept(m, m', None, n);
  }

  lemma OtherStepInLine(m: Manager, ev: Event, n: NodeId)
    requires Good(m, None) && Enabled(m, ev) && !ev.Trigger? && OneOut(m, n)
    ensures OneOut(Next(m, ev), n) && Line(Next(m, ev), n, None) == Line(m, n, None)
    ensures Next(m, ev).triggered == m.triggered
  {
    match ev
    case Process => ProcessedInLine(m, n);
    case Send(j) => SentGood(m, j); QuietStepInLine(m, Sent(m, j), n);
    case Receive => ReceivedGood(m); QuietStepInLine(m, Received(m), n);
    case CreateGroup(max) => GroupCreatedTidy(m, max); QuietStepInLine(m, GroupCreated(m, max), n);
  }

  // ----- one future out at a time -----

  /** One step: a Queue node keeps at most one future started or waiting with the group if and
      only if the step is not a trigger that overtakes. */
  lemma StepKeepsOneOutIff(m: Manager, ev: Event, n: NodeId)
    requires Good(m, None) && Enabled(m, ev) && QueueNode(m, n) && OneOut(m, n)
    ensures OneOut(Next(m, ev), n) <==> !Overtakes(m, ev, n)
  {
    if Overtakes(m, ev, n) {
      OvertakingBreaks(m, ev, n);
    } else if ev.Trigger? {
      TriggeredInLine(m, ev, n);
    } else {
      OtherStepInLine(m, ev, n);
    }
  }

  ghost predicate NeverOvertaken(states: seq<Manager>, events: seq<Event>, i: nat, n: NodeId)
    requires Run(states, events) && i < |states|
  {
    forall k :: 0 <= k < i ==> !Overtakes(states[k], events[k], n)
  }

  lemma {:induction false} OneOutUntil(states: seq<Manager>, events: seq<Event>, i: nat, n: NodeId)
    requires Run(states, events) && i < |states| && QueueNode(states[i], n) && NeverOvertaken(states, events, i, n)
    ensures OneOut(states[i], n)
  {
    if i == 0 {
      InitiallyGood();
    } else {
      RolesAreFixed(states, events, i - 1, i, n);
      OneOutUntil(states, events, i - 1, n);
      RunGood(states, events, i - 1);
      assert Enabled(states[i - 1], events[i - 1]);
      StepKeepsOneOutIff(states[i - 1], events[i - 1], n);
    }
  }

  /** Over a run: a Queue node, in a group or not, has had at most one future started or waiting
      with the group all along if and only if no trigger of it has overtaken. */
  lemma OneOutIffNeverOvertaken(states: seq<Manager>, events: seq<Event>, i: nat, n: NodeId)
    requires Run(states, events) && i < |states| && QueueNode(states[i], n)
    ensures (forall k :: 0 <= k <= i ==> OneOut(states[k], n)) <==> NeverOvertaken(states, events, i, n)
  {
    forall k | 0 <= k <= i ensures QueueNode(states[k], n) {
      RolesAreFixed(states, events, k, i, n);
    }
    if NeverOvertaken(states, events, i, n) {
      forall k | 0 <= k <= i ensures OneOut(states[k], n) {
        OneOutUntil(states, events, k, n);
      }
    } else {
      var k :| 0 <= k < i && Overtakes(states[k], events[k], n);
      RunGood(states, events, k);
      assert Enabled(states[k], events[k]) && states[k + 1] == Next(states[k], events[k]);
      OvertakingBreaks(states[k], events[k], n);
    }
  }

  // ----- one task at a time -----

  ghost predicate OneRunning(m: Manager, n: NodeId) {
    forall j: Job, k: Job :: j in m.running && k in m.running && j.node == n && k.node == n ==> j == k
  }

  /** The step starts a task of the node while another one runs. */
  ghost predicate RunsAnother(m: Manager, ev: Event, n: NodeId)
    requires Enabled(m, ev)
  {
    StartedBy(m, ev).Some? && StartedBy(m, ev).value.node == n && exists j: Job :: j in m.running && j.node == n
  }

  lemma QueueTasksRunOn(m: Manager, ev: Event, n: NodeId, j: Job)
    requires Tidy(m) && Enabled(m, ev) && QueueNode(m, n) && ev.Trigger? && j in m.running && j.node == n
    ensures j !in EndedBy(m, ev)
  {
    assert j in Live(m);
  }

  /** One step: a Queue node keeps running at most one task if and only if the step does not
      start another. */
  lemma StepKeepsOneRunningIff(m: Manager, ev: Event, n: NodeId)
    requires Good(m, None) && WorkConserving(m) && Enabled(m, ev) && QueueNode(m, n) && OneRunning(m, n)
    ensures OneRunning(Next(m, ev), n) <==> !RunsAnother(m, ev, n)
  {
    if RunsAnother(m, ev, n) {
      TwoRun(m, ev, n);
    } else {
      StepStarts(m, ev);
    }
  }

  lemma TwoRun(m: Manager, ev: Event, n: NodeId)
    requires Good(m, None) && WorkConserving(m) && Enabled(m, ev) && QueueNode(m, n) && RunsAnother(m, ev, n)
    ensures !OneRunning(Next(m, ev), n)
  {
    var j: Job :| j in m.running && j.node == n;
    StepStarts(m, ev);
    StartedIsNew(m, ev);
    assert j in Live(m);
    if ev.Trigger? {
      QueueTasksRunOn(m, ev, n, j);
    }
    assert j in Next(m, ev).running && StartedBy(m, ev).value in Next(m, ev).running;
  }

  ghost predicate NeverRunsAnother(states: seq<Manager>, events: seq<Event>, i: nat, n: NodeId)
    requires Run(states, events) && i < |states|
  {
    forall k :: 0 <= k < i ==> !RunsAnother(states[k], events[k], n)
  }

  lemma RunKeepsOneRunningIff(states: seq<Manager>, events: seq<Event>, k: nat, n: NodeId)
    requires Run(states, events) && k < |events| && QueueNode(states[k], n) && OneRunning(states[k], n)
    ensures OneRunning(states[k + 1], n) <==> !RunsAnother(states[k], events[k], n)
  {
    RunGood(states, events, k);
    WorkIsConserved(states, events, k);
    assert Enabled(states[k], events[k]) && states[k + 1] == Next(states[k], events[k]);
    StepKeepsOneRunningIff(states[k], events[k], n);
  }

  lemma {:induction false} OneRunningUntil(states: seq<Manager>, events: seq<Event>, i: nat, n: NodeId)
    requires Run(states, events) && i < |states| && QueueNode(states[i], n) && NeverRunsAnother(states, events, i, n)
    ensures OneRunning(states[i], n)
  {
    if i > 0 {
      RolesAreFixed(states, events, i - 1, i, n);
      OneRunningUntil(states, events, i - 1, n);
      RunKeepsOneRunningIff(states, events, i - 1, n);
    }
  }

  /** Over a run: a Queue node, in a group or not, has run one task at a time all along if and
      only if no step started another while one was running. */
  lemma SequentialIff(states: seq<Manager>, events: seq<Event>, i: nat, n: NodeId)
    requires Run(states, events) && i < |states| && QueueNode(states[i], n)
    ensures (forall k :: 0 <= k <= i ==> OneRunning(states[k], n)) <==> NeverRunsAnother(states, events, i, n)
  {
    forall k | 0 <= k <= i ensures QueueNode(states[k], n) {
      RolesAreFixed(states, events, k, i, n);
    }
    if NeverRunsAnother(states, events, i, n) {
      forall k | 0 <= k <= i ensures OneRunning(states[k], n) {
        OneRunningUntil(states, events, k, n);
      }
    } else {
      var k :| 0 <= k < i && RunsAnother(states[k], events[k], n);
      if OneRunning(states[k], n) {
        RunKeepsOneRunningIff(states, events, k, n);
        assert !OneRunning(states[k + 1], n);
      }
    }
  }

  /** Another node of the group completes while a task of this node is started and unprocessed,
      and the first job queued with the group is this node's. */
  ghost predicate Doubles(m: Manager, ev: Event, n: NodeId)
    requires Enabled(m, ev)
  {
    && ev.Process? && m.inbox[0].node != n && m.inbox[0].node in m.nodes
    && var g := m.nodes[m.inbox[0].node].group;
    && QueueWaits(m, g) && m.groups[g.value].maxConcurrent > 0 && m.groups[g.value].queue[0].node == n
    && exists j: Job :: j in Live(m) && j.node == n
  }

  lemma StartsOnlyByDoubling(m: Manager, ev: Event, n: NodeId)
    requires Tidy(m) && Enabled(m, ev) && QueueNode(m, n) && HoldsHandle(m, n)
    requires StartedBy(m, ev).Some? && StartedBy(m, ev).value.node == n
    requires exists j: Job :: j in Live(m) && j.node == n && !(ev.Process? && m.inbox[0] == j)
    ensures Doubles(m, ev, n)
  {
    var j: Job :| j in Live(m) && j.node == n && !(ev.Process? && m.inbox[0] == j);
    if ev.Process? {
      assert m.inbox[0] in Live(m);
    }
  }

  lemma LiveNext(m: Manager, ev: Event)
    requires Good(m, None) && WorkConserving(m) && Enabled(m, ev)
    ensures Live(Next(m, ev)) <= Live(m) + Just(StartedBy(m, ev))
    ensures forall j :: j in Live(m) && !(ev.Process? && m.inbox[0] == j) && !(ev.Trigger? && j in EndedBy(m, ev)) ==>
              j in Live(Next(m, ev))
    ensures ev.Process? ==> m.inbox[0] !in Live(Next(m, ev))
    ensures StartedBy(m, ev).Some? ==> StartedBy(m, ev).value in Live(Next(m, ev))
  {
    StepStarts(m, ev);
    match ev
    case Process => LiveAfterProcess(m);
    case Receive => assert m.channel == [m.channel[0]] + m.channel[1..];
    case _ =>
  }

  lemma LiveAfterProcess(m: Manager)
    requires Good(m, None) && WorkConserving(m) && m.inbox != []
    ensures Live(Next(m, Process)) == (Live(m) - {m.inbox[0]}) + Just(StartedBy(m, Process))
    ensures m.inbox[0] !in Just(StartedBy(m, Process))
  {
    StepStarts(m, Process);
    ReceivedJobIsUnique(m);
    FirstReceivedIsOld(m);
    LiveMoves(m, Next(m, Process), StartedBy(m, Process));
  }

  lemma FirstReceivedIsOld(m: Manager)
    requires Good(m, None) && m.inbox != []
    ensures m.inbox[0] !in Just(StartedBy(m, Process))
  {
    assert m.inbox[0] in Live(m);
    if StartedBy(m, Process).Some? {
      StartedIsNew(m, Process);
    }
  }

  lemma LiveMoves(m: Manager, m': Manager, started: Option<Job>)
    requires m.inbox != [] && m.inbox[0] !in Just(started)
    requires m'.running == (m.running - {}) + Just(started) && m'.channel == m.channel && m'.inbox == m.inbox[1..]
    requires m.inbox[0] !in m.running && m.inbox[0] !in m.channel && m.inbox[0] !in m.inbox[1..]
    ensures Live(m') == (Live(m) - {m.inbox[0]}) + Just(started)
  {
    assert m.inbox == [m.inbox[0]] + m.inbox[1..];
  }

  /** One step: a Queue node keeps holding the handle of every started and unprocessed task of its
      own, which there can then be only one of, if and only if the step does not double. In
      particular no trigger ever starts a second task. */
  lemma StepKeepsHandleIff(m: Manager, ev: Event, n: NodeId)
    requires Good(m, None) && WorkConserving(m) && Enabled(m, ev) && QueueNode(m, n) && HoldsHandle(m, n)
    ensures HoldsHandle(Next(m, ev), n) <==> !Doubles(m, ev, n)
  {
    var m' := Next(m, ev);
    StepStarts(m, ev);
    LiveNext(m, ev);
    if Doubles(m, ev, n) {
      DoublingBreaks(m, ev, n);
    } else if StartedBy(m, ev).Some? && StartedBy(m, ev).value.node == n {
      NewTaskIsHeld(m, ev, n);
    } else {
      OldTaskIsHeld(m, ev, n);
    }
  }

  lemma DoublingBreaks(m: Manager, ev: Event, n: NodeId)
    requires Good(m, None) && WorkConserving(m) && Enabled(m, ev) && Doubles(m, ev, n)
    ensures exists j: Job, k: Job ::
              j in Live(Next(m, ev)) && k in Live(Next(m, ev)) && j.node == n && k.node == n && j != k
  {
    LiveNext(m, ev);
    StartedIsNew(m, ev);
    var j: Job :| j in Live(m) && j.node == n;
    assert j in Live(Next(m, ev)) && StartedBy(m, ev).value in Live(Next(m, ev));
  }

  lemma NewTaskIsHeld(m: Manager, ev: Event, n: NodeId)
    requires Good(m, None) && WorkConserving(m) && Enabled(m, ev) && QueueNode(m, n) && HoldsHandle(m, n)
    requires !Doubles(m, ev, n) && StartedBy(m, ev).Some? && StartedBy(m, ev).value.node == n
    ensures HoldsHandle(Next(m, ev), n)
  {
    LiveNext(m, ev);
    StartedHandleHeld(m, ev, n);
    forall j: Job | j in Live(Next(m, ev)) && j.node == n ensures j == StartedBy(m, ev).value {
      if j != StartedBy(m, ev).value {
        StartsOnlyByDoubling(m, ev, n);
        assert false;
      }
    }
  }

  lemma StartedHandleHeld(m: Manager, ev: Event, n: NodeId)
    requires Good(m, None) && WorkConserving(m) && Enabled(m, ev) && QueueNode(m, n)
    requires StartedBy(m, ev).Some? && StartedBy(m, ev).value.node == n
    ensures n in Next(m, ev).nodes && Next(m, ev).nodes[n].inFlight == StartedBy(m, ev)
  {
    StepStarts(m, ev);
  }

  lemma OldTaskIsHeld(m: Manager, ev: Event, n: NodeId)
    requires Good(m, None) && WorkConserving(m) && Enabled(m, ev) && QueueNode(m, n) && HoldsHandle(m, n)
    requires StartedBy(m, ev).None? || StartedBy(m, ev).value.node != n
    ensures HoldsHandle(Next(m, ev), n)
  {
    StepStarts(m, ev);
    LiveNext(m, ev);
    forall j: Job | j in Live(Next(m, ev)) && j.node == n
      ensures n in Next(m, ev).nodes && Next(m, ev).nodes[n].inFlight == Some(j)
    {
      assert j in Live(m);
      assert ev.Process? ==> m.inbox[0] in Live(m);
    }
  }

  /** At most one future of the node is started and unprocessed. */
  ghost predicate OneStarted(m: Manager, n: NodeId) {
    forall j: Job, k: Job :: j in Live(m) && k in Live(m) && j.node == n && k.node == n ==> j == k
  }

  ghost predicate NeverDoubled(states: seq<Manager>, events: seq<Event>, i: nat, n: NodeId)
    requires Run(states, events) && i < |states|
  {
    forall k :: 0 <= k < i ==> !Doubles(states[k], events[k], n)
  }

  lemma {:induction false} HandleUntilDoubled(states: seq<Manager>, events: seq<Event>, i: nat, n: NodeId)
    requires Run(states, events) && i < |states| && QueueNode(states[i], n) && NeverDoubled(states, events, i, n)
    ensures HoldsHandle(states[i], n)
  {
    if i == 0 {
      InitiallyGood();
    } else {
      RolesAreFixed(states, events, i - 1, i, n);
      HandleUntilDoubled(states, events, i - 1, n);
      RunGood(states, events, i - 1);
      WorkIsConserved(states, events, i - 1);
      assert Enabled(states[i - 1], events[i - 1]) && states[i] == Next(states[i - 1], events[i - 1]);
      StepKeepsHandleIff(states[i - 1], events[i - 1], n);
    }
  }

  /** Over a run: at most one future of a Queue node has been started and unprocessed all along if
      and only if no completion of another node doubled it. */
  lemma OneStartedIffNeverDoubled(states: seq<Manager>, events: seq<Event>, i: nat, n: NodeId)
    requires Run(states, events) && i < |states| && QueueNode(states[i], n)
    ensures (forall k :: 0 <= k <= i ==> OneStarted(states[k], n)) <==> NeverDoubled(states, events, i, n)
  {
    if NeverDoubled(states, events, i, n) {
      forall k | 0 <= k <= i ensures OneStarted(states[k], n) {
        RolesAreFixed(states, events, k, i, n);
        HandleUntilDoubled(states, events, k, n);
      }
    } else {
      var k :| 0 <= k < i && Doubles(states[k], events[k], n);
      RunGood(states, events, k);
      WorkIsConserved(states, events, k);
      assert Enabled(states[k], events[k]) && states[k + 1] == Next(states[k], events[k]);
      DoublingBreaks(states[k], events[k], n);
    }
  }

  // ----- first in, first out -----

  /** What the node was triggered with is what it delivered, then at most one future that has
      left it, then the waiting ones, in order. */
  ghost predicate InOrder(m: Manager, n: NodeId) {
    OneOut(m, n) && Of(m.triggered, n) == Of(m.delivered, n) + Current(m, n) + Pending(m, n)
  }

  /** Nothing waits with a node none of whose futures has left it. */
  lemma WaitingHasSomeoneAhead(m: Manager, n: NodeId)
    requires NobodyForgotten(m) && Pending(m, n) != [] && HoldsHandle(m, n)
    ensures Current(m, n) != []
  {
    assert HasAdvocate(m, n);
    var j :| Around(m, j) && j.node == n;
    assert j in Queued(m, GroupOf(m, n)) ==> j in Of(Queued(m, GroupOf(m, n)), n);
  }

  /** First in, first out: a Queue node, in a group or not, delivers in the order in which it
      was triggered as long as no trigger of it has overtaken. */
  lemma {:induction false} QueueIsFifo(states: seq<Manager>, events: seq<Event>, i: nat, n: NodeId)
    requires Run(states, events) && i < |states| && QueueNode(states[i], n) && NeverOvertaken(states, events, i, n)
    ensures InOrder(states[i], n)
  {
    if i == 0 {
      InitiallyGood();
    } else {
      var m, ev := states[i - 1], events[i - 1];
      RolesAreFixed(states, events, i - 1, i, n);
      QueueIsFifo(states, events, i - 1, n);
      RunGood(states, events, i - 1);
      NobodyIsForgotten(states, events, i - 1);
      assert Enabled(m, ev);
      StepInOrder(m, ev, n);
    }
  }

  lemma StepInOrder(m: Manager, ev: Event, n: NodeId)
    requires Good(m, None) && NobodyForgotten(m) && Enabled(m, ev) && QueueNode(m, n) && InOrder(m, n)
    requires !Overtakes(m, ev, n)
    ensures InOrder(Next(m, ev), n)
  {
    if ev.Trigger? {
      if Pending(m, n) != [] {
        WaitingHasSomeoneAhead(m, n);
      }
      TriggeredInLine(m, ev, n);
      TriggeredHistory(m, ev);
      OfAppend(m.triggered, Job(|m.triggered|, ev.node, ev.result), n);
      LineIsOrder(m, n);
    } else {
      OtherStepInLine(m, ev, n);
      LineIsOrder(m, n);
    }
    LineIsOrder(Next(m, ev), n);
  }

  lemma LineIsOrder(m: Manager, n: NodeId)
    ensures Line(m, n, None) == Of(m.delivered, n) + Current(m, n) + Pending(m, n)
  {
  }

  lemma TriggeredHistory(m: Manager, ev: Event)
    requires ev.Trigger? && Enabled(m, ev)
    ensures Next(m, ev).triggered == m.triggered + [Job(|m.triggered|, ev.node, ev.result)]
  {
    var j, m1 := Job(|m.triggered|, ev.node, ev.result), HandedOver(m, ev.node, ev.result, ev.policy, ev.group);
    OfferedHistory(m1, j);
    CancelledHistory(m1, ev.node, ev.late);
    OfferedHistory(Cancelled(m1, ev.node, ev.late), j);
  }

  lemma OfferedHistory(m: Manager, j: Job)
    ensures Offered(m, j).triggered == m.triggered
  {
  }

  lemma CancelledHistory(m: Manager, n: NodeId, late: bool)
    requires n in m.nodes
    ensures Cancelled(m, n, late).triggered == m.triggered
  {
  }

  ghost predicate Solo(m: Manager, n: NodeId) {
    n in m.nodes ==> m.nodes[n].policy.Queue? && m.nodes[n].group.None?
  }

  /** A Queue node outside any group is never overtaken, so in every reachable state it is in
      order. */
  lemma UngroupedQueueIsFifo(states: seq<Manager>, events: seq<Event>, i: nat, n: NodeId)
    requires Run(states, events) && i < |states| && Solo(states[i], n)
    ensures InOrder(states[i], n)
  {
    forall k | 0 <= k < i ensures !Overtakes(states[k], events[k], n) {
      RolesAreFixed(states, events, k, i, n);
    }
    QueueIsFifo(states, events, i, n);
  }

  // ----- the promise can break -----

  function Busy(j: Option<Job>): NodeState { NodeState(Queue, j, Some(0), []) }

  /** An idle Queue node of group 0 has been triggered. */
  function Admitted(m: Manager, n: NodeId, v: Value): Manager
    requires 0 in m.groups
  {
    var j, s := Job(|m.triggered|, n, v), m.groups[0];
    var full := s.inFlight >= s.maxConcurrent;
    m.(triggered := m.triggered + [j], nodes := m.nodes[n := Busy(if full then None else Some(j))],
       groups := m.groups[0 := if full then s.(queue := s.queue + [j]) else s.(inFlight := s.inFlight + 1)],
       running := if full then m.running else m.running + {j})
  }

  lemma TriggeredIdle(m: Manager, n: NodeId, v: Value)
    requires n in m.nodes ==> m.nodes[n] == Busy(None)
    requires 0 in m.groups
    ensures Triggered(m, n, v, Queue, Some(0), false) == Admitted(m, n, v)
  {
    var t, m1 := Admitted(m, n, v), HandedOver(m, n, v, Queue, Some(0));
    assert m1.nodes == m.nodes[n := Busy(None)];
    assert t.nodes == m1.nodes[n := t.nodes[n]];
  }

  /** The slot of the first received completion has gone to the first job of group 0. */
  function PassedOn(m: Manager): Manager
    requires m.inbox != [] && m.inbox[0].node in m.nodes
    requires 0 in m.groups && m.groups[0].queue != [] && m.groups[0].queue[0].node in m.nodes
  {
    var done, next := m.inbox[0], m.groups[0].queue[0];
    m.(inbox := m.inbox[1..], delivered := m.delivered + [done], running := m.running + {next},
       nodes := m.nodes[done.node := m.nodes[done.node].(inFlight := None)]
                       [next.node := m.nodes[next.node].(inFlight := Some(next))],
       groups := m.groups[0 := m.groups[0].(queue := m.groups[0].queue[1..])])
  }

  lemma ProcessedPassesOn(m: Manager)
    requires m.inbox != [] && m.inbox[0].node in m.nodes
    requires 0 in m.groups && m.groups[0].queue != [] && m.groups[0].queue[0].node in m.nodes
    requires m.nodes[m.inbox[0].node].group == Some(0) && m.nodes[m.inbox[0].node].pending == []
    requires m.groups[0].queue[0].node != m.inbox[0].node
    requires m.groups[0].inFlight == m.groups[0].maxConcurrent > 0
    ensures Processed(m) == PassedOn(m)
  {
    var t := PassedOn(m);
    var m2 := WithGroup(Completed(m), 0, m.groups[0].inFlight - 1, m.groups[0].queue);
    assert Popped(m).None?;
    assert RefillRound(m2, 0).groups == t.groups;
    assert RefillRound(m2, 0) == t;
    assert Refilled(m2, 0) == Refilled(t, 0) == t;
  }

  /** Both slots of group 0 were taken by `a` and `b`, whose results have been received; two
      futures of the idle node `n` wait with the group. */
  ghost predicate Crowded(m: Manager, a: NodeId, b: NodeId, n: NodeId, v: Value) {
    && {a, b, n} <= m.nodes.Keys && m.nodes[a] == Busy(Some(Job(0, a, v))) && m.nodes[b] == Busy(Some(Job(1, b, v)))
    && m.nodes[n] == Busy(None) && 0 in m.groups && m.groups[0] == GroupState(2, 2, [Job(2, n, v), Job(3, n, v)])
    && m.running == {} && m.inbox == [Job(0, a, v), Job(1, b, v)]
  }

  lemma SlotsTaken(a: NodeId, b: NodeId, v: Value) returns (states: seq<Manager>, events: seq<Event>)
    requires a != b
    ensures Run(states, events)
    ensures
      var m, j0, j1 := states[|events|], Job(0, a, v), Job(1, b, v);
      && m.nodes.Keys == {a, b} && m.nodes[a] == Busy(Some(j0)) && m.nodes[b] == Busy(Some(j1))
      && 0 in m.groups && m.groups[0] == GroupState(2, 2, [])
      && m.running == {j0, j1} && m.channel == m.inbox == [] && |m.triggered| == 2
  {
    states, events := Extended([INITIAL], [], CreateGroup(2));
    TriggeredIdle(states[|events|], a, v);
    states, events := Extended(states, events, Trigger(a, v, Queue, Some(0), false));
    TriggeredIdle(states[|events|], b, v);
    states, events := Extended(states, events, Trigger(b, v, Queue, Some(0), false));
  }

  lemma TwoQueued(a: NodeId, b: NodeId, n: NodeId, v: Value) returns (states: seq<Manager>, events: seq<Event>)
    requires a != b && n != a && n != b
    ensures Run(states, events)
    ensures
      var m, j0, j1 := states[|events|], Job(0, a, v), Job(1, b, v);
      && {a, b, n} <= m.nodes.Keys && m.nodes[a] == Busy(Some(j0)) && m.nodes[b] == Busy(Some(j1))
      && m.nodes[n] == Busy(None) && 0 in m.groups && m.groups[0] == GroupState(2, 2, [Job(2, n, v), Job(3, n, v)])
      && m.running == {j0, j1} && m.channel == m.inbox == []
  {
    states, events := SlotsTaken(a, b, v);
    TriggeredIdle(states[|events|], n, v);
    states, events := Extended(states, events, Trigger(n, v, Queue, Some(0), false));
    TriggeredIdle(states[|events|], n, v);
    states, events := Extended(states, events, Trigger(n, v, Queue, Some(0), false));
  }

  lemma CrowdedIsReached(a: NodeId, b: NodeId, n: NodeId, v: Value) returns (states: seq<Manager>, events: seq<Event>)
    requires a != b && n != a && n != b
    ensures Run(states, events) && Crowded(states[|events|], a, b, n, v)
  {
    states, events := TwoQueued(a, b, n, v);
    states, events := Extended(states, events, Send(Job(0, a, v)));
    states, events := Extended(states, events, Send(Job(1, b, v)));
    states, events := Extended(states, events, Receive);
    states, events := Extended(states, events, Receive);
  }

  /** The `Queue` policy promises one computation at a time. In a group it can break: two
      futures of one node that both arrived while the group was full wait with the group, not
      with the node, and when two slots become free they run at the same time. */
  lemma GroupedQueueOverlaps(a: NodeId, b: NodeId, n: NodeId, v: Value)
    returns (states: seq<Manager>, events: seq<Event>)
    requires a != b && n != a && n != b
    ensures Run(states, events)
    ensures n in states[|events|].nodes && states[|events|].nodes[n].policy.Queue?
    ensures states[|events|].running == {Job(2, n, v), Job(3, n, v)}
  {
    states, events := CrowdedIsReached(a, b, n, v);
    ProcessedPassesOn(states[|events|]);
    states, events := Extended(states, events, Process);
    ProcessedPassesOn(states[|events|]);
    states, events := Extended(states, events, Process);
  }
}
