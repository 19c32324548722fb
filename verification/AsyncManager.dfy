/** Asynchronous execution: per-node policies and concurrency groups
    (src/async_compute.rs). Tasks of the runtime are steps of the environment. */
module AsyncJobs {
  import opened Nodes

  /** One future handed to the manager. Spawning it makes it a task, so its identity also
      serves as the task's handle. `id` counts the futures handed over so far. */
  datatype Job = Job(id: nat, node: NodeId, result: Value)

  datatype NodeState = NodeState(policy: AsyncPolicy, inFlight: Option<Job>, group: Option<nat>,
                                 pending: seq<Job>)

  datatype GroupState = GroupState(maxConcurrent: nat, inFlight: nat, queue: seq<Job>)

  /** `running` are the runtime's tasks, `channel` the results sent and not yet received,
      `inbox` the results received whose completion has not been processed. The last three
      fields are history. */
  datatype Manager = Manager(nodes: map<NodeId, NodeState>, groups: map<nat, GroupState>, nextGroup: nat,
                             running: set<Job>, channel: seq<Job>, inbox: seq<Job>,
                             triggered: seq<Job>, delivered: seq<Job>, aborted: set<Job>)

  const INITIAL: Manager := Manager(map[], map[], 0, {}, [], [], [], [], {})

  function GroupOf(m: Manager, n: NodeId): Option<nat> {
    if n in m.nodes then m.nodes[n].group else None
  }

  function MinusOne(n: nat): nat { if n == 0 then 0 else n - 1 }

  function WithGroup(m: Manager, g: nat, inFlight: nat, queue: seq<Job>): Manager
    requires g in m.groups
  {
    m.(groups := m.groups[g := m.groups[g].(inFlight := inFlight, queue := queue)])
  }

  /** Puts a job on the runtime and remembers its handle. */
  function Started(m: Manager, j: Job): Manager {
    var m' := m.(running := m.running + {j});
    if j.node in m.nodes
    then m'.(nodes := m.nodes[j.node := m.nodes[j.node].(inFlight := Some(j))])
    else m'
  }

  /** The job takes a slot of its group. */
  function StartedIn(m: Manager, g: nat, j: Job): Manager
    requires g in m.groups
  {
    Started(WithGroup(m, g, m.groups[g].inFlight + 1, m.groups[g].queue), j)
  }

  /** The job waits for a slot of its group. */
  function QueuedIn(m: Manager, g: nat, j: Job): Manager
    requires g in m.groups
  {
    WithGroup(m, g, m.groups[g].inFlight, m.groups[g].queue + [j])
  }

  /** Starts the job if its group has room, otherwise queues it with the group. */
  function Offered(m: Manager, j: Job): Manager {
    var g := GroupOf(m, j.node);
    if g.None? || g.value !in m.groups then Started(m, j)
    else if m.groups[g.value].inFlight >= m.groups[g.value].maxConcurrent then QueuedIn(m, g.value, j)
    else StartedIn(m, g.value, j)
  }

  /** Taking a node's handle, and aborting its task if that still helps. */
  function HandleTaken(m: Manager, n: NodeId, late: bool): Manager
    requires n in m.nodes && m.nodes[n].inFlight.Some?
  {
    var j := m.nodes[n].inFlight.value;
    var m1 := m.(nodes := m.nodes[n := m.nodes[n].(inFlight := None)]);
    if j in m.running && !late then m1.(running := m.running - {j}, aborted := m.aborted + {j}) else m1
  }

  /** Aborts the node's task, if it has one, and gives its slot back. `late` says that the
      task got past its last suspension point and sends its result all the same. */
  function Cancelled(m: Manager, n: NodeId, late: bool): Manager
    requires n in m.nodes
  {
    var s := m.nodes[n];
    if s.inFlight.None? then m else
    var m1 := HandleTaken(m, n, late);
    if s.group.Some? && s.group.value in m.groups
    then WithGroup(m1, s.group.value, MinusOne(m.groups[s.group.value].inFlight), m.groups[s.group.value].queue)
    else m1
  }

  /** A future arrives for a node. The policy and group of its first future stay in force. */
  function HandedOver(m: Manager, n: NodeId, result: Value, policy: AsyncPolicy, group: Option<nat>): Manager {
    m.(triggered := m.triggered + [Job(|m.triggered|, n, result)],
       nodes := if n in m.nodes then m.nodes else m.nodes[n := NodeState(policy, None, group, [])])
  }

  /** The job waits with its node. */
  function PendingPushed(m: Manager, j: Job): Manager
    requires j.node in m.nodes
  {
    m.(nodes := m.nodes[j.node := m.nodes[j.node].(pending := m.nodes[j.node].pending + [j])])
  }

  /** A node is triggered: its policy decides what becomes of the new future. */
  function Triggered(m: Manager, n: NodeId, result: Value, policy: AsyncPolicy, group: Option<nat>,
                     late: bool): Manager
  {
    var j, m1 := Job(|m.triggered|, n, result), HandedOver(m, n, result, policy, group);
    var s := m1.nodes[n];
    if s.policy.Queue? then
      if s.inFlight.Some? then PendingPushed(m1, j) else Offered(m1, j)
    else
      Offered(Cancelled(m1, n, late), j)
  }

  /** Starts queued jobs of a group while there is room. */
  function Refilled(m: Manager, g: nat): Manager
    decreases if g in m.groups then |m.groups[g].queue| else 0
  {
    if g in m.groups && m.groups[g].inFlight < m.groups[g].maxConcurrent && m.groups[g].queue != [] then
      var s := m.groups[g];
      Refilled(Started(WithGroup(m, g, s.inFlight + 1, s.queue[1..]), s.queue[0]), g)
    else m
  }

  /** The slot of a completed job is given back and the group refilled. */
  function SlotFreed(m: Manager, g: Option<nat>): Manager {
    if g.None? then m else
    Refilled(if g.value in m.groups
             then WithGroup(m, g.value, MinusOne(m.groups[g.value].inFlight), m.groups[g.value].queue) else m,
             g.value)
  }

  /** The waiting job that the first received completion lets go ahead. */
  function Popped(m: Manager): Option<Job>
    requires m.inbox != [] && m.inbox[0].node in m.nodes
  {
    var s := m.nodes[m.inbox[0].node];
    if s.policy.Queue? && s.pending != [] then Some(s.pending[0]) else None
  }

  /** The node of the first received completion is idle again. */
  function Completed(m: Manager): Manager
    requires m.inbox != [] && m.inbox[0].node in m.nodes
  {
    var j := m.inbox[0];
    var s := m.nodes[j.node];
    m.(inbox := m.inbox[1..], delivered := m.delivered + [j],
       nodes := m.nodes[j.node := s.(inFlight := None,
                                     pending := if Popped(m).Some? then s.pending[1..] else s.pending)])
  }

  /** Processing the completion of the first received result. */
  function Processed(m: Manager): Manager
    requires m.inbox != []
  {
    var j := m.inbox[0];
    if j.node !in m.nodes then m.(inbox := m.inbox[1..], delivered := m.delivered + [j]) else
    var m1 := SlotFreed(Completed(m), m.nodes[j.node].group);
    if Popped(m).Some? then Offered(m1, Popped(m).value) else m1
  }

  // ----- the steps of the environment -----

  function GroupCreated(m: Manager, max: nat): Manager {
    m.(groups := m.groups[m.nextGroup := GroupState(max, 0, [])], nextGroup := m.nextGroup + 1)
  }

  /** A task finishes and sends its result. */
  function Sent(m: Manager, j: Job): Manager {
    m.(running := m.running - {j}, channel := m.channel + [j])
  }

  /** The engine takes the next result out of the channel. */
  function Received(m: Manager): Manager
    requires m.channel != []
  {
    m.(channel := m.channel[1..], inbox := m.inbox + [m.channel[0]])
  }

  // ----- runs -----

  /** Everything that can happen, in any interleaving: a group is created; a node is triggered;
      a task sends its result; the engine receives a result; it processes a completion. */
  datatype Event =
    | CreateGroup(maxConcurrent: nat)
    | Trigger(node: NodeId, result: Value, policy: AsyncPolicy, group: Option<nat>, late: bool)
    | Send(job: Job)
    | Receive
    | Process

  /** A group handle can only have come from `CreateGroup`. */
  ghost predicate Enabled(m: Manager, ev: Event) {
    match ev
    case CreateGroup(_) => true
    case Trigger(_, _, _, g, _) => g.Some? ==> g.value in m.groups
    case Send(j) => j in m.running
    case Receive => m.channel != []
    case Process => m.inbox != []
  }

  function Next(m: Manager, ev: Event): Manager
    requires Enabled(m, ev)
  {
    match ev
    case CreateGroup(max) => GroupCreated(m, max)
    case Trigger(n, v, p, g, late) => Triggered(m, n, v, p, g, late)
    case Send(j) => Sent(m, j)
    case Receive => Received(m)
    case Process => Processed(m)
  }

  /** A run from the initial state, one state per event and one more. */
  ghost predicate Run(states: seq<Manager>, events: seq<Event>) {
    |states| == |events| + 1 && states[0] == INITIAL &&
    forall i :: 0 <= i < |events| ==> Enabled(states[i], events[i]) && states[i + 1] == Next(states[i], events[i])
  }

  // ----- conservation of jobs -----

  function Pending(m: Manager, n: NodeId): seq<Job> {
    if n in m.nodes then m.nodes[n].pending else []
  }

  function Queued(m: Manager, g: Option<nat>): seq<Job> {
    if g.Some? && g.value in m.groups then m.groups[g.value].queue else []
  }

  /** In how many places a job currently is. */
  ghost function Places(m: Manager, j: Job): nat {
    (if j in m.running then 1 else 0) + multiset(m.channel)[j] + multiset(m.inbox)[j] +
    multiset(Pending(m, j.node))[j] + multiset(Queued(m, GroupOf(m, j.node)))[j] +
    multiset(m.delivered)[j] + (if j in m.aborted then 1 else 0)
  }

  ghost function Live(m: Manager): set<Job> {
    m.running + (set j | j in m.channel) + (set j | j in m.inbox)
  }

  ghost function LiveIn(m: Manager, g: nat): set<Job> {
    set j | j in Live(m) && GroupOf(m, j.node) == Some(g)
  }

  /** Each job handed over is in exactly one place, except `hand`, which is in none. */
  ghost predicate Conserved(m: Manager, hand: Option<Job>) {
    && (forall i :: 0 <= i < |m.triggered| ==> m.triggered[i].id == i)
    && (forall j {:trigger Places(m, j)} ::
          Places(m, j) + (if hand == Some(j) then 1 else 0) == multiset(m.triggered)[j])
  }

  ghost predicate OwnPending(n: NodeId, s: NodeState) {
    forall j :: j in s.pending ==> j.node == n && s.policy.Queue?
  }

  ghost predicate OwnQueue(m: Manager, g: nat, queue: seq<Job>) {
    forall j :: j in queue ==> GroupOf(m, j.node) == Some(g)
  }

  /** A handle belongs to its node and to a task that is not yet processed; jobs wait where
      their node's policy and group say; groups are known. */
  ghost predicate Tidy(m: Manager) {
    && (forall n :: n in m.nodes && m.nodes[n].inFlight.Some? ==>
          m.nodes[n].inFlight.value.node == n && m.nodes[n].inFlight.value in Live(m))
    && (forall j :: j in Live(m) ==> j.node in m.nodes)
    && (forall n :: n in m.nodes ==> OwnPending(n, m.nodes[n]))
    && (forall g :: g in m.groups ==> OwnQueue(m, g, m.groups[g].queue))
    && (forall n :: n in m.nodes && m.nodes[n].group.Some? ==> m.nodes[n].group.value in m.groups)
    && (forall g :: g in m.groups ==> g < m.nextGroup)
  }

  ghost predicate Good(m: Manager, hand: Option<Job>) {
    Conserved(m, hand) && Tidy(m) && (hand.Some? ==> hand.value.node in m.nodes)
  }

  lemma InOnePlace(m: Manager, hand: Option<Job>, j: Job)
    requires Conserved(m, hand)
    ensures Places(m, j) + (if hand == Some(j) then 1 else 0) <= 1
  {
    DistinctIds(m.triggered, j);
  }

  lemma {:induction false} DistinctIds(t: seq<Job>, j: Job)
    requires forall i :: 0 <= i < |t| ==> t[i].id == i
    ensures multiset(t)[j] <= 1
    ensures j.id >= |t| ==> multiset(t)[j] == 0
  {
    if t != [] {
      DistinctIds(t[..|t| - 1], j);
      assert t == t[..|t| - 1] + [t[|t| - 1]];
    }
  }

  lemma StartedPlaces(m: Manager, j: Job, k: Job)
    requires j !in m.running
    ensures Places(Started(m, j), k) == Places(m, k) + (if k == j then 1 else 0)
  {
    var m' := Started(m, j);
    assert Pending(m', k.node) == Pending(m, k.node) && GroupOf(m', k.node) == GroupOf(m, k.node);
  }

  lemma StartedConserved(m: Manager, j: Job)
    requires Conserved(m, Some(j))
    ensures Conserved(Started(m, j), None)
  {
    InOnePlace(m, Some(j), j);
    forall k { StartedPlaces(m, j, k); }
  }

  lemma StartedTidy(m: Manager, j: Job)
    requires Tidy(m) && j.node in m.nodes
    ensures Tidy(Started(m, j))
    ensures forall n :: GroupOf(Started(m, j), n) == GroupOf(m, n)
    ensures Live(Started(m, j)) == Live(m) + {j}
  {
    var m' := Started(m, j);
    assert Live(m') == Live(m) + {j};
    assert forall n :: GroupOf(m', n) == GroupOf(m, n);
  }

  lemma WithGroupPlaces(m: Manager, g: nat, inFlight: nat, queue: seq<Job>, k: Job)
    requires g in m.groups
    ensures GroupOf(m, k.node) == Some(g) ==>
              Places(WithGroup(m, g, inFlight, queue), k) + multiset(m.groups[g].queue)[k] ==
              Places(m, k) + multiset(queue)[k]
    ensures GroupOf(m, k.node) != Some(g) ==> Places(WithGroup(m, g, inFlight, queue), k) == Places(m, k)
  {
    var m' := WithGroup(m, g, inFlight, queue);
    assert Pending(m', k.node) == Pending(m, k.node) && GroupOf(m', k.node) == GroupOf(m, k.node);
  }

  lemma WithGroupTidy(m: Manager, g: nat, inFlight: nat, queue: seq<Job>)
    requires Tidy(m) && g in m.groups && OwnQueue(m, g, queue)
    ensures Tidy(WithGroup(m, g, inFlight, queue))
    ensures forall n :: GroupOf(WithGroup(m, g, inFlight, queue), n) == GroupOf(m, n)
    ensures Live(WithGroup(m, g, inFlight, queue)) == Live(m)
  {
    var m' := WithGroup(m, g, inFlight, queue);
    assert Live(m') == Live(m);
    assert forall n :: GroupOf(m', n) == GroupOf(m, n);
  }

  lemma CounterGood(m: Manager, hand: Option<Job>, g: nat, inFlight: nat)
    requires Good(m, hand) && g in m.groups
    ensures Good(WithGroup(m, g, inFlight, m.groups[g].queue), hand)
    ensures Live(WithGroup(m, g, inFlight, m.groups[g].queue)) == Live(m)
  {
    forall k { WithGroupPlaces(m, g, inFlight, m.groups[g].queue, k); }
    WithGroupTidy(m, g, inFlight, m.groups[g].queue);
  }

  lemma QueuedInPlaces(m: Manager, g: nat, j: Job, k: Job)
    requires g in m.groups && GroupOf(m, j.node) == Some(g)
    ensures Places(QueuedIn(m, g, j), k) == Places(m, k) + (if k == j then 1 else 0)
  {
    var m' := QueuedIn(m, g, j);
    assert Pending(m', k.node) == Pending(m, k.node) && GroupOf(m', k.node) == GroupOf(m, k.node);
  }

  lemma QueuedInConserved(m: Manager, g: nat, j: Job)
    requires Conserved(m, Some(j)) && g in m.groups && GroupOf(m, j.node) == Some(g)
    ensures Conserved(QueuedIn(m, g, j), None)
  {
    forall k { QueuedInPlaces(m, g, j, k); }
  }

  lemma QueuedInTidy(m: Manager, g: nat, j: Job)
    requires Tidy(m) && g in m.groups && GroupOf(m, j.node) == Some(g)
    ensures Tidy(QueuedIn(m, g, j))
    ensures Live(QueuedIn(m, g, j)) == Live(m)
    ensures forall n :: GroupOf(QueuedIn(m, g, j), n) == GroupOf(m, n)
  {
    WithGroupTidy(m, g, m.groups[g].inFlight, m.groups[g].queue + [j]);
  }

  lemma StartedInPlaces(m: Manager, g: nat, j: Job, k: Job)
    requires g in m.groups && j !in m.running
    ensures Places(StartedIn(m, g, j), k) == Places(m, k) + (if k == j then 1 else 0)
  {
    var m' := StartedIn(m, g, j);
    assert Pending(m', k.node) == Pending(m, k.node) && GroupOf(m', k.node) == GroupOf(m, k.node);
  }

  lemma StartedInConserved(m: Manager, g: nat, j: Job)
    requires Conserved(m, Some(j)) && g in m.groups
    ensures Conserved(StartedIn(m, g, j), None)
  {
    InOnePlace(m, Some(j), j);
    forall k { StartedInPlaces(m, g, j, k); }
  }

  lemma StartedInTidy(m: Manager, g: nat, j: Job)
    requires Tidy(m) && g in m.groups && j.node in m.nodes
    ensures Tidy(StartedIn(m, g, j))
    ensures Live(StartedIn(m, g, j)) == Live(m) + {j}
    ensures forall n :: GroupOf(StartedIn(m, g, j), n) == GroupOf(m, n)
  {
    var m' := StartedIn(m, g, j);
    assert Live(m') == Live(m) + {j};
    assert forall n :: GroupOf(m', n) == GroupOf(m, n);
  }

  lemma OfferedConserved(m: Manager, j: Job)
    requires Conserved(m, Some(j))
    ensures Conserved(Offered(m, j), None)
  {
    var g := GroupOf(m, j.node);
    if g.None? || g.value !in m.groups {
      StartedConserved(m, j);
    } else if m.groups[g.value].inFlight >= m.groups[g.value].maxConcurrent {
      QueuedInConserved(m, g.value, j);
    } else {
      StartedInConserved(m, g.value, j);
    }
  }

  lemma OfferedTidy(m: Manager, j: Job)
    requires Tidy(m) && j.node in m.nodes
    ensures Tidy(Offered(m, j))
  {
    var g := GroupOf(m, j.node);
    if g.None? || g.value !in m.groups {
      StartedTidy(m, j);
    } else if m.groups[g.value].inFlight >= m.groups[g.value].maxConcurrent {
      QueuedInTidy(m, g.value, j);
    } else {
      StartedInTidy(m, g.value, j);
    }
  }

  lemma OfferedGood(m: Manager, j: Job)
    requires Good(m, Some(j))
    ensures Good(Offered(m, j), None)
  {
    OfferedConserved(m, j);
    OfferedTidy(m, j);
  }

  lemma HandleTakenGood(m: Manager, hand: Option<Job>, n: NodeId, late: bool)
    requires Good(m, hand) && n in m.nodes && m.nodes[n].inFlight.Some?
    ensures Good(HandleTaken(m, n, late), hand)
    ensures Live(HandleTaken(m, n, late)) ==
            var j := m.nodes[n].inFlight.value;
            if j in m.running && !late then Live(m) - {j} else Live(m)
  {
    var j := m.nodes[n].inFlight.value;
    InOnePlace(m, hand, j);
    assert j in m.running ==> j !in multiset(m.channel) && j !in multiset(m.inbox);
    forall k { HandleTakenPlaces(m, n, late, k); }
    HandleTakenTidy(m, n, late);
  }

  lemma HandleTakenPlaces(m: Manager, n: NodeId, late: bool, k: Job)
    requires n in m.nodes && m.nodes[n].inFlight.Some?
    requires m.nodes[n].inFlight.value in m.running ==> m.nodes[n].inFlight.value !in m.aborted
    ensures Places(HandleTaken(m, n, late), k) == Places(m, k)
  {
    var m' := HandleTaken(m, n, late);
    assert Pending(m', k.node) == Pending(m, k.node) && GroupOf(m', k.node) == GroupOf(m, k.node);
  }

  lemma HandleTakenTidy(m: Manager, n: NodeId, late: bool)
    requires Tidy(m) && n in m.nodes && m.nodes[n].inFlight.Some?
    requires m.nodes[n].inFlight.value in m.running ==>
               m.nodes[n].inFlight.value !in m.channel && m.nodes[n].inFlight.value !in m.inbox
    ensures Tidy(HandleTaken(m, n, late))
    ensures Live(HandleTaken(m, n, late)) ==
            var j := m.nodes[n].inFlight.value;
            if j in m.running && !late then Live(m) - {j} else Live(m)
  {
    var m' := HandleTaken(m, n, late);
    assert forall k :: GroupOf(m', k) == GroupOf(m, k);
  }

  lemma CancelledGood(m: Manager, hand: Option<Job>, n: NodeId, late: bool)
    requires Good(m, hand) && n in m.nodes
    ensures Good(Cancelled(m, n, late), hand)
  {
    var s := m.nodes[n];
    if s.inFlight.Some? {
      HandleTakenGood(m, hand, n, late);
      if s.group.Some? && s.group.value in m.groups {
        CounterGood(HandleTaken(m, n, late), hand, s.group.value, MinusOne(m.groups[s.group.value].inFlight));
      }
    }
  }

  lemma {:induction false} RefilledGood(m: Manager, hand: Option<Job>, g: nat)
    requires Good(m, hand)
    ensures Good(Refilled(m, g), hand)
    decreases if g in m.groups then |m.groups[g].queue| else 0
  {
    if g in m.groups && m.groups[g].inFlight < m.groups[g].maxConcurrent && m.groups[g].queue != [] {
      RefillRoundGood(m, hand, g);
      RefilledGood(RefillRound(m, g), hand, g);
    }
  }

  function RefillRound(m: Manager, g: nat): Manager
    requires g in m.groups && m.groups[g].queue != []
  {
    var s := m.groups[g];
    Started(WithGroup(m, g, s.inFlight + 1, s.queue[1..]), s.queue[0])
  }

  lemma RefillRoundPlaces(m: Manager, g: nat, k: Job)
    requires g in m.groups && m.groups[g].queue != [] && m.groups[g].queue[0] !in m.running
    requires GroupOf(m, m.groups[g].queue[0].node) == Some(g)
    ensures Places(RefillRound(m, g), k) == Places(m, k)
  {
    var s, m' := m.groups[g], RefillRound(m, g);
    assert s.queue == [s.queue[0]] + s.queue[1..];
    assert Pending(m', k.node) == Pending(m, k.node) && GroupOf(m', k.node) == GroupOf(m, k.node);
  }

  lemma RefillRoundTidy(m: Manager, g: nat)
    requires Tidy(m) && g in m.groups && m.groups[g].queue != []
    ensures Tidy(RefillRound(m, g))
    ensures GroupOf(m, m.groups[g].queue[0].node) == Some(g)
    ensures Live(RefillRound(m, g)) == Live(m) + {m.groups[g].queue[0]}
    ensures forall n :: GroupOf(RefillRound(m, g), n) == GroupOf(m, n)
  {
    var s, m' := m.groups[g], RefillRound(m, g);
    assert s.queue == [s.queue[0]] + s.queue[1..];
    assert s.queue[0] in s.queue;
    assert Live(m') == Live(m) + {s.queue[0]};
    assert forall n :: GroupOf(m', n) == GroupOf(m, n);
  }

  lemma QueuedIsNotLive(m: Manager, hand: Option<Job>, g: nat, j: Job)
    requires Good(m, hand) && g in m.groups && j in m.groups[g].queue
    ensures j !in Live(m)
  {
    InOnePlace(m, hand, j);
    assert j in multiset(m.groups[g].queue) && GroupOf(m, j.node) == Some(g);
    assert j !in multiset(m.channel) && j !in multiset(m.inbox);
  }

  lemma RefillRoundGood(m: Manager, hand: Option<Job>, g: nat)
    requires Good(m, hand) && g in m.groups && m.groups[g].queue != []
    ensures Good(RefillRound(m, g), hand)
    ensures m.groups[g].queue[0] !in Live(m) && GroupOf(m, m.groups[g].queue[0].node) == Some(g)
    ensures Live(RefillRound(m, g)) == Live(m) + {m.groups[g].queue[0]}
    ensures forall n :: GroupOf(RefillRound(m, g), n) == GroupOf(m, n)
  {
    RefillRoundTidy(m, g);
    QueuedIsNotLive(m, hand, g, m.groups[g].queue[0]);
    forall k ensures Places(RefillRound(m, g), k) == Places(m, k) { RefillRoundPlaces(m, g, k); }
  }

  lemma TriggeredGood(m: Manager, n: NodeId, result: Value, policy: AsyncPolicy, group: Option<nat>, late: bool)
    requires Good(m, None) && (group.Some? ==> group.value in m.groups)
    ensures Good(Triggered(m, n, result, policy, group, late), None)
  {
    var j, m1 := Job(|m.triggered|, n, result), HandedOver(m, n, result, policy, group);
    HandedOverGood(m, n, result, policy, group);
    if m1.nodes[n].policy.Queue? {
      if m1.nodes[n].inFlight.Some? {
        PendingPushedGood(m1, j);
      } else {
        OfferedGood(m1, j);
      }
    } else {
      CancelledGood(m1, Some(j), n, late);
      OfferedGood(Cancelled(m1, n, late), j);
    }
  }

  lemma HandedOverPlaces(m: Manager, n: NodeId, result: Value, policy: AsyncPolicy, group: Option<nat>, k: Job)
    requires Tidy(m)
    ensures Places(HandedOver(m, n, result, policy, group), k) == Places(m, k)
  {
    var m' := HandedOver(m, n, result, policy, group);
    assert Pending(m', k.node) == Pending(m, k.node);
    if k.node !in m.nodes && k.node == n && group.Some? && group.value in m.groups {
      assert OwnQueue(m, group.value, m.groups[group.value].queue);
      assert k !in multiset(Queued(m', group));
    }
  }

  lemma HandedOverTidy(m: Manager, n: NodeId, result: Value, policy: AsyncPolicy, group: Option<nat>)
    requires Tidy(m) && (group.Some? ==> group.value in m.groups)
    ensures Tidy(HandedOver(m, n, result, policy, group))
    ensures Live(HandedOver(m, n, result, policy, group)) == Live(m)
  {
    var m' := HandedOver(m, n, result, policy, group);
    assert Live(m') == Live(m);
    assert forall k :: k in m.nodes ==> GroupOf(m', k) == GroupOf(m, k);
  }

  lemma HandedOverGood(m: Manager, n: NodeId, result: Value, policy: AsyncPolicy, group: Option<nat>)
    requires Good(m, None) && (group.Some? ==> group.value in m.groups)
    ensures Good(HandedOver(m, n, result, policy, group), Some(Job(|m.triggered|, n, result)))
  {
    HandedOverTidy(m, n, result, policy, group);
    DistinctIds(m.triggered, Job(|m.triggered|, n, result));
    forall k { HandedOverPlaces(m, n, result, policy, group, k); }
  }

  lemma PendingPushedPlaces(m: Manager, j: Job, k: Job)
    requires j.node in m.nodes
    ensures Places(PendingPushed(m, j), k) == Places(m, k) + (if k == j then 1 else 0)
  {
    assert GroupOf(PendingPushed(m, j), k.node) == GroupOf(m, k.node);
  }

  lemma PendingPushedTidy(m: Manager, j: Job)
    requires Tidy(m) && j.node in m.nodes && m.nodes[j.node].policy.Queue?
    ensures Tidy(PendingPushed(m, j))
  {
    var m' := PendingPushed(m, j);
    assert Live(m') == Live(m);
    assert forall k :: GroupOf(m', k) == GroupOf(m, k);
  }

  lemma PendingPushedGood(m: Manager, j: Job)
    requires Good(m, Some(j)) && m.nodes[j.node].policy.Queue?
    ensures Good(PendingPushed(m, j), None)
  {
    PendingPushedTidy(m, j);
    forall k { PendingPushedPlaces(m, j, k); }
  }

  lemma PoppedPending(m: Manager, k: Job)
    requires m.inbox != [] && m.inbox[0].node in m.nodes
    requires OwnPending(m.inbox[0].node, m.nodes[m.inbox[0].node])
    ensures multiset(Pending(Completed(m), k.node))[k] + (if Popped(m) == Some(k) then 1 else 0) ==
            multiset(Pending(m, k.node))[k]
  {
    var s := m.nodes[m.inbox[0].node];
    if s.pending != [] {
      assert s.pending == [s.pending[0]] + s.pending[1..];
      assert s.pending[0] in s.pending;
    }
  }

  lemma CompletedPlaces(m: Manager, k: Job)
    requires m.inbox != [] && m.inbox[0].node in m.nodes
    requires OwnPending(m.inbox[0].node, m.nodes[m.inbox[0].node])
    ensures Places(Completed(m), k) + (if Popped(m) == Some(k) then 1 else 0) == Places(m, k)
  {
    PoppedPending(m, k);
    assert m.inbox == [m.inbox[0]] + m.inbox[1..];
    assert GroupOf(Completed(m), k.node) == GroupOf(m, k.node);
  }

  lemma CompletedTidy(m: Manager)
    requires Tidy(m) && m.inbox != [] && m.inbox[0].node in m.nodes
    requires m.inbox[0] !in m.running && m.inbox[0] !in m.channel && m.inbox[0] !in m.inbox[1..]
    ensures Tidy(Completed(m))
    ensures Live(Completed(m)) == Live(m) - {m.inbox[0]}
    ensures forall n :: GroupOf(Completed(m), n) == GroupOf(m, n)
  {
    var j, m' := m.inbox[0], Completed(m);
    assert m.inbox == [j] + m.inbox[1..];
    assert Live(m') == Live(m) - {j};
    forall n ensures GroupOf(m', n) == GroupOf(m, n) { }
    assert OwnPending(j.node, m.nodes[j.node]);
  }

  lemma ReceivedJobIsUnique(m: Manager)
    requires Conserved(m, None) && m.inbox != []
    ensures m.inbox[0] !in m.running && m.inbox[0] !in m.channel && m.inbox[0] !in m.inbox[1..]
  {
    var j := m.inbox[0];
    assert m.inbox == [j] + m.inbox[1..];
    InOnePlace(m, None, j);
    assert j !in multiset(m.channel) && j !in multiset(m.inbox[1..]);
  }

  lemma CompletedConserved(m: Manager)
    requires Conserved(m, None) && m.inbox != [] && m.inbox[0].node in m.nodes
    requires OwnPending(m.inbox[0].node, m.nodes[m.inbox[0].node])
    ensures Conserved(Completed(m), Popped(m))
  {
    forall k { CompletedPlaces(m, k); }
  }

  lemma CompletedGood(m: Manager)
    requires Good(m, None) && m.inbox != [] && m.inbox[0].node in m.nodes
    ensures Good(Completed(m), Popped(m))
    ensures Live(Completed(m)) == Live(m) - {m.inbox[0]}
    ensures forall n :: GroupOf(Completed(m), n) == GroupOf(m, n)
  {
    ReceivedJobIsUnique(m);
    CompletedTidy(m);
    CompletedConserved(m);
    assert Popped(m).Some? ==> Popped(m).value in m.nodes[m.inbox[0].node].pending;
  }

  lemma SlotFreedGood(m: Manager, hand: Option<Job>, g: Option<nat>)
    requires Good(m, hand)
    ensures Good(SlotFreed(m, g), hand)
  {
    if g.Some? {
      if g.value in m.groups {
        var m1 := WithGroup(m, g.value, MinusOne(m.groups[g.value].inFlight), m.groups[g.value].queue);
        CounterGood(m, hand, g.value, MinusOne(m.groups[g.value].inFlight));
        RefilledGood(m1, hand, g.value);
        assert SlotFreed(m, g) == Refilled(m1, g.value);
      } else {
        RefilledGood(m, hand, g.value);
      }
    }
  }

  lemma ProcessedGood(m: Manager)
    requires Good(m, None) && m.inbox != []
    ensures Good(Processed(m), None)
  {
    var j := m.inbox[0];
    assert j in m.inbox;
    CompletedGood(m);
    var m1 := Completed(m);
    SlotFreedGood(m1, Popped(m), m.nodes[j.node].group);
    if Popped(m).Some? {
      OfferedGood(SlotFreed(m1, m.nodes[j.node].group), Popped(m).value);
    }
  }

  lemma SentPlaces(m: Manager, j: Job, k: Job)
    requires j in m.running
    ensures Places(Sent(m, j), k) == Places(m, k)
  {
    assert Pending(Sent(m, j), k.node) == Pending(m, k.node);
  }

  lemma SentGood(m: Manager, j: Job)
    requires Good(m, None) && j in m.running
    ensures Good(Sent(m, j), None)
    ensures Live(Sent(m, j)) == Live(m)
  {
    var m' := Sent(m, j);
    assert Live(m') == Live(m);
    assert forall n :: GroupOf(m', n) == GroupOf(m, n);
    forall k { SentPlaces(m, j, k); }
  }

  lemma ReceivedPlaces(m: Manager, k: Job)
    requires m.channel != []
    ensures Places(Received(m), k) == Places(m, k)
  {
    assert m.channel == [m.channel[0]] + m.channel[1..];
    assert Pending(Received(m), k.node) == Pending(m, k.node);
  }

  lemma ReceivedGood(m: Manager)
    requires Good(m, None) && m.channel != []
    ensures Good(Received(m), None)
    ensures Live(Received(m)) == Live(m)
  {
    var m' := Received(m);
    assert m.channel == [m.channel[0]] + m.channel[1..];
    assert Live(m') == Live(m);
    assert forall n :: GroupOf(m', n) == GroupOf(m, n);
    forall k { ReceivedPlaces(m, k); }
  }

  lemma GroupCreatedPlaces(m: Manager, max: nat, k: Job)
    requires Tidy(m)
    ensures Places(GroupCreated(m, max), k) == Places(m, k)
  {
    assert Pending(GroupCreated(m, max), k.node) == Pending(m, k.node);
    assert GroupOf(m, k.node) != Some(m.nextGroup);
  }

  lemma GroupCreatedTidy(m: Manager, max: nat)
    requires Tidy(m)
    ensures Tidy(GroupCreated(m, max))
    ensures Live(GroupCreated(m, max)) == Live(m)
    ensures forall n :: GroupOf(GroupCreated(m, max), n) == GroupOf(m, n)
  {
    var m' := GroupCreated(m, max);
    assert Live(m') == Live(m);
    assert forall n :: GroupOf(m', n) == GroupOf(m, n);
  }

  lemma GroupCreatedGood(m: Manager, max: nat)
    requires Good(m, None)
    ensures Good(GroupCreated(m, max), None)
  {
    GroupCreatedTidy(m, max);
    forall k { GroupCreatedPlaces(m, max, k); }
  }

  lemma NextGood(m: Manager, ev: Event)
    requires Good(m, None) && Enabled(m, ev)
    ensures Good(Next(m, ev), None)
  {
    match ev
    case CreateGroup(max) => GroupCreatedGood(m, max);
    case Trigger(n, v, p, g, late) => TriggeredGood(m, n, v, p, g, late);
    case Send(j) => SentGood(m, j);
    case Receive => ReceivedGood(m);
    case Process => ProcessedGood(m);
  }
}
