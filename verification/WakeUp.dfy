/** The wake-up protocol between the sources' bridge, the async tasks and the event loop
    (src/event_loop.rs, src/async_compute.rs), as an interleaving of their steps. */
module WakeUp {
  import opened Nodes
  import opened Commands

  /** A value on its way into the store: from a source through the bridge, or from a client's
      command. */
  datatype Item = Item(bridged: bool, id: NodeId, value: Value)

  datatype Bridge = Idle | Holding(item: Item) | Forwarded

  /** Where the loop's thread is: blocked in `recv`; emptying the command channel; going
      through its batch; emptying the two data channels; computing; done. */
  datatype Phase =
    | Blocked
    | Collecting(batch: seq<Command>)
    | Handling(rest: seq<Command>, hasUpdates: bool, shutdown: bool)
    | DrainingSources(shutdown: bool)
    | DrainingAsync(shutdown: bool)
    | Computing(shutdown: bool)
    | Stopped

  /** `betweenSends` counts tasks that have sent their result and not yet their notice. The
      last five fields are history. */
  datatype System = System(bridgeIn: seq<Item>, bridge: Bridge, sourceRx: seq<Item>,
                           betweenSends: nat, asyncRx: seq<Item>, commands: seq<Command>, phase: Phase,
                           sent: seq<Item>, issued: seq<Item>, finished: seq<Item>,
                           drained: seq<Item>, collected: seq<Item>)

  const START: System := System([], Idle, [], 0, [], [], Blocked, [], [], [], [], [])

  datatype Event =
    | SourceSends(id: NodeId, value: Value)
    | BridgeTakes
    | BridgeForwards
    | BridgeNotifies
    | TaskSends(id: NodeId, value: Value)
    | TaskNotifies
    | ClientSends(command: Command)
    | LoopReceives
    | LoopCollects
    | LoopCollected
    | LoopHandles
    | LoopHandled
    | LoopDrainsSource
    | SourcesDrained
    | LoopDrainsAsync
    | AsyncDrained
    | LoopComputed

  ghost predicate Enabled(s: System, ev: Event) {
    match ev
    case SourceSends(_, _) => true
    case BridgeTakes => s.bridge.Idle? && s.bridgeIn != []
    case BridgeForwards => s.bridge.Holding?
    case BridgeNotifies => s.bridge.Forwarded?
    case TaskSends(_, _) => true
    case TaskNotifies => s.betweenSends > 0
    case ClientSends(c) => c.SourceUpdate? || c.Merge? || c.Remove? || c.Shutdown?
    case LoopReceives => s.phase.Blocked? && s.commands != []
    case LoopCollects => s.phase.Collecting? && s.commands != []
    case LoopCollected => s.phase.Collecting? && s.commands == []
    case LoopHandles => s.phase.Handling? && s.phase.rest != []
    case LoopHandled => s.phase.Handling? && s.phase.rest == []
    case LoopDrainsSource => s.phase.DrainingSources? && s.sourceRx != []
    case SourcesDrained => s.phase.DrainingSources? && s.sourceRx == []
    case LoopDrainsAsync => s.phase.DrainingAsync? && s.asyncRx != []
    case AsyncDrained => s.phase.DrainingAsync? && s.asyncRx == []
    case LoopComputed => s.phase.Computing?
  }

  /** The values carried by commands, in order. */
  function Carried(commands: seq<Command>): (items: seq<Item>)
    ensures Tagged(items, false)
  {
    var updates := UpdatesOf(commands);
    seq(|updates|, i requires 0 <= i < |updates| => Item(false, updates[i].0, updates[i].1))
  }

  predicate Tagged(items: seq<Item>, bridged: bool) {
    forall x :: x in items ==> x.bridged == bridged
  }

  function After(shutdown: bool): Phase {
    if shutdown then Stopped else Blocked
  }

  /** The loop handles the first command of its batch. */
  function Handled(s: System): System
    requires s.phase.Handling? && s.phase.rest != []
  {
    var rest, updates, shutdown := s.phase.rest[1..], s.phase.hasUpdates, s.phase.shutdown;
    match s.phase.rest[0]
    case SourceUpdate(id, v) =>
      s.(sourceRx := s.sourceRx + [Item(false, id, v)], phase := Handling(rest, true, shutdown))
    case SourceReady => s.(phase := Handling(rest, true, shutdown))
    case AsyncComplete => s.(phase := Handling(rest, true, shutdown))
    case Shutdown => s.(phase := Handling(rest, updates, true))
    case _ => s.(phase := Handling(rest, updates, shutdown))
  }

  function Next(s: System, ev: Event): System
    requires Enabled(s, ev)
  {
    match ev
    case SourceSends(id, v) =>
      s.(bridgeIn := s.bridgeIn + [Item(true, id, v)], sent := s.sent + [Item(true, id, v)])
    case BridgeTakes => s.(bridge := Holding(s.bridgeIn[0]), bridgeIn := s.bridgeIn[1..])
    case BridgeForwards => s.(sourceRx := s.sourceRx + [s.bridge.item], bridge := Forwarded)
    case BridgeNotifies => s.(commands := s.commands + [SourceReady], bridge := Idle)
    case TaskSends(id, v) =>
      s.(asyncRx := s.asyncRx + [Item(false, id, v)], betweenSends := s.betweenSends + 1,
         finished := s.finished + [Item(false, id, v)])
    case TaskNotifies => s.(commands := s.commands + [AsyncComplete], betweenSends := s.betweenSends - 1)
    case ClientSends(c) =>
      s.(commands := s.commands + [c], issued := s.issued + Carried([c]))
    case LoopReceives => s.(phase := Collecting([s.commands[0]]), commands := s.commands[1..])
    case LoopCollects => s.(phase := Collecting(s.phase.batch + [s.commands[0]]), commands := s.commands[1..])
    case LoopCollected => s.(phase := Handling(s.phase.batch, false, false))
    case LoopHandles => Handled(s)
    case LoopHandled =>
      s.(phase := if s.phase.hasUpdates then DrainingSources(s.phase.shutdown) else After(s.phase.shutdown))
    case LoopDrainsSource => s.(sourceRx := s.sourceRx[1..], drained := s.drained + [s.sourceRx[0]])
    case SourcesDrained => s.(phase := DrainingAsync(s.phase.shutdown))
    case LoopDrainsAsync => s.(asyncRx := s.asyncRx[1..], collected := s.collected + [s.asyncRx[0]])
    case AsyncDrained => s.(phase := Computing(s.phase.shutdown))
    case LoopComputed => s.(phase := After(s.phase.shutdown))
  }

  ghost predicate Run(states: seq<System>, events: seq<Event>) {
    |states| == |events| + 1 && states[0] == START &&
    forall i :: 0 <= i < |events| ==> Enabled(states[i], events[i]) && states[i + 1] == Next(states[i], events[i])
  }

  // ----- no lost wake-up -----

  /** A command that will make the loop run a cycle is queued or in the current batch. */
  ghost predicate WakeOnItsWay(s: System) {
    || (exists c :: c in s.commands && Wakes(c))
    || (s.phase.Collecting? && exists c :: c in s.phase.batch && Wakes(c))
    || (s.phase.Handling? && (s.phase.hasUpdates || exists c :: c in s.phase.rest && Wakes(c)))
  }

  /** Whatever lies in a data channel is being drained, or a wake-up for it is on its way, or
      its sender is about to send one. */
  ghost predicate Attended(s: System) {
    && (s.sourceRx != [] && !s.phase.Stopped? ==>
          s.bridge.Forwarded? || WakeOnItsWay(s) || s.phase.DrainingSources?)
    && (s.asyncRx != [] && !s.phase.Stopped? ==>
          s.betweenSends > 0 || WakeOnItsWay(s) || s.phase.DrainingSources? || s.phase.DrainingAsync?)
  }

  lemma WakeSurvivesQueueing(s: System, t: System, c: Command)
    requires t.commands == s.commands + [c] && t.phase == s.phase
    ensures WakeOnItsWay(s) || Wakes(c) ==> WakeOnItsWay(t)
  {
    assert c in t.commands;
    assert forall x :: x in s.commands ==> x in t.commands;
  }

  lemma WakeSurvivesReceiving(s: System, t: System)
    requires s.commands != [] && t.commands == s.commands[1..] && t.phase.Collecting?
    requires (s.phase.Blocked? && t.phase.batch == [s.commands[0]]) ||
             (s.phase.Collecting? && t.phase.batch == s.phase.batch + [s.commands[0]])
    ensures WakeOnItsWay(s) ==> WakeOnItsWay(t)
  {
    assert s.commands == [s.commands[0]] + s.commands[1..];
    assert s.commands[0] in t.phase.batch;
    assert s.phase.Collecting? ==> forall x :: x in s.phase.batch ==> x in t.phase.batch;
  }

  lemma WakeSurvivesHandling(s: System)
    requires s.phase.Handling? && s.phase.rest != []
    ensures WakeOnItsWay(s) ==> WakeOnItsWay(Handled(s))
    ensures Wakes(s.phase.rest[0]) ==> WakeOnItsWay(Handled(s))
  {
    assert s.phase.rest == [s.phase.rest[0]] + s.phase.rest[1..];
  }

  lemma StepKeepsAttended(s: System, ev: Event)
    requires Attended(s) && Enabled(s, ev)
    ensures Attended(Next(s, ev))
  {
    var t := Next(s, ev);
    match ev
    case BridgeNotifies => WakeSurvivesQueueing(s, t, SourceReady);
    case TaskNotifies => WakeSurvivesQueueing(s, t, AsyncComplete);
    case ClientSends(c) => WakeSurvivesQueueing(s, t, c);
    case LoopReceives => WakeSurvivesReceiving(s, t);
    case LoopCollects => WakeSurvivesReceiving(s, t);
    case LoopHandles => WakeSurvivesHandling(s);
    case _ =>
  }

  // ----- conservation -----

  /** The items of one origin, in order. */
  function From(items: seq<Item>, bridged: bool): seq<Item> {
    if items == [] then [] else
    var init, x := From(items[..|items| - 1], bridged), items[|items| - 1];
    if x.bridged == bridged then init + [x] else init
  }

  lemma FromOne(a: seq<Item>, x: Item, bridged: bool)
    ensures From(a + [x], bridged) == From(a, bridged) + if x.bridged == bridged then [x] else []
  {
    assert (a + [x])[..|a|] == a;
  }

  /** Commands taken out of the channel and not yet handled. */
  function InHand(phase: Phase): seq<Command> {
    match phase
    case Collecting(batch) => batch
    case Handling(rest, _, _) => rest
    case _ => []
  }

  function Held(bridge: Bridge): seq<Item> {
    if bridge.Holding? then [bridge.item] else []
  }

  /** The values the bridge has yet to forward. */
  function InBridge(s: System): seq<Item> {
    Held(s.bridge) + s.bridgeIn
  }

  /** The commands the loop has yet to handle. */
  function Ahead(s: System): seq<Command> {
    InHand(s.phase) + s.commands
  }

  /** The values that have reached the source channel. */
  function Arrived(s: System): seq<Item> {
    s.drained + s.sourceRx
  }

  /** Every value sent is in exactly one place, each sender's values in order. */
  ghost predicate NothingLost(s: System) {
    && Tagged(InBridge(s), true)
    && s.sent == From(Arrived(s), true) + InBridge(s)
    && s.issued == From(Arrived(s), false) + Carried(Ahead(s))
    && s.finished == s.collected + s.asyncRx
  }

  /** A step that moves nothing between the places. */
  lemma QuietStep(s: System, t: System)
    requires NothingLost(s) && Arrived(t) == Arrived(s)
    requires InBridge(t) == InBridge(s) && Carried(Ahead(t)) == Carried(Ahead(s))
    requires t.sent == s.sent && t.issued == s.issued
    requires t.finished == t.collected + t.asyncRx
    ensures NothingLost(t)
  {
  }

  lemma SourceSendsKeepsAll(s: System, x: Item)
    requires NothingLost(s) && x.bridged
    ensures NothingLost(s.(bridgeIn := s.bridgeIn + [x], sent := s.sent + [x]))
  {
    var t := s.(bridgeIn := s.bridgeIn + [x], sent := s.sent + [x]);
    assert InBridge(t) == InBridge(s) + [x];
  }

  /** The first value on the way of its kind arrives. */
  lemma ArrivesInOrder(all: seq<Item>, arrived: seq<Item>, x: Item, rest: seq<Item>)
    requires all == From(arrived, x.bridged) + ([x] + rest)
    ensures all == From(arrived + [x], x.bridged) + rest
  {
    FromOne(arrived, x, x.bridged);
  }

  lemma OthersUnmoved(all: seq<Item>, arrived: seq<Item>, x: Item, rest: seq<Item>, bridged: bool)
    requires all == From(arrived, bridged) + rest && x.bridged != bridged
    ensures all == From(arrived + [x], bridged) + rest
  {
    FromOne(arrived, x, bridged);
  }

  lemma ForwardingKeepsAll(s: System)
    requires NothingLost(s) && s.bridge.Holding?
    ensures NothingLost(Next(s, BridgeForwards))
  {
    var t, x := Next(s, BridgeForwards), s.bridge.item;
    assert InBridge(s) == [x] + InBridge(t);
    assert InBridge(s)[0] == x;
    assert Arrived(t) == Arrived(s) + [x];
    ArrivesInOrder(s.sent, Arrived(s), x, InBridge(t));
    OthersUnmoved(s.issued, Arrived(s), x, Carried(Ahead(s)), false);
  }

  lemma CarriedAppend(a: seq<Command>, b: seq<Command>)
    ensures Carried(a + b) == Carried(a) + Carried(b)
  {
    UpdatesAppend(a, b);
  }

  lemma QueueingKeepsAll(s: System, t: System, c: Command)
    requires NothingLost(s) && Arrived(t) == Arrived(s) && InBridge(t) == InBridge(s)
    requires t.phase == s.phase && t.commands == s.commands + [c]
    requires t.sent == s.sent && t.issued == s.issued + Carried([c]) && t.finished == t.collected + t.asyncRx
    ensures NothingLost(t)
  {
    assert Ahead(t) == Ahead(s) + [c];
    CarriedAppend(Ahead(s), [c]);
  }

  lemma HeadCarried(c: Command, rest: seq<Command>)
    ensures Carried([c] + rest) == (if c.SourceUpdate? then [Item(false, c.id, c.value)] else []) + Carried(rest)
  {
    UpdatesHead(c, rest);
  }

  lemma NothingCarried(c: Command)
    requires !c.SourceUpdate?
    ensures Carried([c]) == []
  {
    HeadCarried(c, []);
    assert [c] + [] == [c];
  }

  lemma HandledPhase(s: System)
    requires s.phase.Handling? && s.phase.rest != []
    ensures
      var c := s.phase.rest[0];
      && Handled(s) == s.(phase := Handled(s).phase, sourceRx := Handled(s).sourceRx)
      && Handled(s).phase ==
         Handling(s.phase.rest[1..], s.phase.hasUpdates || Wakes(c), s.phase.shutdown || c.Shutdown?)
  {
  }

  lemma HandledUpdates(s: System)
    requires s.phase.Handling? && s.phase.rest != []
    ensures Handled(s).sourceRx == s.sourceRx + Carried([s.phase.rest[0]])
  {
    var c := s.phase.rest[0];
    HeadCarried(c, []);
    assert [c] + [] == [c];
  }

  /** The value of a command, if it carries one, arrives behind the other issued ones. */
  lemma CommandArrives(all: seq<Item>, arrived: seq<Item>, c: Command, rest: seq<Item>)
    requires all == From(arrived, false) + (Carried([c]) + rest)
    ensures all == From(arrived + Carried([c]), false) + rest
  {
    HeadCarried(c, []);
    assert [c] + [] == [c] && Carried([]) == [];
    if c.SourceUpdate? {
      ArrivesInOrder(all, arrived, Item(false, c.id, c.value), rest);
    } else {
      assert arrived + [] == arrived && [] + rest == rest;
    }
  }

  lemma CommandMovesNoOther(all: seq<Item>, arrived: seq<Item>, c: Command, rest: seq<Item>)
    requires all == From(arrived, true) + rest
    ensures all == From(arrived + Carried([c]), true) + rest
  {
    HeadCarried(c, []);
    assert [c] + [] == [c] && Carried([]) == [];
    if c.SourceUpdate? {
      OthersUnmoved(all, arrived, Item(false, c.id, c.value), rest, true);
    } else {
      assert arrived + [] == arrived;
    }
  }

  lemma StepLosesNothing(s: System, ev: Event)
    requires NothingLost(s) && Enabled(s, ev)
    ensures NothingLost(Next(s, ev))
  {
    var t := Next(s, ev);
    match ev
    case SourceSends(id, v) => SourceSendsKeepsAll(s, Item(true, id, v));
    case BridgeForwards => ForwardingKeepsAll(s);
    case BridgeNotifies => NothingCarried(SourceReady); QueueingKeepsAll(s, t, SourceReady);
    case TaskNotifies => NothingCarried(AsyncComplete); QueueingKeepsAll(s, t, AsyncComplete);
    case ClientSends(c) => QueueingKeepsAll(s, t, c);
    case LoopHandles =>
      var c := s.phase.rest[0];
      HandledPhase(s);
      HandledUpdates(s);
      assert Ahead(s) == [c] + Ahead(t);
      CarriedAppend([c], Ahead(t));
      Associates(s.drained, s.sourceRx, Carried([c]));
      CommandArrives(s.issued, Arrived(s), c, Carried(Ahead(t)));
      CommandMovesNoOther(s.sent, Arrived(s), c, InBridge(s));
    case _ => QuietStepsAreQuiet(s, ev); QuietStep(s, t);
  }

  lemma QuietStepsAreQuiet(s: System, ev: Event)
    requires s.finished == s.collected + s.asyncRx && Enabled(s, ev)
    requires !ev.SourceSends? && !ev.BridgeForwards? && !ev.BridgeNotifies? && !ev.TaskNotifies? &&
             !ev.ClientSends? && !ev.LoopHandles?
    ensures
      var t := Next(s, ev);
      && Arrived(t) == Arrived(s) && InBridge(t) == InBridge(s) && Ahead(t) == Ahead(s)
      && t.sent == s.sent && t.issued == s.issued && t.finished == t.collected + t.asyncRx
  {
    match ev
    case BridgeTakes => HeadAndTail(s.bridgeIn);
    case LoopReceives => HeadAndTail(s.commands);
    case LoopCollects => HeadMoves(s.phase.batch, s.commands);
    case LoopDrainsSource => HeadMoves(s.drained, s.sourceRx);
    case LoopDrainsAsync => HeadMoves(s.collected, s.asyncRx);
    case _ =>
  }

  lemma HeadAndTail<T>(s: seq<T>)
    requires s != []
    ensures [s[0]] + s[1..] == s
  {
  }

  lemma HeadMoves<T>(a: seq<T>, b: seq<T>)
    requires b != []
    ensures (a + [b[0]]) + b[1..] == a + b
  {
  }

  // ----- all runs -----

  lemma {:induction false} RunIsAttended(states: seq<System>, events: seq<Event>, i: nat)
    requires Run(states, events) && i < |states|
    ensures Attended(states[i]) && NothingLost(states[i])
  {
    if i > 0 {
      RunIsAttended(states, events, i - 1);
      assert Enabled(states[i - 1], events[i - 1]);
      StepKeepsAttended(states[i - 1], events[i - 1]);
      StepLosesNothing(states[i - 1], events[i - 1]);
    }
  }

  /** No lost wake-up: whenever the loop is blocked with no command queued, the bridge has no
      notice left to send and no task is between its two sends, both data channels are empty.
      If moreover the bridge is idle with nothing to take, every value any source, client or
      task ever sent has been drained exactly once, each sender's values in order. */
  lemma NoLostWakeUp(states: seq<System>, events: seq<Event>, i: nat)
    requires Run(states, events) && i < |states|
    requires states[i].phase.Blocked? && states[i].commands == []
    requires !states[i].bridge.Forwarded? && states[i].betweenSends == 0
    ensures states[i].sourceRx == [] && states[i].asyncRx == []
    ensures From(states[i].drained, false) == states[i].issued && states[i].collected == states[i].finished
    ensures states[i].bridge.Idle? && states[i].bridgeIn == [] ==> From(states[i].drained, true) == states[i].sent
  {
    var s := states[i];
    RunIsAttended(states, events, i);
    assert !WakeOnItsWay(s);
    assert Arrived(s) == s.drained;
  }

  // ----- when the loop stops -----

  /** The command that a step of the bridge, a task or a client puts into the channel. */
  function Notice(ev: Event): seq<Command> {
    match ev
    case BridgeNotifies => [SourceReady]
    case TaskNotifies => [AsyncComplete]
    case ClientSends(c) => [c]
    case _ => []
  }

  /** The commands put into the channel so far, in order, as the events alone tell. */
  ghost function Announced(events: seq<Event>, i: nat): seq<Command>
    requires i <= |events|
  {
    if i == 0 then [] else Announced(events, i - 1) + Notice(events[i - 1])
  }

  /** The commands the loop has handled so far, in order. */
  ghost function HandledBy(states: seq<System>, events: seq<Event>, i: nat): seq<Command>
    requires Run(states, events) && i <= |events|
  {
    if i == 0 then [] else
    HandledBy(states, events, i - 1) + if events[i - 1].LoopHandles? then states[i - 1].phase.rest[..1] else []
  }

  lemma StepMovesCommands(s: System, ev: Event)
    requires Enabled(s, ev)
    ensures
      (if ev.LoopHandles? then s.phase.rest[..1] else []) + Ahead(Next(s, ev)) == Ahead(s) + Notice(ev)
  {
    var t := Next(s, ev);
    match ev
    case BridgeNotifies => Associates(InHand(s.phase), s.commands, [SourceReady]);
    case TaskNotifies => Associates(InHand(s.phase), s.commands, [AsyncComplete]);
    case ClientSends(c) => Associates(InHand(s.phase), s.commands, [c]);
    case LoopReceives => HeadAndTail(s.commands);
    case LoopCollects => HeadMoves(s.phase.batch, s.commands);
    case LoopHandles =>
      HandledPhase(s);
      HeadAndTail(s.phase.rest);
      Associates(s.phase.rest[..1], s.phase.rest[1..], s.commands);
    case _ =>
  }

  /** The loop handles every command exactly once, in the order in which they were put into the
      channel: what it has handled, followed by what is ahead of it, is what was announced. */
  lemma {:induction false} HandledInOrder(states: seq<System>, events: seq<Event>, i: nat)
    requires Run(states, events) && i <= |events|
    ensures HandledBy(states, events, i) + Ahead(states[i]) == Announced(events, i)
  {
    if i > 0 {
      HandledInOrder(states, events, i - 1);
      var s, ev := states[i - 1], events[i - 1];
      assert Enabled(s, ev) && states[i] == Next(s, ev);
      StepMovesCommands(s, ev);
      var done := HandledBy(states, events, i - 1);
      Associates(done, if ev.LoopHandles? then s.phase.rest[..1] else [], Ahead(states[i]));
      Associates(done, Ahead(s), Notice(ev));
    }
  }

  /** The loop is between two commands or results of one turn. */
  predicate InTurn(phase: Phase) {
    phase.Handling? || phase.DrainingSources? || phase.DrainingAsync? || phase.Computing?
  }

  /** The step ends a turn: the batch is handled and calls for no cycle, or the cycle is done. */
  predicate EndsTurn(s: System, ev: Event) {
    ev.LoopComputed? || (ev.LoopHandled? && s.phase.Handling? && !s.phase.hasUpdates)
  }

  /** What the loop remembers, in its phase, of a shutdown it has handled. */
  ghost predicate Remembers(phase: Phase, shutdown: bool) {
    match phase
    case Blocked => !shutdown
    case Collecting(_) => !shutdown
    case Handling(_, _, flag) => flag == shutdown
    case DrainingSources(flag) => flag == shutdown
    case DrainingAsync(flag) => flag == shutdown
    case Computing(flag) => flag == shutdown
    case Stopped => shutdown
  }

  lemma {:induction false} ShutdownIsRemembered(states: seq<System>, events: seq<Event>, i: nat)
    requires Run(states, events) && i <= |events|
    ensures Remembers(states[i].phase, Shutdown in HandledBy(states, events, i))
  {
    if i > 0 {
      ShutdownIsRemembered(states, events, i - 1);
      var s, ev := states[i - 1], events[i - 1];
      assert Enabled(s, ev) && states[i] == Next(s, ev);
      if ev.LoopHandles? {
        HandledPhase(s);
        assert s.phase.rest[..1] == [s.phase.rest[0]];
      }
    }
  }

  /** The loop has stopped if and only if it has handled a shutdown and the turn is over; until
      then, a turn that ends goes back to waiting. */
  lemma StoppedIffShutdown(states: seq<System>, events: seq<Event>, i: nat)
    requires Run(states, events) && i <= |events|
    ensures states[i].phase.Stopped? <==>
            Shutdown in HandledBy(states, events, i) && !InTurn(states[i].phase)
    ensures i < |events| && EndsTurn(states[i], events[i]) ==>
              states[i + 1].phase == if Shutdown in HandledBy(states, events, i) then Stopped else Blocked
  {
    ShutdownIsRemembered(states, events, i);
    if i < |events| && EndsTurn(states[i], events[i]) {
      ShutdownIsRemembered(states, events, i + 1);
      assert Enabled(states[i], events[i]) && states[i + 1] == Next(states[i], events[i]);
    }
  }

  /** Nothing but a client's shutdown stops the loop. */
  lemma {:induction false} ShutdownWasSent(events: seq<Event>, i: nat) returns (k: nat)
    requires i <= |events| && Shutdown in Announced(events, i)
    ensures k < i && events[k] == ClientSends(Shutdown)
  {
    if events[i - 1] == ClientSends(Shutdown) {
      k := i - 1;
    } else {
      k := ShutdownWasSent(events, i - 1);
    }
  }

  lemma OnlyClientsStop(states: seq<System>, events: seq<Event>, i: nat)
    requires Run(states, events) && i <= |events|
    requires forall k :: 0 <= k < i ==> events[k] != ClientSends(Shutdown)
    ensures !states[i].phase.Stopped?
  {
    StoppedIffShutdown(states, events, i);
    HandledInOrder(states, events, i);
    if Shutdown in HandledBy(states, events, i) {
      assert Shutdown in Announced(events, i);
      var k := ShutdownWasSent(events, i);
    }
  }

  // ----- a whole batch -----

  /** The loop handles its whole batch, undisturbed. */
  function HandledAll(s: System): System
    requires s.phase.Handling?
    decreases |s.phase.rest|
  {
    if s.phase.rest == [] then s else HandledAll(Handled(s))
  }

  lemma {:induction false} HandlingIsARun(states: seq<System>, events: seq<Event>)
    returns (states': seq<System>, events': seq<Event>)
    requires Run(states, events) && states[|events|].phase.Handling?
    ensures Run(states', events') && states <= states' && states'[|events'|] == HandledAll(states[|events|])
    decreases |states[|events|].phase.rest|
  {
    var s := states[|events|];
    if s.phase.rest == [] {
      states', events' := states, events;
    } else {
      var longer, evs := states + [Handled(s)], events + [LoopHandles];
      forall i | 0 <= i < |evs| ensures Enabled(longer[i], evs[i]) && longer[i + 1] == Next(longer[i], evs[i]) {
        if i < |events| {
          assert longer[i] == states[i] && longer[i + 1] == states[i + 1] && evs[i] == events[i];
        }
      }
      states', events' := HandlingIsARun(longer, evs);
    }
  }

  /** What a turn of the loop does with its batch. */
  ghost function BatchEffect(s: System): System
    requires s.phase.Handling?
  {
    var batch := s.phase.rest;
    s.(sourceRx := s.sourceRx + Carried(batch),
       phase := Handling([], s.phase.hasUpdates || AnyWakes(batch), s.phase.shutdown || Shutdown in batch))
  }

  /** Handling a batch step by step adds up to what a turn of the loop does with it: its updates
      join the source channel in order, a cycle is due if and only if some command announces a
      value, and the loop stops if and only if the batch contains a shutdown. */
  lemma {:induction false} BatchHandled(s: System)
    requires s.phase.Handling?
    ensures HandledAll(s) == BatchEffect(s)
    decreases |s.phase.rest|
  {
    if s.phase.rest == [] {
      assert s.sourceRx + Carried([]) == s.sourceRx;
    } else {
      BatchHandled(Handled(s));
      OneHandled(s);
    }
  }

  lemma OneHandled(s: System)
    requires s.phase.Handling? && s.phase.rest != []
    ensures BatchEffect(Handled(s)) == BatchEffect(s)
  {
    var c, rest := s.phase.rest[0], s.phase.rest[1..];
    FirstOrLater(s.phase.rest);
    HandledPhase(s);
    HandledUpdates(s);
    CarriedAppend([c], rest);
    Associates(s.sourceRx, Carried([c]), Carried(rest));
  }

  lemma FirstOrLater(batch: seq<Command>)
    requires batch != []
    ensures batch == [batch[0]] + batch[1..]
    ensures AnyWakes(batch) <==> Wakes(batch[0]) || AnyWakes(batch[1..])
    ensures Shutdown in batch <==> batch[0].Shutdown? || Shutdown in batch[1..]
  {
  }
}
