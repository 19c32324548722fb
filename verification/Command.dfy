/** The commands of the event loop (src/command.rs). */
module Commands {
  import opened Nodes

  /** The reply channel of a merge is not modelled. */
  datatype Command =
    | SourceUpdate(id: NodeId, value: Value)
    | Merge(subgraph: Subgraph)
    | Remove(nodeIds: seq<NodeId>)
    | AsyncComplete
    | SourceReady
    | Shutdown

  /** The command announces a value, so the loop must run a cycle. */
  predicate Wakes(c: Command) {
    c.SourceUpdate? || c.AsyncComplete? || c.SourceReady?
  }

  /** The source updates among the commands, in order. */
  function UpdatesOf(commands: seq<Command>): seq<(NodeId, Value)> {
    if commands == [] then [] else
    UpdateOf(commands[0]) + UpdatesOf(commands[1..])
  }

  ghost predicate AnyWakes(commands: seq<Command>) {
    exists c :: c in commands && Wakes(c)
  }

  function UpdateOf(c: Command): seq<(NodeId, Value)> {
    if c.SourceUpdate? then [(c.id, c.value)] else []
  }

  /** A batch carries the values of its source updates, and no others; a batch in two parts
      carries what the parts carry, in order. */
  lemma UpdatesInParts(a: seq<Command>, c: Command, b: seq<Command>)
    ensures UpdatesOf(a + [c] + b) == UpdatesOf(a) + (if c.SourceUpdate? then [(c.id, c.value)] else []) + UpdatesOf(b)
  {
    UpdatesAppend(a + [c], b);
    UpdatesAppend(a, [c]);
    UpdatesHead(c, []);
    assert [c] + [] == [c];
  }

  lemma UpdatesHead(c: Command, rest: seq<Command>)
    ensures UpdatesOf([c] + rest) == UpdateOf(c) + UpdatesOf(rest)
  {
    assert ([c] + rest)[1..] == rest;
  }

  lemma {:induction false} UpdatesAppend(a: seq<Command>, b: seq<Command>)
    ensures UpdatesOf(a + b) == UpdatesOf(a) + UpdatesOf(b)
  {
    if a == [] {
      assert a + b == b;
    } else {
      var c, rest := a[0], a[1..];
      assert a == [c] + rest;
      UpdatesAppend(rest, b);
      Associates([c], rest, b);
      UpdatesHead(c, rest + b);
      UpdatesHead(c, rest);
      Associates(UpdateOf(c), UpdatesOf(rest), UpdatesOf(b));
    }
  }

  lemma {:induction false} NoUpdates(commands: seq<Command>)
    requires forall c :: c in commands ==> !Wakes(c)
    ensures UpdatesOf(commands) == []
  {
    if commands != [] {
      assert commands[0] in commands;
      NoUpdates(commands[1..]);
    }
  }
}
