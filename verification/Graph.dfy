/** The node registry, the value store and the source channel (src/graph.rs,
    src/value_store.rs). */
module Graphs {
  import opened Nodes
  import opened Propagation
  import opened Lifecycle

  class Graph {
    var entries: Entries
    var values: Store
    /** Source values sent and not yet drained, oldest first. */
    var sourceQueue: Outputs
    /** What sinks have been called with so far: the observable output. */
    var emitted: Outputs

    constructor ()
      ensures entries == map[] && values == map[] && sourceQueue == [] && emitted == []
    {
      entries, values, sourceQueue, emitted := map[], map[], [], [];
    }

    /** Registers a node, or counts one more reference to it. */
    method RegisterNode(id: NodeId, kind: NodeKind, deps: seq<NodeId>, impl: NodeImpl) returns (isNew: bool)
      modifies this`entries
      ensures entries == WithNode(old(entries), id, kind, deps, impl)
      ensures isNew <==> id !in old(entries)
      ensures isNew ==> entries == old(entries)[id := Entry(kind, deps, 1, impl)]
      ensures !isNew ==> entries == old(entries)[id := old(entries[id]).(refCount := old(entries[id]).refCount + 1)]
    {
      if id in entries {
        var entry := entries[id];
        entries := entries[id := entry.(refCount := entry.refCount + 1)];
        return false;
      }
      entries := entries[id := Entry(kind, deps, 1, impl)];
      return true;
    }

    /** A source's sender. */
    method Send(id: NodeId, value: Value)
      modifies this`sourceQueue
      ensures sourceQueue == old(sourceQueue) + [(id, value)]
    {
      sourceQueue := sourceQueue + [(id, value)];
    }

    /** Calls a sink with what it reads from the store. */
    method Emit(id: NodeId)
      requires id in entries
      modifies this`emitted
      ensures emitted == old(emitted) + if Answer(entries, values, id).Some?
                                        then [(id, Answer(entries, values, id).value)] else []
    {
      var payload := entries[id].impl.run(Args(values, entries[id].deps));
      if payload.Some? {
        emitted := emitted + [(id, payload.value)];
      }
    }
  }
}
