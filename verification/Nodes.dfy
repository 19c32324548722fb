/** The vocabulary shared by every component: node identities, registry entries and the
    value store (src/graph.rs, src/node_ref.rs, src/value_store.rs, src/error.rs). */
module Nodes {

  datatype Option<+T> = None | Some(value: T)

  /** A node identity; the program only ever compares two of them. */
  type NodeId(==, !new)

  /** A boxed value: a node's output, or the payload handed to a sink or a future. */
  type Value(==, !new)

  datatype NodeKind = Source | Compute | Sink | AsyncCompute

  datatype ErrorStrategy = PropagateStale | PropagateError | Retry(maxAttempts: nat)

  /** The debounce delay is wall-clock time and is not modelled. */
  datatype AsyncPolicy = LatestWins | Queue | Debounce

  /** A type-erased node implementation. `run` sees, for each dependency in order, its value
      if it has one; it answers a compute node's result, a sink's emission, or an async
      node's future (represented by what the future will deliver). `guarded` says whether
      activating a source hands back a guard. */
  datatype NodeImpl = NodeImpl(run: seq<Option<Value>> -> Option<Value>, guarded: bool,
                               policy: AsyncPolicy, group: Option<nat>)

  datatype Entry = Entry(kind: NodeKind, deps: seq<NodeId>, refCount: nat, impl: NodeImpl)

  datatype Descriptor = Descriptor(id: NodeId, kind: NodeKind, deps: seq<NodeId>, impl: NodeImpl)

  /** A built subgraph: one descriptor per node, and an id per registration. */
  datatype Subgraph = Subgraph(descriptors: seq<Descriptor>, nodeIds: seq<NodeId>)

  type Store = map<NodeId, Value>

  function Get(store: Store, id: NodeId): Option<Value> {
    if id in store then Some(store[id]) else None
  }

  /** What a node implementation reads from the store. */
  function Args(store: Store, deps: seq<NodeId>): (args: seq<Option<Value>>)
    ensures |args| == |deps|
    ensures forall i :: 0 <= i < |deps| ==> args[i] == Get(store, deps[i])
  {
    seq(|deps|, i requires 0 <= i < |deps| => Get(store, deps[i]))
  }

  predicate AllPresent(store: Store, deps: seq<NodeId>) {
    forall d :: d in deps ==> d in store
  }

  /** The contract of every built-in compute node: a result exactly when each dependency
      has a value. */
  ghost predicate Strict(impl: NodeImpl) {
    forall args: seq<Option<Value>> :: impl.run(args).Some? <==> forall i :: 0 <= i < |args| ==> args[i].Some?
  }

  lemma ArgsAgree(s: Store, t: Store, deps: seq<NodeId>)
    requires forall d :: d in deps ==> Get(s, d) == Get(t, d)
    ensures Args(s, deps) == Args(t, deps)
  {
    assert forall i :: 0 <= i < |deps| ==> deps[i] in deps;
  }

  lemma StrictResult(impl: NodeImpl, s: Store, deps: seq<NodeId>)
    requires Strict(impl)
    ensures impl.run(Args(s, deps)).Some? <==> AllPresent(s, deps)
  {
    var args := Args(s, deps);
    if AllPresent(s, deps) {
      forall i | 0 <= i < |args| ensures args[i].Some? {
        assert deps[i] in deps;
      }
    } else {
      var d :| d in deps && d !in s;
      var i :| 0 <= i < |deps| && deps[i] == d;
      assert args[i].None?;
    }
  }

  lemma Associates<T>(a: seq<T>, b: seq<T>, c: seq<T>)
    ensures a + b + c == a + (b + c)
  {
  }

  // ----- sequences used as ordered sets -----

  function Elems(s: seq<NodeId>): (r: set<NodeId>)
    ensures forall x :: x in r <==> x in s
  {
    set x | x in s
  }

  ghost predicate NoDup(s: seq<NodeId>) {
    forall i, j :: 0 <= i < j < |s| ==> s[i] != s[j]
  }
}
