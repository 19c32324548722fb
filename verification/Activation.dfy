/** Recursive activation (src/engine.rs, `activate_node`): which nodes it reaches, what it
    adds to the topology, and which values it computes. */
module Activation {
  import opened Nodes
  import opened Topologies
  import opened Propagation
  import opened CycleLaws
  import opened Lifecycle

  // ----- reachability -----

  /** `p` leads from `from` to `n` along dependencies, through registered inactive nodes. */
  ghost predicate InactivePath(s: State, from: NodeId, n: NodeId, p: seq<NodeId>) {
    && |p| >= 1 && p[0] == from && p[|p| - 1] == n
    && (forall i :: 0 <= i < |p| ==> p[i] in s.entries && p[i] !in s.active)
    && (forall i, j :: 0 <= i && i + 1 == j < |p| ==> p[i] in s.entries && p[j] in s.entries[p[i]].deps)
  }

  ghost predicate Reaches(s: State, from: NodeId, n: NodeId) {
    exists p :: InactivePath(s, from, n, p)
  }

  lemma ReachesSelf(s: State, id: NodeId)
    requires id in s.entries && id !in s.active
    ensures Reaches(s, id, id)
  {
    assert InactivePath(s, id, id, [id]);
  }

  /** What a dependency reaches later, the node itself reached to begin with. */
  lemma ReachesThrough(s: State, t: State, id: NodeId, d: NodeId, n: NodeId)
    requires id in s.entries && id !in s.active && d in s.entries[id].deps
    requires t.entries == s.entries && s.active <= t.active && Reaches(t, d, n)
    ensures Reaches(s, id, n)
  {
    var p :| InactivePath(t, d, n, p);
    assert InactivePath(s, id, n, [id] + p);
  }

  /** Every registered dependency of a newly active node is active. */
  ghost predicate ClosedUnderDeps(s: State, added: set<NodeId>, active: set<NodeId>) {
    forall n, d :: n in added && n in s.entries && d in s.entries[n].deps && d in s.entries ==> d in active
  }

  lemma {:induction false} PathIsActivated(s: State, active: set<NodeId>, from: NodeId, n: NodeId, p: seq<NodeId>)
    requires InactivePath(s, from, n, p) && from in active && ClosedUnderDeps(s, active - s.active, active)
    ensures n in active
    decreases |p|
  {
    if |p| > 1 {
      assert InactivePath(s, p[1], n, p[1..]);
      assert p[1] in active;
      PathIsActivated(s, active, p[1], n, p[1..]);
    }
  }

  // ----- growth of the topology -----

  /** References to `m` in the dependency list of `n`. */
  ghost function RefsTo(entries: Entries, n: NodeId, m: NodeId): nat {
    if n in entries then multiset(entries[n].deps)[m] else 0
  }

  /** A list of dependents may only have been created for a new node or a dependency of one. */
  ghost predicate Mentioned(entries: Entries, added: set<NodeId>, m: NodeId) {
    m in added || exists n :: n in added && n in entries && m in entries[n].deps
  }

  /** The nodes in `added` entered the topology with their dependencies. */
  ghost predicate ForwardGrown(entries: Entries, e: Edges, f: Edges, added: set<NodeId>) {
    && f.deps.Keys == e.deps.Keys + added
    && (forall n :: n in f.deps ==> f.deps[n] == if n in added && n in entries then entries[n].deps else e.Deps(n))
  }

  /** Their reverse edges were added exactly once, with multiplicity, behind the existing
      ones. */
  ghost predicate BackwardGrown(entries: Entries, e: Edges, f: Edges, added: set<NodeId>) {
    && (forall m, n :: multiset(f.Dependents(m))[n] ==
          multiset(e.Dependents(m))[n] + if n in added then RefsTo(entries, n, m) else 0)
    && (forall m :: e.Dependents(m) <= f.Dependents(m))
    && e.dependents.Keys <= f.dependents.Keys
    && (forall m :: m in f.dependents && m !in e.dependents ==> Mentioned(entries, added, m))
  }

  ghost predicate EdgesGrown(entries: Entries, e: Edges, f: Edges, added: set<NodeId>) {
    ForwardGrown(entries, e, f, added) && BackwardGrown(entries, e, f, added)
  }

  lemma PrefixTransitive(a: seq<NodeId>, b: seq<NodeId>, c: seq<NodeId>)
    requires a <= b <= c
    ensures a <= c
  {
    assert forall i :: 0 <= i < |a| ==> a[i] == b[i] == c[i];
  }

  lemma BackwardGrownTwice(entries: Entries, e: Edges, f: Edges, g: Edges, a: set<NodeId>, b: set<NodeId>)
    requires BackwardGrown(entries, e, f, a) && BackwardGrown(entries, f, g, b) && a !! b
    ensures BackwardGrown(entries, e, g, a + b)
  {
    forall m ensures e.Dependents(m) <= g.Dependents(m) {
      PrefixTransitive(e.Dependents(m), f.Dependents(m), g.Dependents(m));
    }
    forall m | m in g.dependents && m !in e.dependents ensures Mentioned(entries, a + b, m) {
      assert Mentioned(entries, a, m) || Mentioned(entries, b, m);
    }
  }

  lemma ForwardGrownTwice(entries: Entries, e: Edges, f: Edges, g: Edges, a: set<NodeId>, b: set<NodeId>)
    requires ForwardGrown(entries, e, f, a) && ForwardGrown(entries, f, g, b) && a !! b
    ensures ForwardGrown(entries, e, g, a + b)
  {
  }

  lemma EdgesGrownTwice(entries: Entries, e: Edges, f: Edges, g: Edges, a: set<NodeId>, b: set<NodeId>)
    requires EdgesGrown(entries, e, f, a) && EdgesGrown(entries, f, g, b) && a !! b
    ensures EdgesGrown(entries, e, g, a + b)
  {
    ForwardGrownTwice(entries, e, f, g, a, b);
    BackwardGrownTwice(entries, e, f, g, a, b);
  }

  lemma {:induction false} PushedIsPrefix(before: seq<NodeId>, id: NodeId, ds: seq<NodeId>, x: NodeId)
    ensures before <= Pushed(before, id, ds, x)
  {
    if ds != [] {
      PushedIsPrefix(before, id, ds[..|ds| - 1], x);
    }
  }

  lemma EdgesGrownOnce(entries: Entries, e: Edges, id: NodeId)
    requires id in entries
    ensures EdgesGrown(entries, e, Added(e, id, entries[id].deps), {id})
  {
    var f := Added(e, id, entries[id].deps);
    forall m ensures e.Dependents(m) <= f.Dependents(m) {
      PushedIsPrefix(e.Dependents(m), id, entries[id].deps, m);
    }
    forall m, n ensures multiset(f.Dependents(m))[n] ==
                        multiset(e.Dependents(m))[n] + if n in {id} then RefsTo(entries, n, m) else 0
    {
      AddedEdge(e, id, entries[id].deps, m, n);
    }
    forall m | m in f.dependents && m !in e.dependents ensures Mentioned(entries, {id}, m) {
      assert id in {id};
    }
  }

  /** From `s` to `t` some nodes were activated: their edges were added; guarded sources among
      them got their guards; only compute nodes among them can have got a value. */
  ghost predicate Grown(s: State, t: State) {
    && t.entries == s.entries && t.strategies == s.strategies && s.active <= t.active
    && EdgesGrown(s.entries, s.edges, t.edges, t.active - s.active)
    && (forall g :: g in t.guards <==>
          g in s.guards || (g in t.active - s.active && IsKind(s.entries, g, Source) && s.entries[g].impl.guarded))
    && (forall n :: Get(t.store, n) != Get(s.store, n) ==> n in t.active - s.active && IsKind(s.entries, n, Compute))
  }

  lemma GrownSelf(s: State)
    ensures Grown(s, s)
  {
  }

  lemma GrownTwice(s: State, t: State, u: State)
    requires Grown(s, t) && Grown(t, u)
    ensures Grown(s, u)
  {
    EdgesGrownTwice(s.entries, s.edges, t.edges, u.edges, t.active - s.active, u.active - t.active);
    assert (t.active - s.active) + (u.active - t.active) == u.active - s.active;
  }

  /** The state right after a node has entered the topology, before its dependencies. */
  ghost function Entered(s: State, id: NodeId): State
    requires id in s.entries
  {
    s.(edges := Added(s.edges, id, s.entries[id].deps), active := s.active + {id})
  }

  lemma EnteredKeepsInvariant(s: State, id: NodeId)
    requires Invariant(s) && id in s.entries && id !in s.active
    ensures Invariant(Entered(s, id))
  {
    AddedEdges(s.edges, id, s.entries[id].deps);
  }

  /** What remains to be done when the dependencies are active: the guard, the first value. */
  ghost predicate Finished(u: State, t: State, id: NodeId) {
    && t.entries == u.entries && t.strategies == u.strategies && t.active == u.active && t.edges == u.edges
    && t.guards == (if IsKind(u.entries, id, Source) && u.entries[id].impl.guarded then u.guards + {id} else u.guards)
    && (forall n :: Get(t.store, n) != Get(u.store, n) ==> n == id && IsKind(u.entries, id, Compute))
  }

  lemma GrownAltogether(s: State, u: State, t: State, id: NodeId)
    requires Invariant(s) && id in s.entries && id !in s.active
    requires Grown(Entered(s, id), u) && Invariant(u) && Finished(u, t, id)
    ensures Grown(s, t) && Invariant(t)
  {
    EdgesGrownOnce(s.entries, s.edges, id);
    EdgesGrownTwice(s.entries, s.edges, Entered(s, id).edges, u.edges, {id}, u.active - (s.active + {id}));
    assert {id} + (u.active - (s.active + {id})) == t.active - s.active;
  }

  // ----- values -----

  /** `rank` witnesses that registered dependencies are registered and form no cycle. */
  ghost predicate Acyclic(entries: Entries, rank: map<NodeId, nat>) {
    entries.Keys <= rank.Keys &&
    forall n, d :: n in entries && d in entries[n].deps ==> d in entries && rank[d] < rank[n]
  }

  ghost predicate AllStrict(entries: Entries) {
    forall n :: IsKind(entries, n, Compute) ==> Strict(entries[n].impl)
  }

  /** Every active node outside `pending`, the nodes whose activation has not finished, has
      settled dependencies and, if it computes, the value they call for. */
  ghost predicate SettledExcept(s: State, pending: set<NodeId>) {
    forall n :: n in s.active - pending && n in s.entries ==>
      && (forall d :: d in s.entries[n].deps ==> d in s.active - pending)
      && (s.entries[n].kind == Compute ==> Get(s.store, n) == Answer(s.entries, s.store, n))
  }

  /** Compute nodes get values only by being active. */
  ghost predicate InactiveEmpty(s: State, pending: set<NodeId>) {
    forall n :: IsKind(s.entries, n, Compute) && (n !in s.active || n in pending) ==> n !in s.store
  }

  /** The situation in which `id` may be activated while `pending` are being activated. */
  ghost predicate Orderly(s: State, rank: map<NodeId, nat>, pending: set<NodeId>, id: NodeId) {
    && Acyclic(s.entries, rank) && AllStrict(s.entries) && pending <= s.active
    && id in s.entries && (forall p :: p in pending ==> p in s.entries && rank[id] < rank[p])
    && SettledExcept(s, pending) && InactiveEmpty(s, pending)
  }

  /** The first value of a compute node: computed only if all dependencies have values. */
  function FirstValue(entries: Entries, store: Store, id: NodeId): Store
    requires id in entries
  {
    if entries[id].kind == Compute && AllPresent(store, entries[id].deps) && Answer(entries, store, id).Some?
    then store[id := Answer(entries, store, id).value]
    else store
  }

  lemma FinishedIsSettled(u: State, t: State, rank: map<NodeId, nat>, pending: set<NodeId>, id: NodeId)
    requires Acyclic(u.entries, rank) && AllStrict(u.entries) && id in u.active && id in u.entries && id !in pending
    requires SettledExcept(u, pending + {id}) && InactiveEmpty(u, pending + {id})
    requires forall d :: d in u.entries[id].deps ==> d in u.active - (pending + {id})
    requires Finished(u, t, id) && t.store == FirstValue(u.entries, u.store, id)
    ensures SettledExcept(t, pending) && InactiveEmpty(t, pending)
  {
    forall n | n in t.active - pending && n in t.entries && t.entries[n].kind == Compute
      ensures Get(t.store, n) == Answer(t.entries, t.store, n)
    {
      assert id !in t.entries[n].deps;
      AnswerKept(u.entries, u.store, t.store, n);
      if n == id {
        StrictResult(u.entries[id].impl, u.store, u.entries[id].deps);
      }
    }
  }

  // ----- one call of the recursion -----

  /** What activating `id` does: it grows the state by nodes that `id` reaches, among them
      `id` itself, until no registered dependency of a new node is inactive. */
  ghost predicate ActivationEffect(s: State, t: State, id: NodeId) {
    && Grown(s, t)
    && (id in s.entries ==> id in t.active)
    && ClosedUnderDeps(s, t.active - s.active, t.active)
    && (forall n :: n in t.active - s.active ==> Reaches(s, id, n))
  }

  ghost predicate Activated(s: State, t: State, id: NodeId) {
    Invariant(t) && ActivationEffect(s, t, id)
  }

  /** Activation activates exactly the nodes reachable through registered inactive nodes. */
  lemma ActivatesExactlyReachable(s: State, t: State, id: NodeId)
    requires ActivationEffect(s, t, id)
    ensures forall n :: n in t.active <==> n in s.active || Reaches(s, id, n)
  {
    forall n | Reaches(s, id, n) ensures n in t.active {
      var p :| InactivePath(s, id, n, p);
      assert p[0] in s.entries;
      PathIsActivated(s, t.active, id, n, p);
    }
  }

  lemma GrownLink(entries: Entries, e: Edges, f: Edges, added: set<NodeId>, m: NodeId, n: NodeId)
    requires e.Coherent() && EdgesGrown(entries, e, f, added)
    requires added !! e.deps.Keys && added <= entries.Keys && f.Linked(m, n)
    ensures m in f.Deps(n) && multiset(f.Dependents(m))[n] == multiset(f.Deps(n))[m]
  {
    assert n in multiset(f.Dependents(m));
    if n in added {
      assert !e.Linked(m, n);
      assert n !in multiset(e.Dependents(m));
      assert m in multiset(entries[n].deps);
    } else {
      assert n in multiset(e.Dependents(m));
      assert e.Linked(m, n);
    }
  }

  lemma GrownKeepsCoherence(s: State, t: State)
    requires Invariant(s) && Grown(s, t) && t.active - s.active <= s.entries.Keys
    ensures t.edges.Coherent()
  {
    forall m, n | t.edges.Linked(m, n)
      ensures m in t.edges.Deps(n) && multiset(t.edges.Dependents(m))[n] == multiset(t.edges.Deps(n))[m]
    {
      GrownLink(s.entries, s.edges, t.edges, t.active - s.active, m, n);
    }
  }

  /** Whatever has the effect of an activation keeps the lifecycle invariant. */
  lemma ActivationKeepsInvariant(s: State, t: State, id: NodeId)
    requires Invariant(s) && ActivationEffect(s, t, id)
    ensures Invariant(t)
  {
    forall n | n in t.active - s.active ensures n in s.entries {
      var p :| InactivePath(s, id, n, p);
    }
    GrownKeepsCoherence(s, t);
  }

  /** Half-way: `id` has entered and its first `k` dependencies are dealt with. */
  ghost predicate Activating(s: State, u: State, id: NodeId, k: nat) {
    && id in s.entries && id !in s.active && k <= |s.entries[id].deps|
    && Invariant(u) && Grown(Entered(s, id), u)
    && (forall j :: 0 <= j < k && s.entries[id].deps[j] in s.entries ==> s.entries[id].deps[j] in u.active)
    && ClosedUnderDeps(s, u.active - s.active - {id}, u.active)
    && (forall n :: n in u.active - s.active ==> Reaches(s, id, n))
  }

  /** The values are settled, if activating `id` was in order to begin with. */
  ghost predicate ValuesSettled(s: State, t: State, pending: set<NodeId>, id: NodeId, still: set<NodeId>) {
    (exists rank :: Orderly(s, rank, pending, id)) ==> SettledExcept(t, still) && InactiveEmpty(t, still)
  }

  lemma NothingToActivate(s: State, id: NodeId)
    requires Invariant(s) && (id in s.active || id !in s.entries)
    ensures Activated(s, s, id)
  {
    GrownSelf(s);
  }

  lemma ActivatingStarts(s: State, id: NodeId)
    requires Invariant(s) && id in s.entries && id !in s.active
    ensures Activating(s, Entered(s, id), id, 0)
  {
    EnteredKeepsInvariant(s, id);
    GrownSelf(Entered(s, id));
    ReachesSelf(s, id);
  }

  lemma ValuesAtStart(s: State, id: NodeId, pending: set<NodeId>)
    requires id in s.entries && id !in s.active
    ensures ValuesSettled(s, Entered(s, id), pending, id, pending + {id})
  {
  }

  lemma NextIsOrderly(s: State, u: State, id: NodeId, d: NodeId, rank: map<NodeId, nat>, pending: set<NodeId>)
    requires Orderly(s, rank, pending, id) && d in s.entries[id].deps
    requires u.entries == s.entries && s.active + {id} <= u.active
    requires SettledExcept(u, pending + {id}) && InactiveEmpty(u, pending + {id})
    ensures Orderly(u, rank, pending + {id}, d)
  {
    assert rank[d] < rank[id];
  }

  lemma ActivatingStep(s: State, u: State, v: State, id: NodeId, k: nat)
    requires Activating(s, u, id, k) && k < |s.entries[id].deps|
    requires Activated(u, v, s.entries[id].deps[k])
    ensures Activating(s, v, id, k + 1)
  {
    var d := s.entries[id].deps[k];
    GrownTwice(Entered(s, id), u, v);
    forall n | n in v.active - s.active ensures Reaches(s, id, n) {
      if n !in u.active {
        ReachesThrough(s, u, id, d, n);
      }
    }
  }

  lemma ValuesStep(s: State, u: State, v: State, id: NodeId, k: nat, pending: set<NodeId>)
    requires id in s.entries && k < |s.entries[id].deps| && u.entries == s.entries && s.active + {id} <= u.active
    requires ValuesSettled(s, u, pending, id, pending + {id})
    requires ValuesSettled(u, v, pending + {id}, s.entries[id].deps[k], pending + {id})
    ensures ValuesSettled(s, v, pending, id, pending + {id})
  {
    if rank :| Orderly(s, rank, pending, id) {
      NextIsOrderly(s, u, id, s.entries[id].deps[k], rank, pending);
    }
  }

  lemma ActivatingEnds(s: State, u: State, t: State, id: NodeId)
    requires Invariant(s) && Activating(s, u, id, if id in s.entries then |s.entries[id].deps| else 0)
    requires Finished(u, t, id)
    ensures Activated(s, t, id)
  {
    GrownAltogether(s, u, t, id);
    AllDepsActive(s, u, id);
  }

  lemma AllDepsActive(s: State, u: State, id: NodeId)
    requires id in s.entries && Activating(s, u, id, |s.entries[id].deps|)
    ensures forall d :: d in s.entries[id].deps && d in s.entries ==> d in u.active
  {
    forall d | d in s.entries[id].deps && d in s.entries ensures d in u.active {
      var j :| 0 <= j < |s.entries[id].deps| && s.entries[id].deps[j] == d;
    }
  }

  lemma ValuesAtEnd(s: State, u: State, t: State, id: NodeId, pending: set<NodeId>)
    requires id in s.entries && id !in s.active && u.entries == s.entries && s.active + {id} <= u.active
    requires forall d :: d in s.entries[id].deps && d in s.entries ==> d in u.active
    requires ValuesSettled(s, u, pending, id, pending + {id})
    requires Finished(u, t, id) && t.store == FirstValue(u.entries, u.store, id)
    ensures ValuesSettled(s, t, pending, id, pending)
  {
    if rank :| Orderly(s, rank, pending, id) {
      FinishedIsSettled(u, t, rank, pending, id);
    }
  }
}
