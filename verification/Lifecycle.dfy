/** Registration, activation and reference-counted removal as changes of one abstract engine
    state (src/graph.rs, src/engine.rs, src/subgraph.rs). */
module Lifecycle {
  import opened Nodes
  import opened Topologies
  import opened Propagation

  datatype State = State(entries: Entries, edges: Edges, active: set<NodeId>, guards: set<NodeId>,
                         store: Store, strategies: Strategies)

  /** What every interleaving of lifecycle operations keeps. */
  ghost predicate Invariant(s: State) {
    && s.edges.deps.Keys == s.active && s.active <= s.entries.Keys
    && (forall n :: n in s.active ==> s.edges.deps[n] == s.entries[n].deps)
    && (forall g :: g in s.guards ==> g in s.active && IsKind(s.entries, g, Source))
    && s.edges.Coherent()
    && Counted(s.entries)
  }

  /** Every registered node is held by someone. */
  ghost predicate Counted(entries: Entries) {
    forall n :: n in entries ==> entries[n].refCount >= 1
  }

  // ----- registration -----

  function WithNode(entries: Entries, id: NodeId, kind: NodeKind, deps: seq<NodeId>, impl: NodeImpl): Entries {
    if id in entries
    then entries[id := entries[id].(refCount := entries[id].refCount + 1)]
    else entries[id := Entry(kind, deps, 1, impl)]
  }

  function Registered(s: State, id: NodeId, kind: NodeKind, deps: seq<NodeId>, impl: NodeImpl): State {
    s.(entries := WithNode(s.entries, id, kind, deps, impl))
  }

  lemma RegisteredKeepsInvariant(s: State, id: NodeId, kind: NodeKind, deps: seq<NodeId>, impl: NodeImpl)
    requires Invariant(s)
    ensures Invariant(Registered(s, id, kind, deps, impl))
  {
  }

  // ----- the release cascade -----

  /** The total of all reference counts. */
  ghost function Total(entries: Entries): nat {
    if entries == map[] then 0 else
    var n :| n in entries;
    entries[n].refCount + Total(entries - {n})
  }

  lemma {:induction false} TotalSplit(entries: Entries, x: NodeId)
    requires x in entries
    ensures Total(entries) == entries[x].refCount + Total(entries - {x})
    decreases |entries|
  {
    var n :| n in entries && Total(entries) == entries[n].refCount + Total(entries - {n});
    if n != x {
      TotalSplit(entries - {n}, x);
      TotalSplit(entries - {x}, n);
      assert entries - {n} - {x} == entries - {x} - {n};
    }
  }

  function Lowered(entries: Entries, id: NodeId): Entries
    requires id in entries && entries[id].refCount >= 1
  {
    entries[id := entries[id].(refCount := entries[id].refCount - 1)]
  }

  /** Each effective release lowers the total by exactly one. This is why the cascade ends,
      also on cyclic graphs. */
  lemma ReleaseLowersTotal(entries: Entries, id: NodeId)
    requires Counted(entries) && id in entries
    ensures entries[id].refCount > 1 ==> Total(Lowered(entries, id)) == Total(entries) - 1
    ensures entries[id].refCount == 1 ==> Total(entries - {id}) == Total(entries) - 1
  {
    TotalSplit(entries, id);
    TotalSplit(Lowered(entries, id), id);
    assert Lowered(entries, id) - {id} == entries - {id};
  }

  /** Everything the engine knows about a node, erased. */
  function Dropped(s: State, id: NodeId): State
    requires id in s.entries
  {
    State(s.entries - {id}, Removed(s.edges, id), s.active - {id},
          if s.entries[id].kind == Source then s.guards - {id} else s.guards,
          s.store - {id}, s.strategies - {id})
  }

  /** Releasing the listed nodes one reference each, in order. A node that loses its last
      reference is erased and its dependencies are released before the rest of the list.
      Also answers which nodes were erased. */
  ghost function Released(s: State, work: seq<NodeId>): (r: (State, seq<NodeId>))
    requires Counted(s.entries)
    ensures Counted(r.0.entries)
    decreases Total(s.entries), |work|
  {
    if work == [] then (s, []) else
    var id, rest := work[0], work[1..];
    if id !in s.entries then
      Released(s, rest)
    else
      ReleaseLowersTotal(s.entries, id);
      if s.entries[id].refCount > 1 then
        Released(s.(entries := Lowered(s.entries, id)), rest)
      else
        var (t, gone) := Released(Dropped(s, id), s.entries[id].deps + rest);
        (t, [id] + gone)
  }

  lemma {:induction false} ReleasedAppend(s: State, a: seq<NodeId>, b: seq<NodeId>)
    requires Counted(s.entries)
    ensures Released(s, a + b).0 == Released(Released(s, a).0, b).0
    ensures Released(s, a + b).1 == Released(s, a).1 + Released(Released(s, a).0, b).1
    decreases Total(s.entries), |a|
  {
    if a == [] {
      assert a + b == b;
    } else {
      var id, rest := a[0], a[1..];
      assert (a + b)[0] == id && (a + b)[1..] == rest + b;
      if id !in s.entries {
        ReleasedAppend(s, rest, b);
      } else {
        ReleaseLowersTotal(s.entries, id);
        if s.entries[id].refCount > 1 {
          ReleasedAppend(s.(entries := Lowered(s.entries, id)), rest, b);
        } else {
          var deps := s.entries[id].deps;
          ReleasedAppend(Dropped(s, id), deps + rest, b);
          assert deps + (rest + b) == deps + rest + b;
        }
      }
    }
  }

  lemma {:induction false} ReleasedTotal(s: State, work: seq<NodeId>)
    requires Counted(s.entries)
    ensures Total(Released(s, work).0.entries) <= Total(s.entries)
    decreases Total(s.entries), |work|
  {
    if work != [] {
      var id, rest := work[0], work[1..];
      if id !in s.entries {
        ReleasedTotal(s, rest);
      } else {
        ReleaseLowersTotal(s.entries, id);
        if s.entries[id].refCount > 1 {
          ReleasedTotal(s.(entries := Lowered(s.entries, id)), rest);
        } else {
          ReleasedTotal(Dropped(s, id), s.entries[id].deps + rest);
        }
      }
    }
  }

  // ----- the ledger of a cascade -----

  /** References to `x` given up by the nodes in `gone`, one per occurrence. */
  ghost function GivenUp(entries: Entries, gone: seq<NodeId>, x: NodeId): nat {
    if gone == [] then 0 else
    GivenUp(entries, gone[1..], x) + if gone[0] in entries then multiset(entries[gone[0]].deps)[x] else 0
  }

  /** References to `x` given up altogether: directly, and by erased dependents. */
  ghost function Demand(entries: Entries, work: seq<NodeId>, gone: seq<NodeId>, x: NodeId): nat {
    multiset(work)[x] + GivenUp(entries, gone, x)
  }

  lemma {:induction false} GivenUpSame(a: Entries, b: Entries, gone: seq<NodeId>, x: NodeId)
    requires forall g :: g in gone ==> (g in a <==> g in b) && (g in a ==> a[g].deps == b[g].deps)
    ensures GivenUp(a, gone, x) == GivenUp(b, gone, x)
  {
    if gone != [] {
      assert gone[0] in gone;
      GivenUpSame(a, b, gone[1..], x);
    }
  }

  /** The entries that remain once the nodes in `gone` are erased and every other node has lost
      the references demanded of it. */
  ghost function Kept(entries: Entries, work: seq<NodeId>, gone: seq<NodeId>): Entries {
    var erased := Elems(gone);
    map n | n in entries && n !in erased ::
      entries[n].(refCount := if Demand(entries, work, gone, n) <= entries[n].refCount
                              then entries[n].refCount - Demand(entries, work, gone, n) else 0)
  }

  ghost function Survivors(s: State, work: seq<NodeId>, gone: seq<NodeId>): State {
    var erased := Elems(gone);
    State(Kept(s.entries, work, gone), RemovedAll(s.edges, erased), s.active - erased, s.guards - erased,
          s.store - erased, s.strategies - erased)
  }

  /** The erased nodes are registered, distinct, and exactly those whose count cannot cover
      the demand. */
  ghost predicate Balanced(entries: Entries, work: seq<NodeId>, gone: seq<NodeId>) {
    && NoDup(gone)
    && forall x :: x in gone <==> x in entries && entries[x].refCount <= Demand(entries, work, gone, x)
  }

  /** The tally of one cascade: a node is erased exactly when the references given up on it,
      directly and by erased dependents, reach its count. */
  lemma {:induction false} ReleasedIsBalanced(s: State, work: seq<NodeId>)
    requires Counted(s.entries)
    ensures Balanced(s.entries, work, Released(s, work).1)
    decreases Total(s.entries), |work|
  {
    if work != [] {
      var id, rest := work[0], work[1..];
      assert work == [id] + rest;
      var gone := Released(s, work).1;
      if id !in s.entries {
        ReleasedIsBalanced(s, rest);
      } else {
        ReleaseLowersTotal(s.entries, id);
        if s.entries[id].refCount > 1 {
          ReleasedIsBalanced(s.(entries := Lowered(s.entries, id)), rest);
          forall x { DemandAfterLowering(s.entries, id, rest, gone, x); }
        } else {
          var t, more := Dropped(s, id), s.entries[id].deps;
          ReleasedIsBalanced(t, more + rest);
          var later := Released(t, more + rest).1;
          BalancedAfterDrop(s.entries, id, rest, later);
        }
      }
    }
  }

  lemma BalancedAfterDrop(entries: Entries, id: NodeId, rest: seq<NodeId>, later: seq<NodeId>)
    requires id in entries && entries[id].refCount == 1
    requires Balanced(entries - {id}, entries[id].deps + rest, later)
    ensures Balanced(entries, [id] + rest, [id] + later)
  {
    var gone := [id] + later;
    assert gone[1..] == later;
    forall x ensures x in gone <==> x in entries && entries[x].refCount <= Demand(entries, [id] + rest, gone, x) {
      GivenUpSame(entries - {id}, entries, later, x);
      assert multiset(entries[id].deps + rest)[x] == multiset(entries[id].deps)[x] + multiset(rest)[x];
      assert multiset([id] + rest)[x] == multiset([id])[x] + multiset(rest)[x];
      assert x in gone <==> x == id || x in later;
    }
  }

  lemma DroppedKeepsInvariant(s: State, id: NodeId)
    requires Invariant(s) && id in s.entries
    ensures Invariant(Dropped(s, id))
  {
    RemovedEdges(s.edges, id);
  }

  /** The demand seen before a drop is the demand seen after it, for every other node. */
  lemma DemandAfterDrop(entries: Entries, id: NodeId, rest: seq<NodeId>, later: seq<NodeId>, n: NodeId)
    requires id in entries && id !in later && n != id
    ensures Demand(entries - {id}, entries[id].deps + rest, later, n) ==
            Demand(entries, [id] + rest, [id] + later, n)
  {
    assert ([id] + later)[1..] == later;
    GivenUpSame(entries - {id}, entries, later, n);
    assert multiset(entries[id].deps + rest)[n] == multiset(entries[id].deps)[n] + multiset(rest)[n];
    assert multiset([id] + rest)[n] == multiset([id])[n] + multiset(rest)[n];
  }

  lemma KeptAfterDrop(entries: Entries, id: NodeId, rest: seq<NodeId>, later: seq<NodeId>)
    requires id in entries && id !in later
    ensures Kept(entries - {id}, entries[id].deps + rest, later) == Kept(entries, [id] + rest, [id] + later)
  {
    var a, b := Kept(entries - {id}, entries[id].deps + rest, later), Kept(entries, [id] + rest, [id] + later);
    assert a.Keys == b.Keys;
    forall n | n in a ensures a[n] == b[n] {
      DemandAfterDrop(entries, id, rest, later, n);
    }
  }

  /** The survivors of a drop followed by a release, seen from before the drop. */
  lemma SurvivorsAfterDrop(s: State, id: NodeId, rest: seq<NodeId>, later: seq<NodeId>)
    requires Invariant(s) && id in s.entries && id !in later
    ensures Survivors(Dropped(s, id), s.entries[id].deps + rest, later) ==
            Survivors(s, [id] + rest, [id] + later)
  {
    var a := Survivors(Dropped(s, id), s.entries[id].deps + rest, later);
    var b := Survivors(s, [id] + rest, [id] + later);
    assert Elems([id] + later) == {id} + Elems(later);
    RemovedIsRemovedAll(s.edges, id);
    RemovedAllTwice(s.edges, {id}, Elems(later));
    KeptAfterDrop(s.entries, id, rest, later);
    assert a.store == b.store && a.strategies == b.strategies;
    assert a.active == b.active && a.guards == b.guards;
  }

  lemma NothingReleased(s: State)
    ensures Survivors(s, [], []) == s
  {
    RemovedNone(s.edges);
    KeptNone(s.entries);
    assert Elems([]) == {};
    assert s.store - {} == s.store && s.strategies - {} == s.strategies;
  }

  lemma KeptNone(entries: Entries)
    ensures Kept(entries, [], []) == entries
  {
    var kept := Kept(entries, [], []);
    assert kept.Keys == entries.Keys;
    forall n | n in kept ensures kept[n] == entries[n] {
      assert Demand(entries, [], [], n) == 0;
    }
  }

  lemma KeptOfUnknown(entries: Entries, id: NodeId, rest: seq<NodeId>, gone: seq<NodeId>)
    requires id !in entries
    ensures Kept(entries, rest, gone) == Kept(entries, [id] + rest, gone)
  {
    var a, b := Kept(entries, rest, gone), Kept(entries, [id] + rest, gone);
    forall n | n in a ensures a[n] == b[n] {
      assert multiset([id] + rest)[n] == multiset([id])[n] + multiset(rest)[n];
    }
  }

  lemma DemandAfterLowering(entries: Entries, id: NodeId, rest: seq<NodeId>, gone: seq<NodeId>, n: NodeId)
    requires id in entries && entries[id].refCount >= 1
    ensures Demand(entries, [id] + rest, gone, n) ==
            Demand(Lowered(entries, id), rest, gone, n) + if n == id then 1 else 0
  {
    GivenUpSame(Lowered(entries, id), entries, gone, n);
    assert multiset([id] + rest)[n] == multiset([id])[n] + multiset(rest)[n];
  }

  lemma KeptAfterLowering(entries: Entries, id: NodeId, rest: seq<NodeId>, gone: seq<NodeId>)
    requires id in entries && entries[id].refCount >= 1
    requires id !in gone ==> Demand(Lowered(entries, id), rest, gone, id) < entries[id].refCount - 1
    ensures Kept(Lowered(entries, id), rest, gone) == Kept(entries, [id] + rest, gone)
  {
    var a, b := Kept(Lowered(entries, id), rest, gone), Kept(entries, [id] + rest, gone);
    assert a.Keys == b.Keys;
    forall n | n in a ensures a[n] == b[n] {
      DemandAfterLowering(entries, id, rest, gone, n);
    }
  }

  /** A cascade leaves exactly the survivors of what it erases: every other count has dropped
      by its demand, and nothing else about a survivor has changed. */
  lemma {:induction false} ReleasedIsSurvivors(s: State, work: seq<NodeId>)
    requires Invariant(s)
    ensures Released(s, work).0 == Survivors(s, work, Released(s, work).1)
    ensures Invariant(Released(s, work).0)
    decreases Total(s.entries), |work|
  {
    if work == [] {
      NothingReleased(s);
    } else {
      var id, rest := work[0], work[1..];
      assert work == [id] + rest;
      var gone := Released(s, work).1;
      if id !in s.entries {
        ReleasedIsSurvivors(s, rest);
        KeptOfUnknown(s.entries, id, rest, gone);
      } else {
        ReleaseLowersTotal(s.entries, id);
        if s.entries[id].refCount > 1 {
          var t := s.(entries := Lowered(s.entries, id));
          ReleasedIsSurvivors(t, rest);
          ReleasedIsBalanced(t, rest);
          KeptAfterLowering(s.entries, id, rest, gone);
        } else {
          var t, more := Dropped(s, id), s.entries[id].deps;
          DroppedKeepsInvariant(s, id);
          ReleasedIsSurvivors(t, more + rest);
          ReleasedIsBalanced(t, more + rest);
          SurvivorsAfterDrop(s, id, rest, Released(t, more + rest).1);
        }
      }
    }
  }

  /** One release, unfolded. */
  lemma ReleasedOne(s: State, id: NodeId)
    requires Invariant(s)
    ensures Invariant(Released(s, [id]).0)
    ensures id !in s.entries ==> Released(s, [id]).0 == s
    ensures id in s.entries && s.entries[id].refCount > 1 ==>
              Released(s, [id]).0 == s.(entries := Lowered(s.entries, id))
    ensures id in s.entries && s.entries[id].refCount == 1 ==>
              && Invariant(Dropped(s, id)) && Total(Dropped(s, id).entries) < Total(s.entries)
              && Released(s, [id]).0 == Released(Dropped(s, id), s.entries[id].deps).0
  {
    ReleasedIsSurvivors(s, [id]);
    if id in s.entries {
      ReleaseLowersTotal(s.entries, id);
      DroppedKeepsInvariant(s, id);
      assert s.entries[id].deps + [] == s.entries[id].deps;
    }
  }

  // ----- the order of releases does not matter -----

  /** Every registered node whose count cannot cover the demand of `t` is in `t`. */
  ghost predicate Closed(entries: Entries, work: seq<NodeId>, t: seq<NodeId>) {
    forall x :: x in entries && entries[x].refCount <= Demand(entries, work, t, x) ==> x in t
  }

  /** The list without its element at `i`. */
  function Without(t: seq<NodeId>, i: nat): seq<NodeId>
    requires i < |t|
  {
    t[..i] + t[i + 1..]
  }

  lemma WithoutKeeps(t: seq<NodeId>, i: nat)
    requires i < |t| && NoDup(t)
    ensures NoDup(Without(t, i)) && forall n :: n in Without(t, i) <==> n in t && n != t[i]
  {
    assert t == t[..i] + [t[i]] + t[i + 1..];
  }

  lemma {:induction false} GivenUpSplit(entries: Entries, t: seq<NodeId>, i: nat, x: NodeId)
    requires i < |t|
    ensures GivenUp(entries, t, x) == GivenUp(entries, Without(t, i), x) +
              if t[i] in entries then multiset(entries[t[i]].deps)[x] else 0
  {
    if i == 0 {
      assert Without(t, 0) == t[1..];
    } else {
      GivenUpSplit(entries, t[1..], i - 1, x);
      assert Without(t, i)[0] == t[0] && Without(t, i)[1..] == Without(t[1..], i - 1);
    }
  }

  lemma {:induction false} GivenUpPermuted(entries: Entries, a: seq<NodeId>, b: seq<NodeId>, x: NodeId)
    requires NoDup(a) && NoDup(b) && Elems(a) == Elems(b)
    ensures GivenUp(entries, a, x) == GivenUp(entries, b, x)
  {
    if a == [] {
      assert forall i :: 0 <= i < |b| ==> b[i] in Elems(b);
    } else {
      assert a[0] in Elems(b);
      var i :| 0 <= i < |b| && b[i] == a[0];
      assert forall n :: n in Elems(a[1..]) <==> n in Elems(a) && n != a[0];
      WithoutKeeps(b, i);
      GivenUpPermuted(entries, a[1..], Without(b, i), x);
      GivenUpSplit(entries, b, i, x);
    }
  }

  /** The erased nodes are the least closed set, so no schedule of the cascade could erase
      fewer. */
  lemma {:induction false} ErasedIsLeast(s: State, work: seq<NodeId>, t: seq<NodeId>)
    requires Counted(s.entries) && NoDup(t) && Closed(s.entries, work, t)
    ensures forall x :: x in Released(s, work).1 ==> x in t
    decreases Total(s.entries), |work|
  {
    if work != [] {
      var id, rest := work[0], work[1..];
      assert work == [id] + rest;
      if id !in s.entries {
        ErasedIsLeast(s, rest, t);
      } else {
        ReleaseLowersTotal(s.entries, id);
        if s.entries[id].refCount > 1 {
          forall x { DemandAfterLowering(s.entries, id, rest, t, x); }
          ErasedIsLeast(s.(entries := Lowered(s.entries, id)), rest, t);
        } else {
          assert multiset(work)[id] >= 1;
          assert id in t;
          var i :| 0 <= i < |t| && t[i] == id;
          ClosedAfterDrop(s.entries, id, rest, t, i);
          WithoutKeeps(t, i);
          ErasedIsLeast(Dropped(s, id), s.entries[id].deps + rest, Without(t, i));
        }
      }
    }
  }

  lemma DemandWithout(entries: Entries, id: NodeId, rest: seq<NodeId>, t: seq<NodeId>, i: nat, x: NodeId)
    requires id in entries && NoDup(t) && i < |t| && t[i] == id
    ensures Demand(entries, [id] + rest, t, x) ==
            Demand(entries - {id}, entries[id].deps + rest, Without(t, i), x) + multiset([id])[x]
  {
    WithoutKeeps(t, i);
    GivenUpSplit(entries, t, i, x);
    GivenUpSame(entries - {id}, entries, Without(t, i), x);
    assert multiset(entries[id].deps + rest)[x] == multiset(entries[id].deps)[x] + multiset(rest)[x];
    assert multiset([id] + rest)[x] == multiset([id])[x] + multiset(rest)[x];
  }

  lemma ClosedAfterDrop(entries: Entries, id: NodeId, rest: seq<NodeId>, t: seq<NodeId>, i: nat)
    requires id in entries && NoDup(t) && i < |t| && t[i] == id && Closed(entries, [id] + rest, t)
    ensures NoDup(Without(t, i)) && Closed(entries - {id}, entries[id].deps + rest, Without(t, i))
  {
    WithoutKeeps(t, i);
    forall x { DemandWithout(entries, id, rest, t, i, x); }
  }

  /** Releasing the same references in another order erases the same nodes and leaves the
      same state. */
  lemma ReleaseOrderIrrelevant(s: State, w1: seq<NodeId>, w2: seq<NodeId>)
    requires Invariant(s) && multiset(w1) == multiset(w2)
    ensures Released(s, w1).0 == Released(s, w2).0
    ensures Elems(Released(s, w1).1) == Elems(Released(s, w2).1)
  {
    var g1, g2 := Released(s, w1).1, Released(s, w2).1;
    ReleasedIsBalanced(s, w1);
    ReleasedIsBalanced(s, w2);
    ErasedIsLeast(s, w1, g2);
    ErasedIsLeast(s, w2, g1);
    assert Elems(g1) == Elems(g2);
    ReleasedIsSurvivors(s, w1);
    ReleasedIsSurvivors(s, w2);
    KeptPermuted(s.entries, w1, w2, g1, g2);
  }

  lemma KeptPermuted(entries: Entries, w1: seq<NodeId>, w2: seq<NodeId>, g1: seq<NodeId>, g2: seq<NodeId>)
    requires multiset(w1) == multiset(w2) && NoDup(g1) && NoDup(g2) && Elems(g1) == Elems(g2)
    ensures Kept(entries, w1, g1) == Kept(entries, w2, g2)
  {
    var a, b := Kept(entries, w1, g1), Kept(entries, w2, g2);
    forall n | n in a ensures a[n] == b[n] {
      GivenUpPermuted(entries, g1, g2, n);
    }
  }

  // ----- shared nodes -----

  /** A node outlives a release exactly when its count exceeds what is given up on it,
      directly and by erased dependents; then it keeps the difference. */
  lemma SurvivesIffCountExceedsDemand(s: State, work: seq<NodeId>, x: NodeId)
    requires Invariant(s)
    ensures
      var (t, gone) := Released(s, work);
      && (x in t.entries <==> x in s.entries && s.entries[x].refCount > Demand(s.entries, work, gone, x))
      && (x in t.entries ==>
            t.entries[x] == s.entries[x].(refCount := s.entries[x].refCount - Demand(s.entries, work, gone, x)))
  {
    ReleasedIsSurvivors(s, work);
    ReleasedIsBalanced(s, work);
  }

  lemma {:induction false} GivenUpGrows(entries: Entries, a: seq<NodeId>, b: seq<NodeId>, x: NodeId)
    requires NoDup(a) && Elems(a) <= Elems(b)
    ensures GivenUp(entries, a, x) <= GivenUp(entries, b, x)
  {
    if a != [] {
      assert a[0] in Elems(b);
      var i :| 0 <= i < |b| && b[i] == a[0];
      forall n | n in Elems(a[1..]) ensures n in Elems(Without(b, i)) {
        assert n in Elems(b) && n != a[0];
        assert b == b[..i] + [b[i]] + b[i + 1..];
      }
      GivenUpGrows(entries, a[1..], Without(b, i), x);
      GivenUpSplit(entries, b, i, x);
    }
  }

  /** The subgraph `own` is released, `work` listing its nodes and possibly shared nodes: each
      own node is held once and depends on own nodes and on shared nodes only. */
  ghost predicate SharesOnly(entries: Entries, own: seq<NodeId>, work: seq<NodeId>, shared: set<NodeId>) {
    && NoDup(own) && shared <= entries.Keys && (forall n :: n in own ==> n !in shared)
    && (forall n :: n in own ==> n in work && n in entries && entries[n].refCount == 1)
    && (forall n, d :: n in own && n in entries && d in entries[n].deps ==> d in own || d in shared)
    && (forall n :: n in work ==> n in own || n in shared)
  }

  lemma SharedStay(s: State, own: seq<NodeId>, work: seq<NodeId>, shared: set<NodeId>)
    requires Counted(s.entries) && SharesOnly(s.entries, own, work, shared)
    requires forall x :: x in shared ==> s.entries[x].refCount > Demand(s.entries, work, own, x)
    ensures forall x :: x in shared ==> x !in Released(s, work).1
  {
    forall x | x in s.entries && s.entries[x].refCount <= Demand(s.entries, work, own, x) ensures x in own {
      if x !in own && x !in shared {
        NoDemand(s.entries, work, own, x);
      }
    }
    ErasedIsLeast(s, work, own);
  }

  lemma NoDemand(entries: Entries, work: seq<NodeId>, gone: seq<NodeId>, x: NodeId)
    requires x !in work && forall n :: n in gone && n in entries ==> x !in entries[n].deps
    ensures Demand(entries, work, gone, x) == 0
  {
    NothingGivenUp(entries, gone, x);
    assert x !in multiset(work);
  }

  lemma {:induction false} NothingGivenUp(entries: Entries, gone: seq<NodeId>, x: NodeId)
    requires forall n :: n in gone && n in entries ==> x !in entries[n].deps
    ensures GivenUp(entries, gone, x) == 0
  {
    if gone != [] {
      NothingGivenUp(entries, gone[1..], x);
      assert gone[0] in gone;
      assert gone[0] in entries ==> x !in multiset(entries[gone[0]].deps);
    }
  }

  lemma SharedGoes(s: State, own: seq<NodeId>, work: seq<NodeId>, shared: set<NodeId>, x: NodeId)
    requires Counted(s.entries) && SharesOnly(s.entries, own, work, shared) && x in shared
    requires s.entries[x].refCount <= Demand(s.entries, work, own, x)
    ensures x in Released(s, work).1
  {
    var gone := Released(s, work).1;
    ReleasedIsBalanced(s, work);
    forall n | n in own ensures n in gone {
      assert n in multiset(work);
    }
    GivenUpGrows(s.entries, own, gone, x);
  }

  /** Removing a subgraph leaves all the nodes it shares with others in place exactly when
      each of them is held more often than the subgraph lists it and its own nodes name it as
      a dependency, taken together. Merging had counted it only once. */
  lemma SharedSurviveIff(s: State, own: seq<NodeId>, work: seq<NodeId>, shared: set<NodeId>)
    requires Invariant(s) && SharesOnly(s.entries, own, work, shared)
    ensures shared <= Released(s, work).0.entries.Keys <==>
            forall x :: x in shared ==>
              s.entries[x].refCount > multiset(work)[x] + GivenUp(s.entries, own, x)
  {
    ReleasedIsBalanced(s, work);
    ReleasedIsSurvivors(s, work);
    if x :| x in shared && s.entries[x].refCount <= Demand(s.entries, work, own, x) {
      SharedGoes(s, own, work, shared, x);
    } else {
      SharedStay(s, own, work, shared);
    }
  }

  /** Two subgraphs share a node and both have registered it. Removing one of them, its sink
      first, releases the node twice: once for the sink's dependency, once for the listed id.
      The node is erased although the other subgraph's sink still depends on it. */
  lemma SharedNodeIsLost(s: State, shared: NodeId, sink: NodeId, other: NodeId)
    requires Invariant(s) && {shared, sink, other} <= s.entries.Keys && shared != sink && other !in {shared, sink}
    requires s.entries[shared].refCount == 2 && s.entries[shared].deps == []
    requires s.entries[sink].refCount == 1 && s.entries[sink].deps == [shared]
    requires s.entries[other].deps == [shared]
    ensures
      var t := Released(s, [sink, shared]).0;
      shared !in t.entries && other in t.entries && t.entries[other].deps == [shared]
  {
    var work, own := [sink, shared], [sink];
    assert own[1..] == [] && s.entries[sink].deps == [shared];
    assert multiset(work)[shared] == 1 && GivenUp(s.entries, own, shared) == 1;
    SharedSurviveIff(s, own, work, {shared});
    var erased := [sink, shared];
    forall x | x in s.entries && s.entries[x].refCount <= Demand(s.entries, work, erased, x) ensures x in erased {
      if x !in erased {
        NoDemand(s.entries, work, erased, x);
      }
    }
    ErasedIsLeast(s, work, erased);
    ReleasedIsBalanced(s, work);
    SurvivesIffCountExceedsDemand(s, work, other);
  }
}
