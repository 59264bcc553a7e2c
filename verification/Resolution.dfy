/**
 Resolving flow dependencies: completed blocking parents release their children. The audit runs
 as one statement per batch, or split per parent queue into decrement and clear.
 */
module Resolution {
  import opened Outcomes
  import opened JobTable

  datatype Dep = Dep(child: Key, parent: Key)

  function ParentsOf(deps: set<Dep>, child: Key): set<Key> {
    set d | d in deps && d.child == child :: d.parent
  }

  // COUNT(*) of the dependency rows that join a child to a batch of parents.
  function Hits(deps: set<Dep>, child: Key, parents: set<Key>): nat {
    |ParentsOf(deps, child) * parents|
  }

  function Decrement(r: Row, n: nat): Row {
    if r.blocked && n > 0 then
      r.(pending := Max(r.pending - n, 0), blocked := Max(r.pending - n, 0) > 0)
    else r
  }

  function DecrementDependents(t: Table, deps: set<Dep>, parents: set<Key>): Table {
    map k | k in t :: Decrement(t[k], Hits(deps, k, parents))
  }

  function ClearBlocking(t: Table, parents: set<Key>): Table {
    map k | k in t :: if k in parents then t[k].(blocking := false) else t[k]
  }

  function ResolveRow(r: Row, n: nat, cleared: bool): Row {
    var s := Decrement(r, n);
    if cleared then s.(blocking := false) else s
  }

  // The single statement: every part of it reads the table as it was before.
  function Resolve(t: Table, deps: set<Dep>, parents: set<Key>): Table {
    map k | k in t :: ResolveRow(t[k], Hits(deps, k, parents), k in parents)
  }

  // Rows that the audit looks for, in a chunk of queue names.
  function Selectable(t: Table, names: set<string>): set<Key> {
    set k | k in t && t[k].blocking && t[k].state == Completed && k.name in names
  }

  // The split audit of one batch, grouped by parent queue.
  function SplitResolve(t: Table, deps: set<Dep>, groups: seq<set<Key>>): Table {
    if groups == [] then t
    else
      var last := |groups| - 1;
      var u := DecrementDependents(SplitResolve(t, deps, groups[..last]), deps, groups[last]);
      ClearBlocking(u, groups[last])
  }

  function ResolveAll(t: Table, deps: set<Dep>, batches: seq<set<Key>>): Table {
    if batches == [] then t
    else Resolve(ResolveAll(t, deps, batches[..|batches| - 1]), deps, batches[|batches| - 1])
  }

  function Union(batches: seq<set<Key>>): set<Key> {
    if batches == [] then {} else Union(batches[..|batches| - 1]) + batches[|batches| - 1]
  }

  ghost predicate Disjoint(batches: seq<set<Key>>) {
    forall i, j :: 0 <= i < j < |batches| ==> batches[i] !! batches[j]
  }

  // ---------- Batching and splitting do not matter ----------

  lemma HitsAdd(deps: set<Dep>, child: Key, a: set<Key>, b: set<Key>)
    requires a !! b
    ensures Hits(deps, child, a + b) == Hits(deps, child, a) + Hits(deps, child, b)
  {
    var ps := ParentsOf(deps, child);
    assert ps * (a + b) == ps * a + ps * b;
    assert ps * a !! ps * b;
  }

  // Clamped decrements add up, and a row that is unblocked midway is left alone afterwards.
  lemma ResolveRowTwice(r: Row, m: nat, n: nat, c: bool, d: bool)
    ensures ResolveRow(ResolveRow(r, m, c), n, d) == ResolveRow(r, m + n, c || d)
  {
  }

  lemma ResolveAt(t: Table, deps: set<Dep>, parents: set<Key>, k: Key)
    requires k in t
    ensures k in Resolve(t, deps, parents)
    ensures Resolve(t, deps, parents)[k] == ResolveRow(t[k], Hits(deps, k, parents), k in parents)
  {
  }

  // Two disjoint batches are one batch, in either order.
  lemma ResolveTwice(t: Table, deps: set<Dep>, a: set<Key>, b: set<Key>)
    requires a !! b
    ensures Resolve(Resolve(t, deps, a), deps, b) == Resolve(t, deps, a + b)
  {
    var u := Resolve(t, deps, a);
    assert u.Keys == t.Keys;
    forall k | k in t
      ensures ResolveRow(u[k], Hits(deps, k, b), k in b) == ResolveRow(t[k], Hits(deps, k, a + b), k in a + b)
    {
      ResolveAt(t, deps, a, k);
      ResolveTwiceAt(deps, a, b, k, t[k]);
    }
  }

  lemma ResolveTwiceAt(deps: set<Dep>, a: set<Key>, b: set<Key>, k: Key, r: Row)
    requires a !! b
    ensures ResolveRow(ResolveRow(r, Hits(deps, k, a), k in a), Hits(deps, k, b), k in b)
            == ResolveRow(r, Hits(deps, k, a + b), k in a + b)
  {
    assert Hits(deps, k, a + b) == Hits(deps, k, a) + Hits(deps, k, b) by { HitsAdd(deps, k, a, b); }
    ResolveRowTwice(r, Hits(deps, k, a), Hits(deps, k, b), k in a, k in b);
  }

  lemma ResolveNothing(t: Table, deps: set<Dep>)
    ensures Resolve(t, deps, {}) == t
  {
    forall k | k in t ensures Hits(deps, k, {}) == 0 {
      assert ParentsOf(deps, k) * {} == {};
    }
  }

  lemma {:induction false} UnionIsDisjointFromLast(batches: seq<set<Key>>, b: set<Key>)
    requires forall i :: 0 <= i < |batches| ==> batches[i] !! b
    ensures Union(batches) !! b
  {
    if batches != [] {
      UnionIsDisjointFromLast(batches[..|batches| - 1], b);
    }
  }

  // Any sequence of disjoint batches gives the table of the single statement over their union.
  lemma {:induction false} BatchesAreOneStatement(t: Table, deps: set<Dep>, batches: seq<set<Key>>)
    requires Disjoint(batches)
    ensures ResolveAll(t, deps, batches) == Resolve(t, deps, Union(batches))
  {
    if batches == [] {
      ResolveNothing(t, deps);
    } else {
      var n := |batches| - 1;
      BatchesAreOneStatement(t, deps, batches[..n]);
      UnionIsDisjointFromLast(batches[..n], batches[n]);
      ResolveTwice(t, deps, Union(batches[..n]), batches[n]);
    }
  }

  lemma DecrementThenClear(t: Table, deps: set<Dep>, parents: set<Key>)
    ensures ClearBlocking(DecrementDependents(t, deps, parents), parents) == Resolve(t, deps, parents)
  {
  }

  // So does the split, per parent queue as decrement then clear, whatever the order of the queues.
  lemma {:induction false} SplitIsOneStatement(t: Table, deps: set<Dep>, groups: seq<set<Key>>)
    requires Disjoint(groups)
    ensures SplitResolve(t, deps, groups) == Resolve(t, deps, Union(groups))
  {
    if groups == [] {
      ResolveNothing(t, deps);
    } else {
      var n := |groups| - 1;
      SplitIsOneStatement(t, deps, groups[..n]);
      DecrementThenClear(SplitResolve(t, deps, groups[..n]), deps, groups[n]);
      UnionIsDisjointFromLast(groups[..n], groups[n]);
      ResolveTwice(t, deps, Union(groups[..n]), groups[n]);
    }
  }

  // Resolving a batch removes exactly that batch from what the next audit finds.
  lemma SelectableAfter(t: Table, deps: set<Dep>, parents: set<Key>, names: set<string>)
    ensures Selectable(Resolve(t, deps, parents), names) == Selectable(t, names) - parents
  {
  }

  // The dependency rows that join a child to the batch.
  function Joined(deps: set<Dep>, child: Key, parents: set<Key>): set<Dep> {
    set d | d in deps && d.child == child && d.parent in parents
  }

  lemma {:induction false} AsManyRowsAsParents(rows: set<Dep>, child: Key, ps: set<Key>)
    requires forall d :: d in rows ==> d.child == child
    requires ps == set d | d in rows :: d.parent
    ensures |ps| == |rows|
  {
    if rows == {} {
      assert ps == {};
    } else {
      var d :| d in rows;
      AsManyRowsAsParents(rows - {d}, child, ps - {d.parent});
    }
  }

  lemma HitsAreRows(deps: set<Dep>, child: Key, parents: set<Key>)
    ensures Hits(deps, child, parents) == |Joined(deps, child, parents)|
  {
    var rows := Joined(deps, child, parents);
    assert ParentsOf(deps, child) * parents == set d | d in rows :: d.parent;
    AsManyRowsAsParents(rows, child, ParentsOf(deps, child) * parents);
  }

  // A resolved row: a parent is done with, and a blocked child counts down by its dependency rows, is released at
  // 0, and keeps every other column.
  predicate RowIsResolved(r: Row, s: Row, n: nat, isParent: bool) {
    && s == r.(blocking := s.blocking, blocked := s.blocked, pending := s.pending)
    && (s.blocking <==> r.blocking && !isParent)
    && (!r.blocked || n == 0 ==> s.blocked == r.blocked && s.pending == r.pending)
    && (r.blocked && 0 < n < r.pending ==> s.blocked && s.pending == r.pending - n)
    && (r.blocked && n > 0 && r.pending <= n ==> !s.blocked && s.pending == 0)
  }

  ghost predicate IsResolved(t: Table, t': Table, deps: set<Dep>, parents: set<Key>) {
    && t'.Keys == t.Keys
    && forall k :: k in t ==> RowIsResolved(t[k], t'[k], |Joined(deps, k, parents)|, k in parents)
  }

  lemma ResolveIs(t: Table, deps: set<Dep>, parents: set<Key>)
    ensures IsResolved(t, Resolve(t, deps, parents), deps, parents)
  {
    forall k | k in t ensures Hits(deps, k, parents) == |Joined(deps, k, parents)| {
      HitsAreRows(deps, k, parents);
    }
  }

  // The model lets one statement touch a row both as child and as parent. In the tables of
  // interest that never happens: a completed job is not blocked.
  lemma NoRowIsUpdatedTwice(t: Table, deps: set<Dep>, names: set<string>, k: Key)
    requires k in t && (t[k].blocked ==> t[k].state != Completed) && k in Selectable(t, names)
    ensures Decrement(t[k], Hits(deps, k, Selectable(t, names))) == t[k]
  {
  }

  // ---------- Counter conservation ----------

  // A blocked child whose counter is the number of its unresolved parents: the clamp at 0 never
  // changes a value, and the counter is again that number.
  lemma CounterStaysExact(r: Row, deps: set<Dep>, child: Key, unresolved: set<Key>, parents: set<Key>)
    requires r.blocked && r.pending == |unresolved|
    requires ParentsOf(deps, child) * parents == unresolved * parents
    ensures var n := Hits(deps, child, parents);
            && r.pending - n >= 0
            && Decrement(r, n).pending == |unresolved - parents|
            && (r.pending > 0 ==> (Decrement(r, n).blocked <==> unresolved - parents != {}))
  {
    assert unresolved == (unresolved - parents) + unresolved * parents;
    assert (unresolved - parents) !! (unresolved * parents);
  }
}
