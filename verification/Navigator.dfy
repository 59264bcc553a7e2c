/**
 The flow resolver's pass: queues grouped by table, names in chunks, and batches drained chunk by
 chunk, while a stop request may arrive at any await.
 */
module Navigator {
  import opened Outcomes
  import opened JobTable
  import opened Resolution
  import opened JobStore
  import Runs
  import Safety

  const FLOW_BATCH_SIZE := 1000
  const MAX_BATCHES_PER_PASS := 100
  const CHUNK_SIZE := 100

  datatype Group = Group(table: string, names: seq<string>)

  function AllNames(groups: seq<Group>): set<string> {
    set g, n | g in groups && n in g.names :: n
  }

  // The chunks that one group is audited in.
  function Chunks(names: seq<string>): seq<seq<string>> {
    if names == [] then []
    else if |names| <= CHUNK_SIZE then [names]
    else [names[..CHUNK_SIZE]] + Chunks(names[CHUNK_SIZE..])
  }

  function Joined(chunks: seq<seq<string>>): seq<string> {
    if chunks == [] then [] else chunks[0] + Joined(chunks[1..])
  }

  // The chunks are the names in order, a hundred at a time.
  lemma {:induction false} ChunksAre(names: seq<string>)
    ensures Joined(Chunks(names)) == names
    ensures forall i :: 0 <= i < |Chunks(names)| ==> 1 <= |Chunks(names)[i]| <= 100
    ensures forall i :: 0 <= i < |Chunks(names)| - 1 ==> |Chunks(names)[i]| == 100
  {
    if |names| > CHUNK_SIZE {
      ChunksAre(names[CHUNK_SIZE..]);
      assert names == names[..CHUNK_SIZE] + names[CHUNK_SIZE..];
    } else if names != [] {
      assert Chunks(names)[1..] == [];
    }
  }

  predicate AreFull(batches: seq<set<Key>>) {
    forall i :: 0 <= i < |batches| ==> |batches[i]| == 1000
  }

  // At most a hundred batches of at most a thousand parents, all of them full but the last.
  predicate AreBatches(batches: seq<set<Key>>) {
    && |batches| <= 100
    && (batches != [] ==> |batches[|batches| - 1]| <= 1000 && AreFull(batches[..|batches| - 1]))
  }

  lemma OneMoreFits(before: seq<set<Key>>, batch: set<Key>)
    requires AreFull(before) && |before| < 100 && |batch| <= 1000
    ensures AreBatches(before + [batch]) && (|batch| == 1000 ==> AreFull(before + [batch]))
  {
    assert (before + [batch])[..|before|] == before;
  }

  // What so many full batches of FLOW_BATCH_SIZE take.
  function Capacity(batches: nat): nat {
    FLOW_BATCH_SIZE * batches
  }

  // What one pass can take of a chunk.
  predicate FitsOnePass(t: Table, chunk: seq<string>) {
    Left(t, Elems(chunk)) <= Capacity(MAX_BATCHES_PER_PASS)
  }

  lemma FitsIff(t: Table, chunk: seq<string>)
    ensures FitsOnePass(t, chunk) <==> |set k | k in t && IsReady(t, Elems(chunk), k)| <= 100 * 1000
  {
    assert Selectable(t, Elems(chunk)) == set k | k in t && IsReady(t, Elems(chunk), k);
  }

  predicate AllFit(t: Table, chunks: seq<seq<string>>) {
    forall c :: c in chunks ==> FitsOnePass(t, c)
  }

  ghost predicate EveryChunkFits(t: Table, groups: seq<Group>) {
    forall g :: g in groups ==> AllFit(t, Chunks(g.names))
  }

  // The table u is t with these parents of the named queues resolved.
  ghost predicate Resolved(t: Table, deps: set<Dep>, names: set<string>, done: set<Key>, u: Table) {
    done <= Selectable(t, names) && u == Resolve(t, deps, done)
  }

  // How many parents are left to resolve.
  function Left(t: Table, names: set<string>): nat {
    |Selectable(t, names)|
  }

  // The table u is t after these audits, which took different parents of the named queues.
  ghost predicate IsAudit(t: Table, deps: set<Dep>, names: set<string>, batches: seq<set<Key>>, u: Table) {
    && u == ResolveAll(t, deps, batches)
    && Disjoint(batches) && Union(batches) <= Selectable(t, names)
  }

  lemma AuditIsOneStatement(t: Table, deps: set<Dep>, names: set<string>, batches: seq<set<Key>>, u: Table)
    requires IsAudit(t, deps, names, batches, u)
    ensures u == Resolve(t, deps, Union(batches))
    ensures Selectable(u, names) == Selectable(t, names) - Union(batches)
  {
    BatchesAreOneStatement(t, deps, batches);
    SelectableAfter(t, deps, Union(batches), names);
  }

  lemma AuditGoesOn(t: Table, deps: set<Dep>, names: set<string>, batches: seq<set<Key>>, u: Table, batch: set<Key>)
    requires IsAudit(t, deps, names, batches, u) && batch <= Selectable(u, names)
    ensures IsAudit(t, deps, names, batches + [batch], Resolve(u, deps, batch))
    ensures Left(Resolve(u, deps, batch), names) == Left(u, names) - |batch|
  {
    assert batch <= Selectable(t, names) && batch !! Union(batches) by {
      AuditIsOneStatement(t, deps, names, batches, u);
    }
    OneMoreOfAll(t, deps, batches, batch);
    StillDisjoint(batches, batch);
    LessIsLeft(u, deps, names, batch);
  }

  lemma OneMoreOfAll(t: Table, deps: set<Dep>, batches: seq<set<Key>>, batch: set<Key>)
    ensures ResolveAll(t, deps, batches + [batch]) == Resolve(ResolveAll(t, deps, batches), deps, batch)
    ensures Union(batches + [batch]) == Union(batches) + batch
  {
    var longer := batches + [batch];
    assert longer[..|longer| - 1] == batches;
  }

  lemma StillDisjoint(batches: seq<set<Key>>, batch: set<Key>)
    requires Disjoint(batches) && batch !! Union(batches)
    ensures Disjoint(batches + [batch])
  {
    forall i | 0 <= i < |batches| ensures batches[i] !! batch {
      BatchIsInUnion(batches, i);
    }
  }

  lemma LessIsLeft(u: Table, deps: set<Dep>, names: set<string>, batch: set<Key>)
    requires batch <= Selectable(u, names)
    ensures Left(Resolve(u, deps, batch), names) == Left(u, names) - |batch|
  {
    SelectableAfter(u, deps, batch, names);
    assert |Selectable(u, names) - batch| == |Selectable(u, names)| - |batch|;
  }

  lemma {:induction false} BatchIsInUnion(batches: seq<set<Key>>, i: nat)
    requires i < |batches|
    ensures batches[i] <= Union(batches)
  {
    if i < |batches| - 1 {
      BatchIsInUnion(batches[..|batches| - 1], i);
    }
  }

  // ---------- What resolving leaves to resolve ----------

  lemma SplitNames(t: Table, a: set<string>, b: set<string>)
    ensures Selectable(t, a + b) == Selectable(t, a) + Selectable(t, b)
  {
  }

  // Resolving on top of an earlier resolution of other parents.
  lemma Onward(t: Table, deps: set<Dep>, done: set<Key>, more: set<Key>, names: set<string>)
    requires more <= Selectable(Resolve(t, deps, done), names)
    ensures done !! more && more <= Selectable(t, names)
    ensures Resolve(Resolve(t, deps, done), deps, more) == Resolve(t, deps, done + more)
  {
    SelectableAfter(t, deps, done, names);
    ResolveTwice(t, deps, done, more);
  }

  class Navigator {
    const store: JobStore
    const noMultiMutationCte: bool
    var stopping: bool
    var working: bool

    constructor (store: JobStore, noMultiMutationCte: bool)
      ensures this.store == store && this.noMultiMutationCte == noMultiMutationCte && !stopping && !working
    {
      this.store, this.noMultiMutationCte := store, noMultiMutationCte;
      stopping, working := false, false;
    }

    // While the pass waits for the database, stop() may be called.
    method Await()
      modifies this`stopping
      ensures old(stopping) ==> stopping
    {
      if * {
        stopping := true;
      }
    }

    // One batch, in the form that the backend supports.
    method ResolveBatch(names: set<string>) returns (resolved: nat, ghost batch: set<Key>)
      requires store.Valid()
      modifies store, this`stopping
      ensures store.Valid() && store.deps == old(store.deps) && (old(stopping) ==> stopping)
      ensures IsBatch(old(store.jobs), names, FLOW_BATCH_SIZE, batch) && resolved == |batch|
      ensures store.jobs == Resolve(old(store.jobs), store.deps, batch)
    {
      if noMultiMutationCte {
        resolved, batch := store.ResolveFlowJobsNoCte(names, FLOW_BATCH_SIZE);
      } else {
        resolved, batch := store.ResolveStandard(names, FLOW_BATCH_SIZE);
      }
      Await();
    }

    // One more batch on top of those that the chunk has seen.
    method OneMoreBatch(names: set<string>, ghost t: Table, ghost before: seq<set<Key>>)
      returns (resolved: nat, ghost batches: seq<set<Key>>)
      requires store.Valid() && IsAudit(t, store.deps, names, before, store.jobs)
      requires AreFull(before) && |before| < 100
      modifies store, this`stopping
      ensures store.Valid() && store.deps == old(store.deps) && (old(stopping) ==> stopping)
      ensures IsAudit(t, store.deps, names, batches, store.jobs)
      ensures |batches| == |before| + 1 && AreBatches(batches) && (resolved == 1000 ==> AreFull(batches))
      ensures resolved == Min(FLOW_BATCH_SIZE, old(Left(store.jobs, names)))
      ensures Left(store.jobs, names) == old(Left(store.jobs, names)) - resolved
    {
      ghost var u := store.jobs;
      ghost var batch;
      resolved, batch := ResolveBatch(names);
      batches := before + [batch];
      OneMoreFits(before, batch);
      AuditGoesOn(t, store.deps, names, before, u, batch);
    }

    // Drains one chunk: batch after batch while they come full, up to the cap.
    method DrainChunk(chunk: seq<string>) returns (ghost batches: seq<set<Key>>)
      requires store.Valid()
      modifies store, this`stopping
      ensures store.Valid() && store.deps == old(store.deps) && (old(stopping) ==> stopping)
      ensures IsAudit(old(store.jobs), store.deps, Elems(chunk), batches, store.jobs) && AreBatches(batches)
      ensures !stopping && FitsOnePass(old(store.jobs), chunk) ==> Left(store.jobs, Elems(chunk)) == 0
    {
      ghost var t := store.jobs;
      var names := Elems(chunk);
      var count, more := 0, true;
      batches := [];
      while more
        invariant store.Valid() && store.deps == old(store.deps) && (old(stopping) ==> stopping)
        invariant IsAudit(t, store.deps, names, batches, store.jobs)
        invariant AreBatches(batches)
        invariant more ==> |batches| == count && AreFull(batches)
        invariant more ==> count < MAX_BATCHES_PER_PASS && Left(store.jobs, names) + Capacity(count) == Left(t, names)
        invariant !more ==> stopping || Left(store.jobs, names) == 0
                            || Left(store.jobs, names) + Capacity(MAX_BATCHES_PER_PASS) == Left(t, names)
        decreases MAX_BATCHES_PER_PASS - count, more
      {
        if stopping {
          return;
        }
        var resolved;
        resolved, batches := OneMoreBatch(names, t, batches);
        if resolved >= FLOW_BATCH_SIZE {
          count := count + 1;
          more := count < MAX_BATCHES_PER_PASS && !stopping;
        } else {
          more := false;
        }
      }
    }

    // One chunk on top of what the pass has resolved.
    method OneMoreChunk(chunk: seq<string>, ghost t: Table, ghost before: set<Key>, ghost drained: set<string>)
      returns (ghost done: set<Key>)
      requires store.Valid() && Resolved(t, store.deps, drained, before, store.jobs)
      modifies store, this`stopping
      ensures store.Valid() && store.deps == old(store.deps) && (old(stopping) ==> stopping)
      ensures Resolved(t, store.deps, drained + Elems(chunk), done, store.jobs)
      ensures !stopping && before == Selectable(t, drained) && FitsOnePass(t, chunk) ==>
                done == Selectable(t, drained + Elems(chunk))
    {
      ghost var u := store.jobs;
      NoMoreIsLeft(t, store.deps, before, Elems(chunk));
      ghost var batches := DrainChunk(chunk);
      ghost var more := Union(batches);
      assert store.jobs == Resolve(u, store.deps, more) by {
        AuditIsOneStatement(u, store.deps, Elems(chunk), batches, store.jobs);
      }
      Onward(t, store.deps, before, more, Elems(chunk));
      done := before + more;
      ChunkStaysSelectable(t, store.deps, before, more, drained, Elems(chunk));
      if Left(store.jobs, Elems(chunk)) == 0 && before == Selectable(t, drained) {
        NoneIsLeft(t, store.deps, done, Elems(chunk));
        DrainedIsAll(t, store.deps, before, more, drained, Elems(chunk));
      }
    }

    // One pass over all queues. Nothing else runs: then the pass is one resolution of the parents it
    // took, and it takes all of them if every chunk fits into one pass.
    method Pass(groups: seq<Group>) returns (ghost done: set<Key>)
      requires store.Valid()
      modifies store, this`stopping
      ensures store.Valid() && store.deps == old(store.deps)
      ensures done <= Selectable(old(store.jobs), AllNames(groups))
      ensures store.jobs == Resolve(old(store.jobs), store.deps, done)
      ensures !stopping && EveryChunkFits(old(store.jobs), groups) ==>
                done == Selectable(old(store.jobs), AllNames(groups))
    {
      ghost var t := store.jobs;
      done := {};
      ghost var drained: set<string> := {};
      ResolveNothing(t, store.deps);
      for i := 0 to |groups|
        invariant store.Valid() && store.deps == old(store.deps) && drained == AllNames(groups[..i])
        invariant Resolved(t, store.deps, drained, done, store.jobs)
        invariant !stopping && EveryChunkFits(t, groups) ==> done == Selectable(t, drained)
      {
        if stopping {
          SomeNames(t, groups, i);
          return;
        }
        assert AllNames(groups[..i + 1]) == AllNames(groups[..i]) + Elems(groups[i].names);
        assert groups[i] in groups;
        done := DrainGroup(groups[i], t, done, drained);
        drained := drained + Elems(groups[i].names);
      }
      assert groups[..|groups|] == groups;
    }

    method DrainGroup(group: Group, ghost t: Table, ghost before: set<Key>,
                      ghost drained: set<string>) returns (ghost done: set<Key>)
      requires store.Valid() && Resolved(t, store.deps, drained, before, store.jobs)
      modifies store, this`stopping
      ensures store.Valid() && store.deps == old(store.deps) && (old(stopping) ==> stopping)
      ensures Resolved(t, store.deps, drained + Elems(group.names), done, store.jobs)
      ensures !stopping && before == Selectable(t, drained) && AllFit(t, Chunks(group.names))
              ==> done == Selectable(t, drained + Elems(group.names))
    {
      var names := group.names;
      done := before;
      ghost var audited := drained;
      ghost var fits := before == Selectable(t, drained) && AllFit(t, Chunks(group.names));
      while names != []
        invariant store.Valid() && store.deps == old(store.deps) && (old(stopping) ==> stopping)
        invariant audited + Elems(names) == drained + Elems(group.names)
        invariant fits ==> AllFit(t, Chunks(names))
        invariant Resolved(t, store.deps, audited, done, store.jobs)
        invariant !stopping && fits ==> done == Selectable(t, audited)
        decreases |names|
      {
        if stopping {
          assert Selectable(t, audited) <= Selectable(t, drained + Elems(group.names)) by {
            MoreNames(t, audited, drained + Elems(group.names));
          }
          return;
        }
        var n := if |names| < CHUNK_SIZE then |names| else CHUNK_SIZE;
        var chunk, rest := names[..n], names[n..];
        ghost var next := audited + Elems(chunk);
        assert && next + Elems(rest) == drained + Elems(group.names)
               && (fits ==> FitsOnePass(t, chunk) && AllFit(t, Chunks(rest))) by {
          ChunkOff(t, names, n);
          RegroupNames(audited, Elems(chunk), Elems(rest));
        }
        done := OneMoreChunk(chunk, t, done, audited);
        audited, names := next, rest;
      }
      assert audited == drained + Elems(group.names);
    }

    // An ungated pass; passes exclude each other.
    method ResolveNow(groups: seq<Group>) returns (ghost done: set<Key>)
      requires store.Valid() && !working
      modifies store, this
      ensures store.Valid() && !working && store.jobs == Resolve(old(store.jobs), store.deps, done)
      ensures old(stopping) ==> done == {}
      ensures !stopping && EveryChunkFits(old(store.jobs), groups) ==> Selectable(store.jobs, AllNames(groups)) == {}
      ensures !stopping && EveryChunkFits(old(store.jobs), groups) && HoldAllParents(old(store.jobs), groups) ==>
                forall k :: k in store.jobs && store.jobs[k].blocked ==> Safety.HasOpenParent(store.Now(), k)
    {
      ghost var t := store.jobs;
      ResolveNothing(t, store.deps);
      done := {};
      if stopping {
        return;
      }
      working := true;
      done := Pass(groups);
      working := false;
      SelectableAfter(t, store.deps, done, AllNames(groups));
      if !stopping && EveryChunkFits(t, groups) && HoldAllParents(t, groups) {
        NothingIsStuck(t, groups, store.deps, done, store.Now());
      }
    }
  }

  // The queues of all jobs with dependents are among the groups.
  predicate HoldAllParents(t: Table, groups: seq<Group>) {
    forall k :: k in t && t[k].blocking ==> k.name in AllNames(groups)
  }

  // After a pass over all of them that leaves nothing to resolve, whoever is blocked waits for somebody.
  lemma NothingIsStuck(t: Table, groups: seq<Group>, deps: set<Dep>, done: set<Key>, s: Runs.State)
    requires Runs.Inv(s) && s.jobs == Resolve(t, deps, done) && HoldAllParents(t, groups)
    requires Selectable(s.jobs, AllNames(groups)) == {}
    ensures forall k :: k in s.jobs && s.jobs[k].blocked ==> Safety.HasOpenParent(s, k)
  {
    forall p | p in s.jobs ensures !(s.jobs[p].blocking && s.jobs[p].state == Completed) {
      ResolveAt(t, deps, done, p);
      assert p !in Selectable(s.jobs, AllNames(groups));
    }
    forall k | k in s.jobs && s.jobs[k].blocked ensures Safety.HasOpenParent(s, k) {
      Safety.NoChildIsStuck(s, k);
    }
  }

  lemma RegroupNames(a: set<string>, b: set<string>, c: set<string>)
    ensures a + (b + c) == a + b + c
  {
  }

  lemma MoreNames(t: Table, a: set<string>, b: set<string>)
    requires a <= b
    ensures Selectable(t, a) <= Selectable(t, b)
  {
  }

  lemma SomeNames(t: Table, groups: seq<Group>, i: nat)
    requires i <= |groups|
    ensures Selectable(t, AllNames(groups[..i])) <= Selectable(t, AllNames(groups))
  {
    MoreNames(t, AllNames(groups[..i]), AllNames(groups));
  }

  lemma ChunkOff(t: Table, names: seq<string>, n: nat)
    requires names != [] && n == if |names| < CHUNK_SIZE then |names| else CHUNK_SIZE
    ensures Elems(names) == Elems(names[..n]) + Elems(names[n..])
    ensures AllFit(t, Chunks(names)) ==> FitsOnePass(t, names[..n]) && AllFit(t, Chunks(names[n..]))
  {
    assert names == names[..n] + names[n..];
    if |names| <= CHUNK_SIZE {
      assert names[..n] == names && names[n..] == [];
      assert names in Chunks(names);
    } else {
      assert names[..n] in Chunks(names);
      assert forall c :: c in Chunks(names[n..]) ==> c in Chunks(names);
    }
  }

  lemma ChunkStaysSelectable(t: Table, deps: set<Dep>, done: set<Key>, more: set<Key>, drained: set<string>,
                             chunk: set<string>)
    requires done <= Selectable(t, drained) && more <= Selectable(t, chunk)
    ensures done + more <= Selectable(t, drained + chunk)
  {
    SplitNames(t, drained, chunk);
  }

  lemma NoMoreIsLeft(t: Table, deps: set<Dep>, done: set<Key>, chunk: set<string>)
    ensures Left(Resolve(t, deps, done), chunk) <= Left(t, chunk)
  {
    SelectableAfter(t, deps, done, chunk);
    SubsetSize(Selectable(t, chunk) - done, Selectable(t, chunk));
  }

  lemma NoneIsLeft(t: Table, deps: set<Dep>, done: set<Key>, chunk: set<string>)
    requires Left(Resolve(t, deps, done), chunk) == 0
    ensures Selectable(t, chunk) <= done
  {
    SelectableAfter(t, deps, done, chunk);
    forall k | k in Selectable(t, chunk) ensures k in done {
      assert k !in done ==> k in Selectable(t, chunk) - done;
    }
  }

  lemma DrainedIsAll(t: Table, deps: set<Dep>, done: set<Key>, more: set<Key>, drained: set<string>, chunk: set<string>)
    requires done == Selectable(t, drained) && more <= Selectable(t, chunk) <= done + more
    ensures done + more == Selectable(t, drained + chunk)
  {
    SplitNames(t, drained, chunk);
  }
}
