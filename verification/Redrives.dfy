/**
 What a redrive may drop: the rows it deletes by id, and the new rows that meet a conflict in their queue.
 */
module Redrives {
  import opened Outcomes
  import opened JobTable
  import opened Statements
  import opened Runs
  import Failing

  function RedrivenKey(t: Table, destination: Option<string>, ids: map<Key, nat>, k: Key): Key
    requires k in t
  {
    Key(Destination(t[k], destination).GetOr(""), Failing.Lookup(ids, k, 0))
  }

  // A selection of a redrive: its jobs are in the table and have a destination, and the new ids are new.
  ghost predicate CanBeRedriven(t: Table, queues: Queues, table: string, order: seq<Key>, destination: Option<string>,
                                ids: map<Key, nat>) {
    && Distinct(order)
    && (forall k :: k in order ==>
          && k in t && k.name in queues && queues[k.name].table == table
          && Destination(t[k], destination).Some? && Destination(t[k], destination).value in queues
          && RedrivenKey(t, destination, ids, k) !in t)
    && (forall j, k :: j in order && k in order && j != k ==>
          RedrivenKey(t, destination, ids, j) != RedrivenKey(t, destination, ids, k))
  }

  function Redriven(t: Table, queues: Queues, destination: Option<string>, k: Key, now: real): Row
    requires k in t && Destination(t[k], destination).Some? && Destination(t[k], destination).value in queues
  {
    RedriveRow(queues[Destination(t[k], destination).value], t[k], now)
  }

  // Every candidate has its new row, and every other row is still there.
  ghost predicate NothingIsDropped(t: Table, t': Table, queues: Queues, table: string, order: seq<Key>,
                                   destination: Option<string>, ids: map<Key, nat>, now: real)
    requires CanBeRedriven(t, queues, table, order, destination, ids)
  {
    && (forall k :: k in t && k !in order ==> k in t' && t'[k] == t[k])
    && (forall k :: k in order ==>
          && RedrivenKey(t, destination, ids, k) in t'
          && t'[RedrivenKey(t, destination, ids, k)] == Redriven(t, queues, destination, k, now))
  }

  // No new row takes the slot of a row that stays, or of another new row.
  ghost predicate AllFit(t: Table, queues: Queues, table: string, order: seq<Key>, destination: Option<string>,
                         ids: map<Key, nat>, now: real)
    requires CanBeRedriven(t, queues, table, order, destination, ids)
  {
    && (forall j, k :: k in order && j in t && j !in order && j.name == RedrivenKey(t, destination, ids, k).name ==>
          !Collide(t[j], Redriven(t, queues, destination, k, now)))
    && (forall j, k :: j in order && k in order && j != k
                       && RedrivenKey(t, destination, ids, j).name == RedrivenKey(t, destination, ids, k).name ==>
          !Collide(Redriven(t, queues, destination, j, now), Redriven(t, queues, destination, k, now)))
  }

  // ---------- Inserting rows one after the other ----------

  datatype Entry = Entry(key: Key, row: Row)

  function Put(cur: Table, entries: seq<Entry>): Table {
    if entries == [] then cur
    else
      var e := entries[|entries| - 1];
      InsertIgnore(Put(cur, entries[..|entries| - 1]), e.key, e.row)
  }

  predicate FitTogether(d: Entry, e: Entry) {
    d.key != e.key && (d.key.name == e.key.name ==> !Collide(d.row, e.row))
  }

  ghost predicate EntriesFit(cur: Table, entries: seq<Entry>) {
    && (forall i :: 0 <= i < |entries| ==> CanInsert(cur, entries[i].key, entries[i].row))
    && (forall i, j :: 0 <= i < j < |entries| ==> FitTogether(entries[i], entries[j]))
  }

  ghost predicate AllAreIn(u: Table, cur: Table, entries: seq<Entry>) {
    && (forall k :: k in cur ==> k in u && u[k] == cur[k])
    && (forall e :: e in entries ==> e.key in u && u[e.key] == e.row)
    && (forall k :: k in u && k !in cur ==> Entry(k, u[k]) in entries)
  }

  lemma NextFits(u: Table, cur: Table, entries: seq<Entry>, e: Entry)
    requires AllAreIn(u, cur, entries) && CanInsert(cur, e.key, e.row) && forall d :: d in entries ==> FitTogether(d, e)
    ensures CanInsert(u, e.key, e.row)
  {
    forall j | j in u ensures j != e.key && (j.name == e.key.name ==> !Collide(u[j], e.row)) {
      if j !in cur {
        assert FitTogether(Entry(j, u[j]), e);
      }
    }
  }

  lemma OneMoreIsIn(u: Table, cur: Table, entries: seq<Entry>, e: Entry)
    requires AllAreIn(u, cur, entries) && e.key !in u
    ensures AllAreIn(u[e.key := e.row], cur, entries + [e])
  {
  }

  lemma EarlierFit(cur: Table, entries: seq<Entry>, e: Entry)
    requires EntriesFit(cur, entries + [e])
    ensures EntriesFit(cur, entries) && CanInsert(cur, e.key, e.row) && forall d :: d in entries ==> FitTogether(d, e)
  {
    var all := entries + [e];
    assert all[|entries|] == e;
    forall i, j | 0 <= i < j < |entries| ensures FitTogether(entries[i], entries[j]) {
      assert FitTogether(all[i], all[j]);
    }
    forall i | 0 <= i < |entries| ensures CanInsert(cur, entries[i].key, entries[i].row) && FitTogether(entries[i], e) {
      assert CanInsert(cur, all[i].key, all[i].row) && FitTogether(all[i], all[|entries|]);
    }
  }

  lemma {:induction false} FittingEntriesGoIn(cur: Table, entries: seq<Entry>)
    requires EntriesFit(cur, entries)
    ensures AllAreIn(Put(cur, entries), cur, entries)
  {
    if entries != [] {
      var before, e := entries[..|entries| - 1], entries[|entries| - 1];
      assert entries == before + [e];
      EarlierFit(cur, before, e);
      assert AllAreIn(Put(cur, before), cur, before) by { FittingEntriesGoIn(cur, before); }
      NextFits(Put(cur, before), cur, before, e);
      OneMoreIsIn(Put(cur, before), cur, before, e);
    }
  }

  predicate HaveDestinations(t: Table, queues: Queues, order: seq<Key>, destination: Option<string>) {
    forall k :: k in order ==>
      k in t && Destination(t[k], destination).Some? && Destination(t[k], destination).value in queues
  }

  function Entries(t: Table, queues: Queues, order: seq<Key>, destination: Option<string>,
                   ids: map<Key, nat>, now: real): (entries: seq<Entry>)
    requires HaveDestinations(t, queues, order, destination)
    ensures |entries| == |order|
    ensures forall i :: 0 <= i < |order| ==>
              && order[i] in order
              && entries[i].key == RedrivenKey(t, destination, ids, order[i])
              && entries[i].row == Redriven(t, queues, destination, order[i], now)
  {
    seq(|order|, i requires 0 <= i < |order| =>
      assert order[i] in order;
      Entry(RedrivenKey(t, destination, ids, order[i]), Redriven(t, queues, destination, order[i], now)))
  }

  lemma {:induction false} RecreateIsPut(cur: Table, t: Table, queues: Queues, order: seq<Key>,
                                         destination: Option<string>, ids: map<Key, nat>, now: real)
    requires HaveDestinations(t, queues, order, destination)
    ensures Recreate(cur, t, order, destination, ids, queues, now)
            == Put(cur, Entries(t, queues, order, destination, ids, now))
  {
    if order != [] {
      var n := |order| - 1;
      RecreateIsPut(cur, t, queues, order[..n], destination, ids, now);
      assert Entries(t, queues, order, destination, ids, now)[..n]
          == Entries(t, queues, order[..n], destination, ids, now);
    }
  }

  lemma AllFitIsEntriesFit(t: Table, queues: Queues, table: string, order: seq<Key>, destination: Option<string>,
                           ids: map<Key, nat>, now: real)
    requires CanBeRedriven(t, queues, table, order, destination, ids)
    requires AllFit(t, queues, table, order, destination, ids, now)
    ensures EntriesFit(Without(t, Elems(order)), Entries(t, queues, order, destination, ids, now))
  {
    var entries := Entries(t, queues, order, destination, ids, now);
    forall i | 0 <= i < |entries| ensures CanInsert(Without(t, Elems(order)), entries[i].key, entries[i].row) {
      assert order[i] in order;
    }
    forall i, j | 0 <= i < j < |entries| ensures FitTogether(entries[i], entries[j]) {
      assert order[i] in order && order[j] in order && order[i] != order[j];
    }
  }

  lemma AllGoIn(t: Table, queues: Queues, table: string, order: seq<Key>, destination: Option<string>,
                ids: map<Key, nat>, now: real)
    requires CanBeRedriven(t, queues, table, order, destination, ids)
    requires AllFit(t, queues, table, order, destination, ids, now)
    ensures NothingIsDropped(t, Recreate(Without(t, Elems(order)), t, order, destination, ids, queues, now),
                             queues, table, order, destination, ids, now)
  {
    var cur, entries := Without(t, Elems(order)), Entries(t, queues, order, destination, ids, now);
    AllFitIsEntriesFit(t, queues, table, order, destination, ids, now);
    assert AllAreIn(Put(cur, entries), cur, entries) by { FittingEntriesGoIn(cur, entries); }
    RecreateIsPut(cur, t, queues, order, destination, ids, now);
    forall k | k in order
      ensures Entry(RedrivenKey(t, destination, ids, k), Redriven(t, queues, destination, k, now)) in entries
    {
      var i :| 0 <= i < |order| && order[i] == k;
      assert entries[i] in entries;
    }
  }

  // ---------- What is dropped ----------

  lemma CandidatesAreNew(t: Table, queues: Queues, table: string, order: seq<Key>, destination: Option<string>,
                         ids: map<Key, nat>)
    requires CanBeRedriven(t, queues, table, order, destination, ids)
    ensures RedriveIdsAreNew(t, order, destination, ids)
    ensures Elems(order) <= DeletedBy(t, queues, table, order)
  {
    forall k | k in order
      ensures k in t && Key(Destination(t[k], destination).value, Failing.Lookup(ids, k, 0)) !in t
    {
      assert RedrivenKey(t, destination, ids, k) !in t;
    }
    forall k | k in Elems(order) ensures k in DeletedBy(t, queues, table, order) {
      assert k.id in Failing.IdsOf(Elems(order));
    }
  }

  // Rows that a table without duplicates holds side by side fit.
  lemma SideBySideFit(t: Table, t': Table, queues: Queues, table: string, order: seq<Key>, destination: Option<string>,
                      ids: map<Key, nat>, now: real)
    requires CanBeRedriven(t, queues, table, order, destination, ids) && Unique(t')
    requires NothingIsDropped(t, t', queues, table, order, destination, ids, now)
    ensures AllFit(t, queues, table, order, destination, ids, now)
  {
    forall j, k | k in order && j in t && j !in order && j.name == RedrivenKey(t, destination, ids, k).name
      ensures !Collide(t[j], Redriven(t, queues, destination, k, now))
    {
      assert !Collide(t'[j], t'[RedrivenKey(t, destination, ids, k)]);
    }
    forall j, k | j in order && k in order && j != k
                  && RedrivenKey(t, destination, ids, j).name == RedrivenKey(t, destination, ids, k).name
      ensures !Collide(Redriven(t, queues, destination, j, now), Redriven(t, queues, destination, k, now))
    {
      assert !Collide(t'[RedrivenKey(t, destination, ids, j)], t'[RedrivenKey(t, destination, ids, k)]);
    }
  }

  lemma RedriveIsRecreate(t: Table, queues: Queues, table: string, order: seq<Key>, destination: Option<string>,
                          ids: map<Key, nat>, now: real)
    requires CanBeRedriven(t, queues, table, order, destination, ids)
    ensures Redrive(t, table, order, destination, ids, queues, now)
            == Recreate(Without(t, DeletedBy(t, queues, table, order)), t, order, destination, ids, queues, now)
  {
    if order == [] {
      assert DeletedBy(t, queues, table, order) == {};
      assert Without(t, {}) == t;
    }
  }

  lemma DroppingNothingFits(t: Table, queues: Queues, table: string, order: seq<Key>, destination: Option<string>,
                            ids: map<Key, nat>, now: real)
    requires Unique(t) && CanBeRedriven(t, queues, table, order, destination, ids)
    requires NothingIsDropped(t, Redrive(t, table, order, destination, ids, queues, now), queues, table, order,
                              destination, ids, now)
    ensures DeletedBy(t, queues, table, order) <= Elems(order)
    ensures AllFit(t, queues, table, order, destination, ids, now)
  {
    var t' := Redrive(t, table, order, destination, ids, queues, now);
    var kept := Without(t, DeletedBy(t, queues, table, order));
    assert RedriveIdsAreNew(t, order, destination, ids) by {
      CandidatesAreNew(t, queues, table, order, destination, ids);
    }
    assert t' == Recreate(kept, t, order, destination, ids, queues, now) by {
      RedriveIsRecreate(t, queues, table, order, destination, ids, now);
    }
    assert Unique(kept) by { NarrowingKeepsUnique(t, kept); }
    RecreateEvolves(kept, t, order, destination, ids, queues, now);
    SideBySideFit(t, t', queues, table, order, destination, ids, now);
  }

  lemma FittingDropsNothing(t: Table, queues: Queues, table: string, order: seq<Key>, destination: Option<string>,
                            ids: map<Key, nat>, now: real)
    requires CanBeRedriven(t, queues, table, order, destination, ids)
    requires DeletedBy(t, queues, table, order) <= Elems(order)
    requires AllFit(t, queues, table, order, destination, ids, now)
    ensures NothingIsDropped(t, Redrive(t, table, order, destination, ids, queues, now), queues, table, order,
                             destination, ids, now)
  {
    assert DeletedBy(t, queues, table, order) == Elems(order) by {
      CandidatesAreNew(t, queues, table, order, destination, ids);
    }
    RedriveIsRecreate(t, queues, table, order, destination, ids, now);
    AllGoIn(t, queues, table, order, destination, ids, now);
  }

  // A redrive drops no row exactly if no other row of the physical table has the id of a candidate, and every
  // new row fits its queue.
  lemma RedriveDropsNothingIff(t: Table, queues: Queues, table: string, order: seq<Key>, destination: Option<string>,
                               ids: map<Key, nat>, now: real)
    requires Unique(t) && CanBeRedriven(t, queues, table, order, destination, ids)
    ensures NothingIsDropped(t, Redrive(t, table, order, destination, ids, queues, now), queues, table, order,
                             destination, ids, now)
            <==> DeletedBy(t, queues, table, order) <= Elems(order)
                 && AllFit(t, queues, table, order, destination, ids, now)
  {
    if NothingIsDropped(t, Redrive(t, table, order, destination, ids, queues, now), queues, table, order,
                        destination, ids, now) {
      DroppingNothingFits(t, queues, table, order, destination, ids, now);
    }
    if DeletedBy(t, queues, table, order) <= Elems(order) && AllFit(t, queues, table, order, destination, ids, now) {
      FittingDropsNothing(t, queues, table, order, destination, ids, now);
    }
  }

  // The single statement moves the rows that share an id with a candidate along with it, so that it drops nothing
  // exactly if every new row fits its queue.
  lemma SingleRedriveDropsNothingIff(t: Table, queues: Queues, table: string, candidates: seq<Key>, order: seq<Key>,
                                     destination: Option<string>, ids: map<Key, nat>, now: real)
    requires Unique(t) && AreAllDeleted(t, queues, table, candidates, order)
    requires forall k :: k in candidates ==> k in t && k.name in queues && queues[k.name].table == table
    requires CanBeRedriven(t, queues, table, order, destination, ids)
    ensures NothingIsDropped(t, Redrive(t, table, order, destination, ids, queues, now), queues, table, order,
                             destination, ids, now)
            <==> AllFit(t, queues, table, order, destination, ids, now)
  {
    assert DeletedBy(t, queues, table, order) <= Elems(order) by { AllHaveTheIds(t, queues, table, candidates, order); }
    RedriveDropsNothingIff(t, queues, table, order, destination, ids, now);
  }

  // The split form loses such a row, wherever it would belong.
  lemma SplitRedriveLosesTheOther(t: Table, queues: Queues, table: string, candidates: seq<Key>, order: seq<Key>,
                                  destination: Option<string>, ids: map<Key, nat>, now: real, k: Key)
    requires Unique(t) && CanBeRedriven(t, queues, table, candidates, destination, ids)
    requires AreAllDeleted(t, queues, table, candidates, order)
    requires k in order && k !in candidates
    ensures k !in Redrive(t, table, candidates, destination, ids, queues, now)
    ensures !NothingIsDropped(t, Redrive(t, table, candidates, destination, ids, queues, now), queues, table,
                              candidates, destination, ids, now)
  {
    assert k in Elems(order);
    RedriveIsRecreate(t, queues, table, candidates, destination, ids, now);
    assert RedriveIdsAreNew(t, candidates, destination, ids) by {
      CandidatesAreNew(t, queues, table, candidates, destination, ids);
    }
    var kept := Without(t, DeletedBy(t, queues, table, candidates));
    RecreateEvolves(kept, t, candidates, destination, ids, queues, now);
    assert k !in kept;
  }
}
