/**
 The job table as the manager uses it: every operation issues its statements in order on the rows
 kept here. Each method is one step of a run (or several, where the source issues several
 transactions), and each keeps the invariant of Runs.
 */
module JobStore {
  import opened Outcomes
  import opened JobTable
  import opened Resolution
  import opened Statements
  import opened Lifecycle
  import opened Runs
  import Conservation
  import FailedJobs
  import Failing
  import FetchedJobs
  import Fetching
  import FlowBuilder
  import FlowValidation
  import Laws
  import Settings

  // A step that can be taken: its choices fit the table, and generated ids are new.
  ghost predicate Possible(queues: Queues, s: State, e: Step) {
    Enabled(queues, s, e) && forall k :: k in After(queues, s, e).0 && k !in s.jobs ==> k !in s.h.used
  }

  // ---------- Where new keys come from ----------

  lemma {:induction false} InsertAddsItems(t: Table, items: seq<Item>, queues: Queues, now: real, k: Key)
    requires k in Insert(t, items, queues, now) && k !in t
    ensures exists i :: 0 <= i < |items| && KeyOf(items[i]) == k
  {
    if items != [] && k != KeyOf(items[|items| - 1]) {
      InsertAddsItems(t, items[..|items| - 1], queues, now, k);
      var i :| 0 <= i < |items| - 1 && KeyOf(items[..|items| - 1][i]) == k;
      assert KeyOf(items[i]) == k;
    }
  }

  lemma {:induction false} InsertAllAddsItems(t: Table, items: seq<Item>, queues: Queues, now: real, k: Key)
    requires InsertAll(t, items, queues, now).Some? && k in InsertAll(t, items, queues, now).value && k !in t
    ensures exists i :: 0 <= i < |items| && KeyOf(items[i]) == k
  {
    if items != [] && k != KeyOf(items[|items| - 1]) {
      InsertAllAddsItems(t, items[..|items| - 1], queues, now, k);
      var i :| 0 <= i < |items| - 1 && KeyOf(items[..|items| - 1][i]) == k;
      assert KeyOf(items[i]) == k;
    }
  }

  lemma {:induction false} RecreateAddsNewIds(cur: Table, was: Table, order: seq<Key>,
                      destination: Option<string>, newIds: map<Key, nat>,
                                              queues: Queues, now: real, k: Key)
    requires forall j :: j in order ==> j in was
    requires k in Recreate(cur, was, order, destination, newIds, queues, now) && k !in cur
    ensures exists j :: j in order && Destination(was[j], destination).Some?
                        && k == Key(Destination(was[j], destination).value, Failing.Lookup(newIds, j, 0))
  {
    if order != [] {
      var last := order[|order| - 1];
      if k in Recreate(cur, was, order[..|order| - 1], destination, newIds, queues, now) {
        RecreateAddsNewIds(cur, was, order[..|order| - 1], destination, newIds, queues, now, k);
        var j :| j in order[..|order| - 1] && Destination(was[j], destination).Some?
                 && k == Key(Destination(was[j], destination).value, Failing.Lookup(newIds, j, 0));
        assert j in order;
      } else {
        assert last in order;
      }
    }
  }

  // Redriven jobs get keys that were never used.
  ghost predicate AreNewIds(s: State, order: seq<Key>, destination: Option<string>, newIds: map<Key, nat>) {
    forall k :: k in order ==>
      && k in s.jobs
      && (Destination(s.jobs[k], destination).Some? ==>
            Key(Destination(s.jobs[k], destination).value, Failing.Lookup(newIds, k, 0)) !in s.h.used)
  }

  lemma UpdateHits(t: Table, queues: Queues, table: string, targets: set<Key>, e: Edit, k: Key)
    requires k in targets && k in t && Before(t[k].state, Active) && k.name in queues && queues[k.name].table == table
    ensures var t' := Statements.Update(t, queues, table, targets, e); k in t' && t'[k] == EditRow(t[k], e)
  {
    assert k.id in Failing.IdsOf(targets);
    assert k in Failing.RowsWithIds(t, queues, table, Failing.IdsOf(targets));
  }

  lemma UpdateHitsTargets(t: Table, queues: Queues, name: string, target: Option<nat>, key: string,
                      targets: set<Key>, e: Edit)
    requires name in queues && forall k :: k in targets ==> IsTarget(t, name, target, key, k)
    ensures var t' := Statements.Update(t, queues, queues[name].table, targets, e);
            forall k :: k in targets ==> k in t && k in t' && t'[k] == EditRow(t[k], e)
  {
    var t' := Statements.Update(t, queues, queues[name].table, targets, e);
    forall k | k in targets ensures k in t && k in t' && t'[k] == EditRow(t[k], e) {
      assert IsTarget(t, name, target, key, k);
      UpdateHits(t, queues, queues[name].table, targets, e, k);
    }
  }

  // The targets are edited as asked, and nothing changes but the rows that are found by their ids.
  ghost predicate IsUpdated(t: Table, t': Table, queues: Queues, table: string, targets: set<Key>, e: Edit) {
    && (forall k :: k in targets ==> k in t && k in t' && Settings.IsEditedAsAsked(t[k], t'[k], e))
    && (forall k :: k in t && !IsFoundById(t, queues, table, targets, k) ==> k in t' && t'[k] == t[k])
  }

  // A queued job in the physical table with the id of a target.
  predicate IsFoundById(t: Table, queues: Queues, table: string, targets: set<Key>, k: Key) {
    && k in t && (t[k].state == Created || t[k].state == Retry) && k.name in queues && queues[k.name].table == table
    && exists j :: j in targets && j.id == k.id
  }

  lemma UpdateIs(t: Table, queues: Queues, name: string, target: Option<nat>, key: string, how: Match,
                 targets: set<Key>, e: Edit)
    requires name in queues && IsTargets(t, name, target, key, how, targets)
    ensures IsUpdated(t, Statements.Update(t, queues, queues[name].table, targets, e), queues, queues[name].table,
                      targets, e)
    ensures Failing.IdsOf(Touched(t, queues, queues[name].table, targets)) == Failing.IdsOf(targets)
  {
    var table := queues[name].table;
    var t' := Statements.Update(t, queues, table, targets, e);
    UpdateHitsTargets(t, queues, name, target, key, targets, e);
    AnsweredIds(t, queues, name, target, key, targets);
    forall k | k in targets ensures k in t && k in t' && Settings.IsEditedAsAsked(t[k], t'[k], e) {
      Settings.EditRowIsAsAsked(t[k], e);
    }
    forall k | k in t && !IsFoundById(t, queues, table, targets, k) ensures k in t' && t'[k] == t[k] {
      Settings.TouchedAre(t, queues, table, targets, k);
    }
  }

  lemma UpdateAddsNothing(queues: Queues, s: State, table: string, targets: set<Key>, e: Edit)
    ensures Possible(queues, s, DoUpdate(table, targets, e))
  {
  }

  lemma RedriveAddsNewIds(queues: Queues, s: State, table: string, order: seq<Key>,
                      destination: Option<string>, newIds: map<Key, nat>, now: real)
    requires s.jobs.Keys <= s.h.used && AreNewIds(s, order, destination, newIds)
    ensures Possible(queues, s, DoRedrive(table, order, destination, newIds, now))
  {
    var t' := Statements.Redrive(s.jobs, table, order, destination, newIds, queues, now);
    forall k | k in t' && k !in s.jobs ensures k !in s.h.used {
      var gone := DeletedBy(s.jobs, queues, table, order);
      RecreateAddsNewIds(Without(s.jobs, gone), s.jobs, order, destination, newIds, queues, now, k);
    }
  }

  lemma SizeWithout(t: Table, gone: set<Key>)
    requires gone <= t.Keys
    ensures |Without(t, gone)| == |t| - |gone|
  {
    assert Without(t, gone).Keys == t.Keys - gone;
    assert |t.Keys - gone| == |t.Keys| - |gone|;
    assert |Without(t, gone)| == |Without(t, gone).Keys| && |t| == |t.Keys|;
  }

  // The dead-letter copies of a batch get keys that were never used.
  ghost predicate CopiesAreNew(s: State, order: seq<Key>, p: Failing.Params, queues: Queues) {
    forall k :: k in order && k in s.jobs && Failing.HasDeadLetter(s.jobs[k], queues)
                ==> Failing.DeadLetterKey(s.jobs[k], p, k) !in s.h.used
  }

  lemma SplitFailAddsCopies(s: State, deleted: set<Key>, order: seq<Key>, p: Failing.Params, queues: Queues)
    requires Failing.Ready(s.jobs, deleted, order, p, queues) && CopiesAreNew(s, order, p, queues)
    ensures Possible(queues, s, DoSplitFail(deleted, order, p))
  {
    if order != [] {
      var t := s.jobs;
      Failing.SplitFailMeetsOutcome(t, deleted, order, p, queues);
      var g := Failing.Granted(t, deleted, order, p);
      var v := Failing.Verdict(Elems(order), g, deleted - Elems(order), Failing.Dead(t, Elems(order) - g, queues));
      OutcomeAddsCopies(s, Failing.SplitFail(t, deleted, order, p, queues), order, v, p, queues, false);
    }
  }

  lemma CteFailAddsCopies(s: State, order: seq<Key>, p: Failing.Params, queues: Queues)
    requires Failing.Ready(s.jobs, Elems(order), order, p, queues) && CopiesAreNew(s, order, p, queues)
    ensures Possible(queues, s, DoFail(order, p)) && Failing.CteFail(s.jobs, order, p, queues).Some?
  {
    var t := s.jobs;
    Failing.CteFailMeetsOutcome(t, order, p, queues);
    var g := Failing.Granted(t, Elems(order), order, p);
    var lost := Failing.SharedIdLosses(t, order, g, p);
    var v := Failing.Verdict(Elems(order), g, lost, Failing.Dead(t, Elems(order) - g - lost, queues));
    OutcomeAddsCopies(s, Failing.CteFail(t, order, p, queues).value, order, v, p, queues, true);
  }

  lemma OutcomeAddsCopies(s: State, t': Table, order: seq<Key>, v: Failing.Verdict, p: Failing.Params,
                      queues: Queues, cte: bool)
    requires forall k :: k in s.jobs ==> s.jobs[k].retryCount >= 0
    requires Failing.Outcome(t', s.jobs, v, p, queues, cte) && CopiesAreNew(s, order, p, queues)
    requires forall k :: k in v.copied ==> k in order
    ensures forall k :: k in t' && k !in s.jobs ==> k !in s.h.used
  {
    forall k | k in t' && k !in s.jobs ensures k !in s.h.used {
      assert Failing.IsCopy(s.jobs, v.copied, p, k);
      var j :| j in v.copied && j in s.jobs && k == Failing.DeadLetterKey(s.jobs[j], p, j);
      assert Failing.Copied(t', s.jobs[j], p, j, queues);
    }
  }

  // Within one queue the ids tell the jobs apart, so the statement's NOT IN by id is exact.
  lemma NamedFailKeepsAll(t: Table, name: string, ids: set<nat>, order: seq<Key>, p: Failing.Params, queues: Queues)
    requires Elems(order) == Failing.SelectedById(t, name, ids)
    requires Failing.Ready(t, Elems(order), order, p, queues)
    ensures var r := Failing.CteFail(t, order, p, queues);
            r.Some? && t.Keys <= r.value.Keys && |set k | k in order && k in r.value| == |order|
  {
    Conservation.CteConservesIff(t, order, p, queues);
    forall j, k | j in order && k in order && j.id == k.id ensures j == k {
      assert j in Failing.SelectedById(t, name, ids) && k in Failing.SelectedById(t, name, ids);
    }
    SizeOfElems(order);
    var r := Failing.CteFail(t, order, p, queues).value;
    forall k | k in order ensures k in r {
      assert k in Elems(order);
    }
    assert (set k | k in order && k in r) == Elems(order);
  }

  // The named jobs that are running, or with includeQueued waiting or blocked as well.
  function CompletedBy(t: Table, name: string, ids: set<nat>, includeQueued: bool): set<Key> {
    set k | k in t && k.name == name && k.id in ids
            && (t[k].state == Active || (includeQueued && (t[k].state == Created || t[k].state == Retry)))
  }

  // They are completed with their outputs, and with includeQueued no longer blocked; all others are as before.
  ghost predicate AreCompleted(t: Table, t': Table, name: string, outputs: map<nat, Option<Json>>, includeQueued: bool,
                               now: real) {
    && t'.Keys == t.Keys
    && forall k :: k in t ==>
         if k in CompletedBy(t, name, outputs.Keys, includeQueued)
         then && t'[k].state == Completed && t'[k].completedOn == Some(now) && t'[k].output == outputs[k.id]
              && (includeQueued ==> !t'[k].blocked && t'[k].pending == 0)
              && t'[k] == t[k].(state := Completed, completedOn := t'[k].completedOn, output := t'[k].output,
                                blocked := t'[k].blocked, pending := t'[k].pending)
              && (!includeQueued ==> t'[k].blocked == t[k].blocked && t'[k].pending == t[k].pending)
         else t'[k] == t[k]
  }

  lemma CompleteIs(t: Table, name: string, outputs: map<nat, Option<Json>>, includeQueued: bool, now: real)
    ensures AreCompleted(t, Statements.Complete(t, name, outputs, now, includeQueued), name, outputs, includeQueued,
                         now)
    ensures (set k | k in t && Completes(k, t[k], name, outputs, includeQueued))
            == CompletedBy(t, name, outputs.Keys, includeQueued)
  {
    var t' := Statements.Complete(t, name, outputs, now, includeQueued);
    forall k | k in t
      ensures Completes(k, t[k], name, outputs, includeQueued)
              <==> k in CompletedBy(t, name, outputs.Keys, includeQueued)
    {
    }
  }

  // The rows that are due are gone, all others are as before.
  ghost predicate IsSwept(t: Table, t': Table, names: set<string>, now: real) {
    && (forall k :: k in t' ==> k in t && t'[k] == t[k])
    && (forall k :: k in t ==> (k in t' <==> !Settings.IsDue(k, t[k], names, now)))
  }

  lemma SweepIs(t: Table, names: set<string>, now: real)
    ensures IsSwept(t, Without(t, Swept(t, names, now)), names, now)
  {
    forall k | k in t ensures k in Swept(t, names, now) <==> Settings.IsDue(k, t[k], names, now) {
      Settings.SweptIffDue(t, names, now, k);
    }
  }

  // The named jobs that are not finished.
  function Unfinished(t: Table, name: string, ids: set<nat>): set<Key> {
    set k | k in t && k.name == name && k.id in ids && t[k].state in {Created, Retry, Active}
  }

  lemma UnfinishedAre(t: Table, name: string, ids: set<nat>)
    ensures Unfinished(t, name, ids) == Failing.SelectedById(t, name, ids)
  {
  }

  lemma ResumeBringsBack(t: Table, name: string, ids: set<nat>)
    ensures AreResumed(t, ResumedRows(t, name, ids), name, ids)
  {
  }

  lemma RetryBringsBack(t: Table, name: string, ids: set<nat>)
    ensures AreRetried(t, RetriedRows(t, name, ids), name, ids)
  {
  }

  // The named jobs in a given state.
  function NamedIn(t: Table, name: string, ids: set<nat>, state: JobState): set<Key> {
    set k | k in t && k.name == name && k.id in ids && t[k].state == state
  }

  lemma FetchIsPossible(queues: Queues, s: State, name: string, policy: Policy, o: Fetching.Options, source: set<Key>,
                        now: real)
    requires Fetching.IsSource(s.jobs, name, policy, o, now, source)
    ensures source <= s.jobs.Keys && Possible(queues, s, DoFetch(name, policy, o, source, now))
    ensures After(queues, s, DoFetch(name, policy, o, source, now))
            == (FetchTable(s.jobs, name, o, source, now), s.deps)
  {
    Fetching.SourceIsCandidates(s.jobs, name, policy, o, now, source);
  }

  lemma ResumeIsPossible(queues: Queues, s: State, name: string, ids: set<nat>)
    ensures Possible(queues, s, DoResume(name, ids))
    ensures After(queues, s, DoResume(name, ids)) == (Statements.Resume(s.jobs, name, ids), s.deps)
  {
  }

  lemma RetryIsPossible(queues: Queues, s: State, name: string, ids: set<nat>)
    ensures Possible(queues, s, DoRetry(name, ids))
    ensures After(queues, s, DoRetry(name, ids)) == (RetryByHand(s.jobs, name, ids), s.deps)
  {
  }

  // The select of a redrive: candidates in the order of their creation, the oldest up to the limit.
  ghost predicate AreOldest(t: Table, queues: Queues, name: string, destination: Option<string>,
                            sourceName: Option<string>, limit: nat, order: seq<Key>) {
    && Distinct(order) && |order| <= limit
    && (forall i :: 0 <= i < |order| ==> Redrivable(t, queues, name, destination, sourceName, order[i]))
    && (forall i, j :: 0 <= i < j < |order| ==> t[order[i]].createdOn <= t[order[j]].createdOn)
    && (forall k :: Redrivable(t, queues, name, destination, sourceName, k) && k !in order ==>
          |order| == limit && forall j :: j in order ==> t[j].createdOn <= t[k].createdOn)
  }

  lemma AllAreRedrivable(t: Table, queues: Queues, name: string, destination: Option<string>,
                         sourceName: Option<string>, limit: nat, order: seq<Key>)
    requires AreOldest(t, queues, name, destination, sourceName, limit, order)
    ensures forall k :: k in order ==> k in t && Settings.IsRedrivable(t, queues, name, destination, sourceName, k)
  {
    forall k | k in order ensures k in t && Settings.IsRedrivable(t, queues, name, destination, sourceName, k) {
      var i :| 0 <= i < |order| && order[i] == k;
      Settings.RedrivableIs(t, queues, name, destination, sourceName, k);
    }
  }

  predicate SharesId(queues: Queues, table: string, order: seq<Key>, k: Key) {
    k.name in queues && queues[k.name].table == table && exists j :: j in order && j.id == k.id
  }

  // The rows in the physical table with the id of a job in the order are gone, all others are as before, and each
  // new row is that of a job in the order, at its destination.
  ghost predicate IsRedriven(t: Table, t': Table, queues: Queues, table: string, order: seq<Key>,
                             destination: Option<string>, newIds: map<Key, nat>, now: real) {
    && (forall k :: k in t ==>
          if SharesId(queues, table, order, k) then k !in t' else k in t' && t'[k] == t[k])
    && (forall k :: k in t' && k !in t ==>
          Settings.CameFrom(t, order, destination, newIds, queues, now, k, t'[k]))
  }

  lemma RedriveIs(t: Table, queues: Queues, table: string, order: seq<Key>,
                  destination: Option<string>, newIds: map<Key, nat>, now: real)
    requires RedriveIdsAreNew(t, order, destination, newIds)
    ensures IsRedriven(t, Statements.Redrive(t, table, order, destination, newIds, queues, now), queues, table, order,
                       destination, newIds, now)
  {
    var t' := Statements.Redrive(t, table, order, destination, newIds, queues, now);
    forall k | k in t' && k !in t
      ensures Settings.CameFrom(t, order, destination, newIds, queues, now, k, t'[k])
    {
      Settings.RedrivenCameFrom(t, table, order, destination, newIds, queues, now, k);
    }
    var gone := DeletedBy(t, queues, table, order);
    forall k | k in t ensures k in gone <==> SharesId(queues, table, order, k) {
      if SharesId(queues, table, order, k) {
        var j :| j in order && j.id == k.id;
        assert j in Elems(order);
      }
    }
    if order != [] {
      RecreateEvolves(Without(t, gone), t, order, destination, newIds, queues, now);
    }
  }

  lemma AllAreDeleted(t: Table, queues: Queues, name: string, destination: Option<string>, sourceName: Option<string>,
                      limit: nat, candidates: seq<Key>, order: seq<Key>)
    requires AreOldest(t, queues, name, destination, sourceName, limit, candidates) && name in queues
    requires AreAllDeleted(t, queues, queues[name].table, candidates, order)
    ensures DeletedBy(t, queues, queues[name].table, order) == DeletedBy(t, queues, queues[name].table, candidates)
  {
    forall i | 0 <= i < |candidates| ensures candidates[i] in t && candidates[i].name == name {
      assert Redrivable(t, queues, name, destination, sourceName, candidates[i]);
    }
    AllHaveTheIds(t, queues, queues[name].table, candidates, order);
  }

  // Each updated row answers its id; these are the ids of the targets.
  lemma AnsweredIds(t: Table, queues: Queues, name: string, target: Option<nat>, key: string, targets: set<Key>)
    requires name in queues && forall k :: k in targets ==> IsTarget(t, name, target, key, k)
    ensures Failing.IdsOf(Touched(t, queues, queues[name].table, targets)) == Failing.IdsOf(targets)
  {
    forall k | k in targets ensures k in Touched(t, queues, queues[name].table, targets) {
      assert IsTarget(t, name, target, key, k);
      assert k.id in Failing.IdsOf(targets);
    }
  }

  lemma ExpiredAre(t: Table, queues: Queues, table: string, names: set<string>, now: real, byHeartbeat: bool,
                   order: seq<Key>)
    requires Elems(order) == if byHeartbeat then HeartbeatMissed(t, names, now) else TimedOut(t, names, now)
    ensures forall k :: k in order ==> Settings.IsLate(t, names, now, byHeartbeat, k)
    ensures forall k :: k in t && !SharesId(queues, table, order, k) ==>
              k !in Failing.RowsWithIds(t, queues, table, Failing.IdsOf(Elems(order)))
  {
    forall k | k in order ensures Settings.IsLate(t, names, now, byHeartbeat, k) {
      assert k in Elems(order);
      Settings.LateIff(t, names, now, k);
    }
  }

  // A batch of one audit: as many parents as there are, up to the limit.
  ghost predicate IsBatch(t: Table, names: set<string>, limit: nat, batch: set<Key>) {
    batch <= Selectable(t, names) && |batch| == Min(limit, |Selectable(t, names)|)
  }

  // A completed parent with dependents, in one of the queues.
  predicate IsReady(t: Table, names: set<string>, k: Key) {
    k in t && k.name in names && t[k].state == Completed && t[k].blocking
  }

  lemma BatchIsReady(t: Table, names: set<string>, limit: nat, batch: set<Key>)
    requires IsBatch(t, names, limit, batch)
    ensures |batch| <= limit && forall k :: k in batch ==> IsReady(t, names, k)
    ensures |batch| < limit ==> forall k :: IsReady(t, names, k) ==> k in batch
  {
    forall k ensures k in Selectable(t, names) <==> IsReady(t, names, k) {
    }
    SubsetSize(batch, Selectable(t, names));
  }

  lemma BatchIsPossible(queues: Queues, s: State, names: set<string>, limit: nat, batch: set<Key>)
    requires IsBatch(s.jobs, names, limit, batch)
    ensures Possible(queues, s, DoResolve(batch))
  {
  }

  lemma ByQueueStep(parents: set<Key>, groups: seq<string>, i: nat)
    requires i < |groups|
    ensures ByQueue(parents, groups[..i + 1]) == ByQueue(parents, groups[..i]) + [InQueue(parents, groups[i])]
    ensures ByQueue(parents, groups[..i + 1])[..i] == ByQueue(parents, groups[..i])
  {
  }

  predicate DistinctRequests(requests: seq<Request>) {
    forall i, j :: 0 <= i < j < |requests| ==> requests[i].id != requests[j].id
  }

  function ItemsOf(name: string, requests: seq<Request>): (items: seq<Item>)
    ensures |items| == |requests|
    ensures forall i :: 0 <= i < |items| ==> items[i] == Item(name, Unlinked(requests[i]))
  {
    seq(|requests|, i requires 0 <= i < |requests| => Item(name, Unlinked(requests[i])))
  }

  // The duplicate check of insert().
  method HasRepeatedId(requests: seq<Request>) returns (repeated: bool)
    ensures repeated <==> !DistinctRequests(requests)
  {
    var seen: set<nat> := {};
    for i := 0 to |requests|
      invariant forall id :: id in seen <==> exists j :: 0 <= j < i && requests[j].id == id
      invariant DistinctRequests(requests[..i])
    {
      if requests[i].id in seen {
        return true;
      }
      seen := seen + {requests[i].id};
    }
    assert requests[..|requests|] == requests;
    repeated := false;
  }

  // The row of a request that went in, without links to other jobs.
  ghost predicate IsInserted(t: Table, queues: Queues, name: string, requests: seq<Request>, now: real, id: nat) {
    exists i :: 0 <= i < |requests| && requests[i].id == id && name in queues && Key(name, id) in t
                && Settings.IsAsAsked(t[Key(name, id)], queues[name], requests[i], now)
                && !t[Key(name, id)].blocked && !t[Key(name, id)].blocking && t[Key(name, id)].pending == 0
  }

  lemma InsertedRowIs(t: Table, queues: Queues, name: string, requests: seq<Request>, now: real, id: nat)
    requires name in queues && Key(name, id) !in t
    requires Key(name, id) in Statements.Insert(t, ItemsOf(name, requests), queues, now)
    ensures IsInserted(Statements.Insert(t, ItemsOf(name, requests), queues, now), queues, name, requests, now, id)
  {
    var items := ItemsOf(name, requests);
    var u := Statements.Insert(t, items, queues, now);
    Settings.InsertedIsAsAsked(t, items, queues, now, Key(name, id));
    var i :| 0 <= i < |items| && Key(items[i].name, items[i].request.id) == Key(name, id) && items[i].name in queues
             && u[Key(name, id)] == NewRow(queues[items[i].name], items[i].request, now);
    Settings.NewRowIsAsAsked(queues[name], items[i].request, now);
    assert requests[i].id == id;
  }

  lemma InsertIsPossible(queues: Queues, s: State, name: string, requests: seq<Request>, now: real)
    requires forall r :: r in requests ==> Key(name, r.id) in s.jobs || Key(name, r.id) !in s.h.used
    ensures Possible(queues, s, DoInsert(ItemsOf(name, requests), now))
    ensures forall k :: k in Statements.Insert(s.jobs, ItemsOf(name, requests), queues, now) && k !in s.jobs ==>
              k.name == name
  {
    var items := ItemsOf(name, requests);
    forall k | k in Statements.Insert(s.jobs, items, queues, now) && k !in s.jobs
      ensures k.name == name && k !in s.h.used
    {
      InsertAddsItems(s.jobs, items, queues, now, k);
      var i :| 0 <= i < |items| && KeyOf(items[i]) == k;
      assert requests[i] in requests && k == Key(name, requests[i].id);
    }
  }

  // A request without a row met a conflict: with its row, an index would not hold.
  lemma LeftOutIsInConflict(t: Table, queues: Queues, name: string, requests: seq<Request>, now: real, i: nat)
    requires Unique(t) && name in queues && i < |requests|
    requires Key(name, requests[i].id) !in Statements.Insert(t, ItemsOf(name, requests), queues, now)
    ensures var u := Statements.Insert(t, ItemsOf(name, requests), queues, now);
            !Unique(u[Key(name, requests[i].id) := NewRow(queues[name], Unlinked(requests[i]), now)])
  {
    var u := Statements.Insert(t, ItemsOf(name, requests), queues, now);
    var k, row := Key(name, requests[i].id), NewRow(queues[name], Unlinked(requests[i]), now);
    assert !CanInsert(u, k, row) by { Laws.OfferedOnce(t, ItemsOf(name, requests), queues, now, i); }
    InsertEvolves(t, ItemsOf(name, requests), queues, now);
    CanInsertIff(u, k, row);
  }

  // The row of a job of a flow: as asked for, with its counter and its flags.
  ghost predicate IsFlowRow(t: Table, queues: Queues, inputs: seq<FlowBuilder.Input>, now: real, i: nat)
    requires i < |inputs|
  {
    var job := inputs[i].job;
    var k := Key(job.name, inputs[i].request.id);
    && k in t && job.name in queues && Settings.IsAsAsked(t[k], queues[job.name], inputs[i].request, now)
    && t[k].pending == |Elems(job.dependsOn)| && (t[k].blocked <==> job.dependsOn != [])
    && (t[k].blocking <==> FlowBuilder.HasDependents(inputs, job.ref))
  }

  lemma FlowRowIs(t: Table, queues: Queues, inputs: seq<FlowBuilder.Input>, items: seq<Item>, now: real, i: nat)
    requires i < |inputs| && FlowBuilder.HoldsItemOf(items, inputs, i) && InsertAll(t, items, queues, now).Some?
    ensures IsFlowRow(InsertAll(t, items, queues, now).value, queues, inputs, now, i)
  {
    var m :| 0 <= m < |items| && FlowBuilder.IsItemOf(items[m], inputs, i);
    Settings.AllInsertedAreAsAsked(t, items, queues, now, m);
    Settings.NewRowIsAsAsked(queues[items[m].name], items[m].request, now);
  }

  lemma FlowRowsAreIn(t: Table, queues: Queues, inputs: seq<FlowBuilder.Input>, items: seq<Item>, now: real)
    requires |items| == |inputs| && InsertAll(t, items, queues, now).Some?
    requires forall i :: 0 <= i < |inputs| ==> FlowBuilder.HoldsItemOf(items, inputs, i)
    ensures var u := InsertAll(t, items, queues, now).value;
            && |u| == |t| + |inputs| && (forall k :: k in t ==> k in u && u[k] == t[k])
            && forall i :: 0 <= i < |inputs| ==> IsFlowRow(u, queues, inputs, now, i)
  {
    forall i | 0 <= i < |inputs| ensures IsFlowRow(InsertAll(t, items, queues, now).value, queues, inputs, now, i) {
      FlowRowIs(t, queues, inputs, items, now, i);
    }
    Settings.InsertAllAddsAll(t, items, queues, now);
  }

  class JobStore {
    const queues: Queues
    var jobs: Table
    var deps: set<Dep>
    ghost var h: History

    ghost function Now(): State
      reads this
    {
      State(jobs, deps, h)
    }

    ghost predicate Valid()
      reads this
    {
      Inv(Now())
    }

    constructor (queues: Queues)
      ensures Valid() && Init(Now()) && this.queues == queues
    {
      this.queues := queues;
      jobs, deps, h := map[], {}, History({}, {}, {}, {}, map[], map[]);
    }

    // Enters a finished step in the history.
    ghost method Record(s: State, e: Step)
      requires Inv(s) && Possible(queues, s, e) && (jobs, deps) == After(queues, s, e) && h == s.h
      modifies this`h
      ensures Valid() && Next(queues, s, e, Now())
    {
      h := Observe(s.h, s.jobs, jobs, deps);
      StepKeepsInv(queues, s, e, Now());
    }

    // ---------- Adding jobs ----------

    // insert() and send(): rows that meet a conflict are skipped, flow columns are dropped. The answer is the ids
    // that went in; an unknown queue and a batch with a repeated id are refused.
    method Insert(name: string, requests: seq<Request>, now: real) returns (ids: Option<set<nat>>)
      requires Valid()
      requires forall r :: r in requests ==> Key(name, r.id) in jobs || Key(name, r.id) !in h.used
      modifies this
      ensures Valid() && (ids.None? <==> name !in queues || !DistinctRequests(requests))
      ensures ids.None? ==> Now() == old(Now())
      ensures ids.Some? ==> Next(queues, old(Now()), DoInsert(ItemsOf(name, requests), now), Now())
      ensures ids.Some? ==> forall id :: id in ids.value <==> Key(name, id) in jobs && Key(name, id) !in old(jobs)
      ensures ids.Some? ==> forall id :: id in ids.value ==> IsInserted(jobs, queues, name, requests, now, id)
      ensures ids.Some? ==> forall k :: k in old(jobs) ==> k in jobs && jobs[k] == old(jobs)[k]
      ensures ids.Some? ==> forall i :: 0 <= i < |requests| && Key(name, requests[i].id) !in jobs ==>
                !Unique(jobs[Key(name, requests[i].id) := NewRow(queues[name], Unlinked(requests[i]), now)])
    {
      var repeated := HasRepeatedId(requests);
      if name !in queues || repeated {
        return None;
      }
      ghost var s := Now();
      var was, items := jobs, ItemsOf(name, requests);
      jobs := Statements.Insert(jobs, items, queues, now);
      ids := Some(set k | k in jobs && k !in was :: k.id);
      InsertIsPossible(queues, s, name, requests, now);
      forall id | Key(name, id) in jobs && Key(name, id) !in was
        ensures id in ids.value && IsInserted(jobs, queues, name, requests, now, id)
      {
        assert Key(name, id).id == id;
        InsertedRowIs(was, queues, name, requests, now, id);
      }
      Settings.InsertLeavesRows(was, items, queues, now);
      forall i | 0 <= i < |requests| && Key(name, requests[i].id) !in jobs
        ensures !Unique(jobs[Key(name, requests[i].id) := NewRow(queues[name], Unlinked(requests[i]), now)])
      {
        LeftOutIsInConflict(was, queues, name, requests, now, i);
      }
      Record(s, DoInsert(items, now));
    }

    // A flow goes in as a whole, with its dependency rows, or not at all.
    method Flow(inputs: seq<FlowBuilder.Input>, now: real)
      returns (error: Option<FlowValidation.Error>, inserted: bool, ghost items: seq<Item>, ghost rows: set<Dep>)
      requires Valid()
      requires forall i :: 0 <= i < |inputs| ==>
                 FlowBuilder.KeyIn(inputs[i]) in jobs || FlowBuilder.KeyIn(inputs[i]) !in h.used
      modifies this
      ensures Valid()
      ensures error.None? <==>
              && FlowValidation.WellFormed(FlowBuilder.JobsOf(inputs))
              && FlowValidation.Acyclic(FlowBuilder.JobsOf(inputs))
      ensures error.Some? ==> !inserted && Now() == old(Now())
      ensures error.None? ==> Next(queues, old(Now()), DoFlow(items, rows, now), Now())
      ensures error.None? ==> inserted == InsertAll(old(jobs), items, queues, now).Some?
      ensures error.None? ==>
                (inserted <==> exists u :: Unique(u) && Settings.HoldsAll(old(jobs), u, items, queues, now))
      ensures error.None? ==> multiset(items) == multiset(FlowBuilder.ItemsFor(inputs, FlowBuilder.ParentRefs(inputs)))
      ensures !inserted ==> jobs == old(jobs) && deps == old(deps)
      ensures inserted ==> forall i :: 0 <= i < |inputs| ==> IsFlowRow(jobs, queues, inputs, now, i)
      ensures inserted ==> |jobs| == |old(jobs)| + |inputs|
      ensures forall k :: k in old(jobs) ==> k in jobs && jobs[k] == old(jobs)[k]
    {
      items, rows, inserted := [], {}, false;
      error := FlowValidation.ValidateFlowJobs(FlowBuilder.JobsOf(inputs));
      if error.Some? {
        return;
      }
      ghost var s := Now();
      var payload, depRows;
      ghost var keys;
      payload, depRows, keys := FlowBuilder.BuildFlow(inputs);
      items, rows := payload, depRows;
      Settings.InsertAllIff(jobs, payload, queues, now);
      var result := InsertAll(jobs, payload, queues, now);
      if result.Some? {
        jobs, deps, inserted := result.value, deps + depRows, true;
        FlowRowsAreIn(s.jobs, queues, inputs, payload, now);
      }
      forall k | k in jobs && k !in s.jobs ensures k !in s.h.used {
        InsertAllAddsItems(s.jobs, payload, queues, now, k);
        var i :| 0 <= i < |payload| && KeyOf(payload[i]) == k;
        ItemHasInput(inputs, payload, i);
      }
      Record(s, DoFlow(payload, depRows, now));
    }

    // ---------- Working on jobs ----------

    // Claims what the query selected; a unique violation is an empty fetch, an unknown queue an error.
    method Fetch(name: string, options: Fetching.Options, source: set<Key>, now: real) returns (rows: Option<set<Key>>)
      requires Valid()
      requires name in queues ==> Fetching.IsSource(jobs, name, queues[name].policy, options, now, source)
      modifies this
      ensures Valid() && (rows.None? <==> name !in queues)
      ensures rows.None? ==> Now() == old(Now())
      ensures rows.Some? ==> Next(queues, old(Now()), DoFetch(name, queues[name].policy, options, source, now), Now())
      ensures rows.Some? ==>
                && source <= old(jobs).Keys
                && var claimed := Fetching.Claimed(old(jobs), name, options, source);
                   rows.value == if Unique(Fetching.ClaimRows(old(jobs), claimed, now)) then claimed else {}
      ensures rows.Some? ==>
                FetchedJobs.IsFetched(old(jobs), jobs, name, queues[name].policy, options, now, rows.value)
      ensures rows.Some? && options.groups.None? && !FetchedJobs.IsRanked(queues[name].policy, options) ==>
                && source <= old(jobs).Keys
                && (Unique(Fetching.ClaimRows(old(jobs), source, now)) ==>
                      FetchedJobs.TakesTheFirst(old(jobs), name, options, now, rows.value))
    {
      if name !in queues {
        return None;
      }
      ghost var s := Now();
      FetchIsPossible(queues, s, name, queues[name].policy, options, source, now);
      FetchedJobs.ClaimIsFetch(jobs, name, queues[name].policy, options, now, source);
      var claimed := Fetching.Claimed(jobs, name, options, source);
      var updated := Fetching.ClaimRows(jobs, claimed, now);
      rows := Some({});
      if Unique(updated) {
        jobs, rows := updated, Some(claimed);
      }
      Record(s, DoFetch(name, queues[name].policy, options, source, now));
    }

    // complete(): the answer is the number of rows that were completed.
    method Complete(name: string, outputs: map<nat, Option<Json>>, includeQueued: bool, now: real)
      returns (affected: nat)
      requires Valid()
      modifies this
      ensures Valid() && Next(queues, old(Now()), DoComplete(name, outputs, includeQueued, now), Now())
      ensures affected == |CompletedBy(old(jobs), name, outputs.Keys, includeQueued)|
      ensures AreCompleted(old(jobs), jobs, name, outputs, includeQueued, now)
    {
      ghost var s := Now();
      CompleteIs(jobs, name, outputs, includeQueued, now);
      affected := |set k | k in jobs && Completes(k, jobs[k], name, outputs, includeQueued)|;
      jobs := Statements.Complete(jobs, name, outputs, now, includeQueued);
      Record(s, DoComplete(name, outputs, includeQueued, now));
    }

    method Cancel(name: string, ids: set<nat>, now: real) returns (affected: nat)
      requires Valid()
      modifies this
      ensures Valid() && Next(queues, old(Now()), DoCancel(name, ids, now), Now())
      ensures affected == |Unfinished(old(jobs), name, ids)|
      ensures jobs.Keys == old(jobs).Keys
      ensures forall k :: k in jobs ==>
                jobs[k] == if k in Unfinished(old(jobs), name, ids)
                           then old(jobs)[k].(state := Cancelled, completedOn := Some(now)) else old(jobs)[k]
    {
      ghost var s := Now();
      UnfinishedAre(jobs, name, ids);
      affected := |Failing.SelectedById(jobs, name, ids)|;
      jobs := Statements.Cancel(jobs, name, ids, now);
      Record(s, DoCancel(name, ids, now));
    }

    // touch(): a sign of life of the named running jobs.
    method Touch(name: string, ids: set<nat>, now: real) returns (affected: nat)
      requires Valid()
      modifies this
      ensures Valid() && Next(queues, old(Now()), DoTouch(name, ids, now), Now())
      ensures affected == |NamedIn(old(jobs), name, ids, Active)| && jobs.Keys == old(jobs).Keys
      ensures forall k :: k in jobs ==>
                jobs[k] == if k in NamedIn(old(jobs), name, ids, Active)
                           then old(jobs)[k].(heartbeatOn := Some(now)) else old(jobs)[k]
    {
      ghost var s := Now();
      affected := |NamedIn(jobs, name, ids, Active)|;
      jobs := Statements.Touch(jobs, name, ids, now);
      Record(s, DoTouch(name, ids, now));
    }

    // No answer is a unique violation: an index is in the way of some job, and none is resumed.
    method Resume(name: string, ids: set<nat>) returns (affected: Option<nat>)
      requires Valid()
      modifies this
      ensures Valid() && Next(queues, old(Now()), DoResume(name, ids), Now())
      ensures affected.None? <==> !Unique(ResumedRows(old(jobs), name, ids))
      ensures affected.None? ==> jobs == old(jobs)
      ensures affected.Some? ==> affected.value == |NamedIn(old(jobs), name, ids, Cancelled)|
      ensures affected.Some? ==> AreResumed(old(jobs), jobs, name, ids)
    {
      ghost var s := Now();
      ResumeIsPossible(queues, s, name, ids);
      ResumeBringsBack(jobs, name, ids);
      var updated := ResumedRows(jobs, name, ids);
      affected := None;
      if Unique(updated) {
        affected := Some(|NamedIn(jobs, name, ids, Cancelled)|);
        jobs := updated;
      }
      Record(s, DoResume(name, ids));
    }

    method Retry(name: string, ids: set<nat>) returns (affected: Option<nat>)
      requires Valid()
      modifies this
      ensures Valid() && Next(queues, old(Now()), DoRetry(name, ids), Now())
      ensures affected.None? <==> !Unique(RetriedRows(old(jobs), name, ids))
      ensures affected.None? ==> jobs == old(jobs)
      ensures affected.Some? ==> affected.value == |NamedIn(old(jobs), name, ids, Failed)|
      ensures affected.Some? ==> AreRetried(old(jobs), jobs, name, ids)
    {
      ghost var s := Now();
      RetryIsPossible(queues, s, name, ids);
      RetryBringsBack(jobs, name, ids);
      var updated := RetriedRows(jobs, name, ids);
      affected := None;
      if Unique(updated) {
        affected := Some(|NamedIn(jobs, name, ids, Failed)|);
        jobs := updated;
      }
      Record(s, DoRetry(name, ids));
    }

    // Removes the named rows in whatever state.
    method DeleteJobs(name: string, ids: set<nat>) returns (affected: nat)
      requires Valid()
      modifies this
      ensures Valid() && Next(queues, old(Now()), DoDelete(Failing.NamedRows(old(jobs), name, ids)), Now())
      ensures forall k :: k in jobs <==> k in old(jobs) && !(k.name == name && k.id in ids)
      ensures forall k :: k in jobs ==> jobs[k] == old(jobs)[k]
      ensures affected == |old(jobs)| - |jobs|
    {
      ghost var s := Now();
      var gone := Failing.NamedRows(jobs, name, ids);
      SizeWithout(jobs, gone);
      affected := |gone|;
      jobs := Without(jobs, gone);
      Record(s, DoDelete(gone));
    }

    // update(): the rows are found by id or by singleton key; only queued ones are edited. The answer is the ids.
    method Update(name: string, target: Option<nat>, key: string, how: Match, edit: Edit,
                  targets: set<Key>) returns (ids: Option<set<nat>>)
      requires Valid() && IsTargets(jobs, name, target, key, how, targets)
      modifies this
      ensures Valid() && (ids.Some? <==> name in queues) && (ids.None? ==> Now() == old(Now()))
      ensures ids.Some? ==> Next(queues, old(Now()), DoUpdate(queues[name].table, targets, edit), Now())
      ensures ids.Some? ==> ids.value == Failing.IdsOf(targets)
      ensures Settings.ArePicked(old(jobs), name, target, key, how, targets)
      ensures ids.Some? ==> IsUpdated(old(jobs), jobs, queues, queues[name].table, targets, edit)
    {
      assert Settings.ArePicked(jobs, name, target, key, how, targets) by {
        Settings.TargetsArePicked(jobs, name, target, key, how, targets);
      }
      if name !in queues {
        return None;
      }
      ghost var s := Now();
      UpdateIs(jobs, queues, name, target, key, how, targets, edit);
      ids := Some(Failing.IdsOf(Touched(jobs, queues, queues[name].table, targets)));
      jobs := Statements.Update(jobs, queues, queues[name].table, targets, edit);
      assert Possible(queues, s, DoUpdate(queues[name].table, targets, edit)) by {
        UpdateAddsNothing(queues, s, queues[name].table, targets, edit);
      }
      Record(s, DoUpdate(queues[name].table, targets, edit));
    }

    // Moves jobs to their destination under new ids, by select, delete and one insert each. A job that
    // meets a policy conflict there is gone, and so is any other job the delete hits; the answer counts the others.
    method Redrive(name: string, destination: Option<string>, sourceName: Option<string>, limit: nat,
                   order: seq<Key>, newIds: map<Key, nat>, now: real) returns (result: Option<nat>)
      requires Valid() && AreOldest(jobs, queues, name, destination, sourceName, limit, order)
      requires AreNewIds(Now(), order, destination, newIds)
      modifies this
      ensures Valid() && (result.None? <==> name !in queues) && (result.None? ==> Now() == old(Now()))
      ensures result.Some? ==>
                Next(queues, old(Now()), DoRedrive(queues[name].table, order, destination, newIds, now), Now())
      ensures result.Some? ==>
                |jobs| + |DeletedBy(old(jobs), queues, queues[name].table, order)| == |old(jobs)| + result.value
      ensures result.Some? ==>
                IsRedriven(old(jobs), jobs, queues, queues[name].table, order, destination, newIds, now)
      ensures forall k :: k in order ==> Settings.IsRedrivable(old(jobs), queues, name, destination, sourceName, k)
    {
      AllAreRedrivable(jobs, queues, name, destination, sourceName, limit, order);
      if name !in queues {
        return None;
      }
      ghost var s := Now();
      var table := queues[name].table;
      RedriveIs(s.jobs, queues, table, order, destination, newIds, now);
      var moved := MoveJobs(table, order, destination, newIds, now);
      assert Possible(queues, s, DoRedrive(table, order, destination, newIds, now)) by {
        RedriveAddsNewIds(queues, s, table, order, destination, newIds, now);
      }
      Record(s, DoRedrive(table, order, destination, newIds, now));
      result := Some(moved);
    }

    // The same in one statement: it re-creates every row it deletes, in an order of its own.
    method RedriveStandard(name: string, destination: Option<string>, sourceName: Option<string>, limit: nat,
                           candidates: seq<Key>, order: seq<Key>, newIds: map<Key, nat>, now: real)
      returns (result: Option<nat>)
      requires Valid() && AreOldest(jobs, queues, name, destination, sourceName, limit, candidates)
      requires name in queues ==> AreAllDeleted(jobs, queues, queues[name].table, candidates, order)
      requires AreNewIds(Now(), order, destination, newIds)
      modifies this
      ensures Valid() && (result.None? <==> name !in queues) && (result.None? ==> Now() == old(Now()))
      ensures result.Some? ==>
                Next(queues, old(Now()), DoRedrive(queues[name].table, order, destination, newIds, now), Now())
      ensures result.Some? ==>
                |jobs| + |DeletedBy(old(jobs), queues, queues[name].table, candidates)| == |old(jobs)| + result.value
      ensures result.Some? ==>
                IsRedriven(old(jobs), jobs, queues, queues[name].table, order, destination, newIds, now)
      ensures forall k :: k in candidates ==> Settings.IsRedrivable(old(jobs), queues, name, destination, sourceName, k)
    {
      AllAreRedrivable(jobs, queues, name, destination, sourceName, limit, candidates);
      if name !in queues {
        return None;
      }
      AllAreDeleted(jobs, queues, name, destination, sourceName, limit, candidates, order);
      ghost var s := Now();
      var table := queues[name].table;
      RedriveIs(s.jobs, queues, table, order, destination, newIds, now);
      var moved := MoveJobs(table, order, destination, newIds, now);
      assert Possible(queues, s, DoRedrive(table, order, destination, newIds, now)) by {
        RedriveAddsNewIds(queues, s, table, order, destination, newIds, now);
      }
      Record(s, DoRedrive(table, order, destination, newIds, now));
      result := Some(moved);
    }

    method MoveJobs(table: string, order: seq<Key>, destination: Option<string>, newIds: map<Key, nat>, now: real)
      returns (moved: nat)
      requires forall k :: k in order ==> k in jobs
      modifies this`jobs
      ensures jobs == Statements.Redrive(old(jobs), table, order, destination, newIds, queues, now)
      ensures |jobs| + |DeletedBy(old(jobs), queues, table, order)| == |old(jobs)| + moved
    {
      moved := 0;
      if order != [] {
        var candidates := jobs;
        var gone := DeletedBy(jobs, queues, table, order);
        SizeWithout(jobs, gone);
        jobs := Without(jobs, gone);
        moved := Recreate(candidates, order, destination, newIds, now);
      }
    }

    method Recreate(candidates: Table, order: seq<Key>, destination: Option<string>, newIds: map<Key, nat>, now: real)
      returns (moved: nat)
      requires forall k :: k in order ==> k in candidates
      modifies this`jobs
      ensures jobs == Statements.Recreate(old(jobs), candidates, order, destination, newIds, queues, now)
      ensures |jobs| == |old(jobs)| + moved
    {
      moved := 0;
      for i := 0 to |order|
        invariant jobs == Statements.Recreate(old(jobs), candidates, order[..i], destination, newIds, queues, now)
        invariant |jobs| == |old(jobs)| + moved
      {
        assert order[..i + 1][..i] == order[..i];
        var job := candidates[order[i]];
        var queue := Destination(job, destination);
        if queue.Some? && queue.value in queues {
          var k := Key(queue.value, Failing.Lookup(newIds, order[i], 0));
          var row := RedriveRow(queues[queue.value], job, now);
          if CanInsert(jobs, k, row) {
            moved := moved + 1;
          }
          jobs := InsertIgnore(jobs, k, row);
        }
      }
      assert order[..|order|] == order;
    }

    // The retention sweep.
    method Sweep(names: set<string>, now: real)
      requires Valid()
      modifies this
      ensures Valid() && Next(queues, old(Now()), DoSweep(names, now), Now())
      ensures IsSwept(old(jobs), jobs, names, now)
    {
      ghost var s := Now();
      SweepIs(jobs, names, now);
      jobs := Without(jobs, Swept(jobs, names, now));
      Record(s, DoSweep(names, now));
    }

    // Drops dependency rows with a missing end.
    method CleanUp(names: set<string>)
      requires Valid()
      modifies this
      ensures Valid() && Next(queues, old(Now()), DoCleanup(names), Now()) && jobs == old(jobs)
      ensures forall d :: d in deps <==>
                && d in old(deps)
                && (d.child.name in names ==> d.child in jobs) && (d.parent.name in names ==> d.parent in jobs)
    {
      ghost var s := Now();
      deps := Cleanup(jobs, deps, names);
      Record(s, DoCleanup(names));
    }

    // ---------- Resolving flows ----------

    // Picks completed blocking parents, at most `limit`; which ones is open.
    method SelectBlockingParents(names: set<string>, limit: nat) returns (batch: set<Key>)
      ensures batch <= Selectable(jobs, names)
      ensures |batch| == Min(limit, |Selectable(jobs, names)|)
    {
      var rest := Selectable(jobs, names);
      batch := {};
      while |batch| < limit && rest != {}
        invariant batch + rest == Selectable(jobs, names) && batch !! rest && |batch| <= limit
        decreases rest
      {
        var k :| k in rest;
        batch, rest := batch + {k}, rest - {k};
      }
      assert |Selectable(jobs, names)| == |batch| + |rest|;
    }

    // One batch as one statement.
    method ResolveStandard(names: set<string>, limit: nat) returns (resolved: nat, ghost batch: set<Key>)
      requires Valid()
      modifies this
      ensures Valid() && Next(queues, old(Now()), DoResolve(batch), Now())
      ensures IsBatch(old(jobs), names, limit, batch) && resolved == |batch|
      ensures deps == old(deps) && jobs == Resolve(old(jobs), deps, batch)
      ensures IsResolved(old(jobs), jobs, deps, batch)
      ensures resolved <= limit && forall k :: k in batch ==> IsReady(old(jobs), names, k)
      ensures resolved < limit ==> forall k :: IsReady(old(jobs), names, k) ==> k in batch
    {
      ghost var s := Now();
      var parents := SelectBlockingParents(names, limit);
      batch, resolved := parents, |parents|;
      BatchIsReady(jobs, names, limit, batch);
      assert IsResolved(jobs, Resolve(jobs, deps, batch), deps, batch) by { ResolveIs(jobs, deps, batch); }
      jobs := Resolve(jobs, deps, parents);
      assert Possible(queues, s, DoResolve(batch)) by { BatchIsPossible(queues, s, names, limit, batch); }
      Record(s, DoResolve(batch));
    }

    // One batch, queue by queue.
    method ResolveFlowJobsNoCte(names: set<string>, limit: nat) returns (resolved: nat, ghost batch: set<Key>)
      requires Valid()
      modifies this
      ensures Valid() && Next(queues, old(Now()), DoResolve(batch), Now())
      ensures IsBatch(old(jobs), names, limit, batch) && resolved == |batch|
      ensures deps == old(deps) && jobs == Resolve(old(jobs), deps, batch)
      ensures IsResolved(old(jobs), jobs, deps, batch)
      ensures resolved <= limit && forall k :: k in batch ==> IsReady(old(jobs), names, k)
      ensures resolved < limit ==> forall k :: IsReady(old(jobs), names, k) ==> k in batch
    {
      ghost var s := Now();
      var parents := SelectBlockingParents(names, limit);
      batch, resolved := parents, |parents|;
      BatchIsReady(jobs, names, limit, batch);
      assert IsResolved(jobs, Resolve(jobs, deps, batch), deps, batch) by { ResolveIs(jobs, deps, batch); }
      ResolveByQueue(parents);
      assert Possible(queues, s, DoResolve(batch)) by { BatchIsPossible(queues, s, names, limit, batch); }
      Record(s, DoResolve(batch));
    }

    // For each parent queue: decrement the children, then clear the parents' flags.
    method ResolveByQueue(parents: set<Key>)
      modifies this`jobs
      ensures jobs == Resolve(old(jobs), deps, parents)
    {
      var groups := GroupByQueue(parents);
      ghost var t := jobs;
      for i := 0 to |groups|
        invariant jobs == SplitResolve(t, deps, ByQueue(parents, groups[..i]))
      {
        var group := InQueue(parents, groups[i]);
        ByQueueStep(parents, groups, i);
        jobs := DecrementDependents(jobs, deps, group);
        jobs := ClearBlocking(jobs, group);
      }
      assert groups[..|groups|] == groups;
      SplitBatchIsResolve(t, deps, parents, groups);
    }

    // The queues that the batch's parents belong to.
    method GroupByQueue(parents: set<Key>) returns (groups: seq<string>)
      ensures Distinct(groups) && forall k :: k in parents ==> k.name in groups
    {
      groups := [];
      var rest := parents;
      while rest != {}
        invariant rest <= parents && Distinct(groups)
        invariant forall k :: k in parents ==> k in rest || k.name in groups
        decreases rest
      {
        var k :| k in rest;
        if k.name !in groups {
          groups := groups + [k.name];
        }
        rest := rest - {k};
      }
    }

    // ---------- Failing jobs ----------

    // The single statement; it re-inserts the rows in the given order, counts the results, and loses none.
    method FailJobs(name: string, ids: set<nat>, order: seq<Key>, p: Failing.Params) returns (affected: nat)
      requires Valid() && Elems(order) == Failing.SelectedById(jobs, name, ids)
      requires Failing.Ready(jobs, Elems(order), order, p, queues) && CopiesAreNew(Now(), order, p, queues)
      modifies this
      ensures Valid() && Next(queues, old(Now()), DoFail(order, p), Now())
      ensures old(jobs).Keys <= jobs.Keys && affected == |order|
      ensures forall k :: k in order ==> FailedJobs.Settled(old(jobs), jobs, k, p, true)
      ensures forall k :: k in old(jobs) && k !in order ==> jobs[k] == old(jobs)[k]
      ensures FailedJobs.DeadLettersAreThere(old(jobs), jobs, order, p, queues)
    {
      ghost var s := Now();
      CteFailAddsCopies(s, order, p, queues);
      NamedFailKeepsAll(s.jobs, name, ids, order, p, queues);
      FailedJobs.CteFailSettles(s.jobs, order, p, queues);
      jobs := Failing.CteFail(jobs, order, p, queues).value;
      affected := |set k | k in order && k in jobs|;
      Record(s, DoFail(order, p));
    }

    // Select, delete, re-insert. The delete statement takes finished rows of the batch along.
    method FailNoCte(name: string, ids: set<nat>, order: seq<Key>, p: Failing.Params) returns (affected: nat)
      requires Valid() && Elems(order) == Failing.SelectedById(jobs, name, ids)
      requires Failing.Ready(jobs, Failing.NamedRows(jobs, name, ids), order, p, queues)
               && CopiesAreNew(Now(), order, p, queues)
      modifies this
      ensures Valid() && Next(queues, old(Now()), DoSplitFail(Failing.NamedRows(old(jobs), name, ids), order, p), Now())
      ensures jobs == Failing.FailSplit(old(jobs), name, ids, order, p, queues) && affected == |order|
      ensures forall k :: k in order ==> FailedJobs.Settled(old(jobs), jobs, k, p, false)
      ensures forall k :: k in old(jobs) && !(k.name == name && k.id in ids) ==> k in jobs && jobs[k] == old(jobs)[k]
      ensures FailedJobs.DeadLettersAreThere(old(jobs), jobs, order, p, queues)
    {
      FailedJobs.SplitFailSettles(jobs, Failing.NamedRows(jobs, name, ids), order, p, queues);
      affected := DeleteAndReinsert(Failing.NamedRows(jobs, name, ids), order, p);
    }

    // The same for jobs that ran too long or missed their heartbeat; the delete goes by id alone.
    method ExpireJobsNoCte(table: string, names: set<string>, byHeartbeat: bool, now: real, order: seq<Key>,
                        p: Failing.Params)
      returns (affected: nat)
      requires Valid()
      requires Elems(order) == if byHeartbeat then HeartbeatMissed(jobs, names, now) else TimedOut(jobs, names, now)
      requires Failing.Ready(jobs, Failing.RowsWithIds(jobs, queues, table, Failing.IdsOf(Elems(order))), order, p,
                             queues)
      requires CopiesAreNew(Now(), order, p, queues)
      modifies this
      ensures Valid()
      ensures Next(queues, old(Now()),
                   DoSplitFail(Failing.RowsWithIds(old(jobs), queues, table, Failing.IdsOf(Elems(order))), order, p),
                   Now())
      ensures jobs == Failing.ExpireSplit(old(jobs), table, order, p, queues) && affected == |order|
      ensures forall k :: k in order ==> Settings.IsLate(old(jobs), names, now, byHeartbeat, k)
      ensures forall k :: k in order ==> FailedJobs.Settled(old(jobs), jobs, k, p, false)
      ensures forall k :: k in old(jobs) && !SharesId(queues, table, order, k) ==> k in jobs && jobs[k] == old(jobs)[k]
      ensures FailedJobs.DeadLettersAreThere(old(jobs), jobs, order, p, queues)
    {
      ghost var deleted := Failing.RowsWithIds(jobs, queues, table, Failing.IdsOf(Elems(order)));
      FailedJobs.SplitFailSettles(jobs, deleted, order, p, queues);
      ExpiredAre(jobs, queues, table, names, now, byHeartbeat, order);
      affected := DeleteAndReinsert(Failing.RowsWithIds(jobs, queues, table, Failing.IdsOf(Elems(order))), order, p);
    }

    // One transaction: nothing at all if nothing was selected.
    method DeleteAndReinsert(deleted: set<Key>, order: seq<Key>, p: Failing.Params) returns (affected: nat)
      requires Valid() && Failing.Ready(jobs, deleted, order, p, queues) && CopiesAreNew(Now(), order, p, queues)
      modifies this
      ensures Valid() && Next(queues, old(Now()), DoSplitFail(deleted, order, p), Now())
      ensures jobs == Failing.SplitFail(old(jobs), deleted, order, p, queues) && affected == |order|
    {
      ghost var s := Now();
      affected := DeleteThenReinsert(deleted, order, p);
      assert Possible(queues, s, DoSplitFail(deleted, order, p)) by {
        SplitFailAddsCopies(s, deleted, order, p, queues);
      }
      Record(s, DoSplitFail(deleted, order, p));
    }

    method DeleteThenReinsert(deleted: set<Key>, order: seq<Key>, p: Failing.Params) returns (affected: nat)
      requires Failing.Known(jobs, order)
      modifies this`jobs
      ensures jobs == Failing.SplitFail(old(jobs), deleted, order, p, queues) && affected == |order|
    {
      affected := 0;
      if |order| > 0 {
        var selected := jobs;
        jobs := Without(jobs, deleted);
        affected := ReinsertFailedJobs(selected, order, p);
      }
    }

    // Puts the deleted rows back one by one: as a retry if one is left and no index is in the way,
    // else as failed, with a copy for the dead-letter queue.
    method ReinsertFailedJobs(selected: Table, order: seq<Key>, p: Failing.Params) returns (count: nat)
      requires Failing.Known(selected, order)
      modifies this`jobs
      ensures jobs == Failing.Reinsert(old(jobs), selected, order, p, queues) && count == |order|
    {
      count := 0;
      for i := 0 to |order|
        invariant count == i && jobs == Failing.Reinsert(old(jobs), selected, order[..i], p, queues)
      {
        assert order[..i + 1][..i] == order[..i];
        var k, r := order[i], selected[order[i]];
        var retried := false;
        if Failing.CanRetry(r, p) {
          var row := Failing.RetryRow(r, p, k);
          retried := CanInsert(jobs, k, row);
          jobs := InsertIgnore(jobs, k, row);
        }
        if !retried {
          jobs := InsertIgnore(jobs, k, Failing.FailedRow(r, p, k));
          if Failing.HasDeadLetter(r, queues) {
            jobs := jobs[Failing.DeadLetterKey(r, p, k) := Failing.CopyOf(r, p, k, queues)];
          }
        }
        count := count + 1;
      }
      assert order[..|order|] == order;
    }
  }

  // ---------- Groups of a batch ----------

  function InQueue(keys: set<Key>, name: string): set<Key> {
    set k | k in keys && k.name == name
  }

  // The batch, queue by queue.
  function ByQueue(keys: set<Key>, names: seq<string>): seq<set<Key>> {
    seq(|names|, i requires 0 <= i < |names| => InQueue(keys, names[i]))
  }

  lemma {:induction false} GroupsMakeTheBatch(keys: set<Key>, names: seq<string>)
    ensures Union(ByQueue(keys, names)) == set k | k in keys && k.name in names
  {
    if names != [] {
      var n := |names| - 1;
      GroupsMakeTheBatch(keys, names[..n]);
      assert ByQueue(keys, names)[..n] == ByQueue(keys, names[..n]);
      assert forall name :: name in names <==> name in names[..n] || name == names[n];
    }
  }

  lemma SplitBatchIsResolve(t: Table, deps: set<Dep>, batch: set<Key>, names: seq<string>)
    requires Distinct(names) && forall k :: k in batch ==> k.name in names
    ensures SplitResolve(t, deps, ByQueue(batch, names)) == Resolve(t, deps, batch)
  {
    GroupsMakeTheBatch(batch, names);
    assert Union(ByQueue(batch, names)) == batch;
    SplitIsOneStatement(t, deps, ByQueue(batch, names));
  }

  lemma ItemHasInput(inputs: seq<FlowBuilder.Input>, items: seq<Item>, i: nat)
    requires i < |items|
    requires multiset(items) == multiset(FlowBuilder.ItemsFor(inputs, FlowBuilder.ParentRefs(inputs)))
    ensures exists j :: 0 <= j < |inputs| && FlowBuilder.KeyIn(inputs[j]) == KeyOf(items[i])
  {
    var plain := FlowBuilder.ItemsFor(inputs, FlowBuilder.ParentRefs(inputs));
    assert items[i] in multiset(plain);
    var j :| 0 <= j < |plain| && plain[j] == items[i];
    assert FlowBuilder.KeyIn(inputs[j]) == KeyOf(items[i]);
  }
}
