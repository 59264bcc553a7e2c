/**
 Whole runs. A state is the job table, the dependency rows and a history that only the proofs
 read; each SQL statement is one atomic step. Every reachable state keeps the invariant, and the
 safety results are stated over the states of a run.
 */
module Runs {
  import opened Outcomes
  import opened JobTable
  import opened Resolution
  import opened Statements
  import opened Lifecycle
  import Conservation
  import Failing
  import Fetching

  // What the proofs remember: every key ever inserted, every dependency ever declared, the
  // parents an audit has resolved, the jobs that have been completed, and for each job how often it
  // was claimed and resumed.
  datatype History = History(
    used: set<Key>,
    declared: set<Dep>,
    resolved: set<Key>,
    done: set<Key>,
    claims: map<Key, nat>,
    resumes: map<Key, nat>)

  datatype State = State(jobs: Table, deps: set<Dep>, h: History)

  function Count(m: map<Key, nat>, k: Key): nat {
    if k in m then m[k] else 0
  }

  ghost predicate BecomesActive(t: Table, t': Table, k: Key) {
    k in t' && t'[k].state == Active && !(k in t && t[k].state == Active)
  }

  ghost predicate BecomesResumed(t: Table, t': Table, k: Key) {
    k in t && k in t' && Resumes(t[k], t'[k])
  }

  // The history is a function of the tables before and after.
  ghost function Observe(h: History, t: Table, t': Table, deps': set<Dep>): History {
    History(
      h.used + t'.Keys,
      h.declared + deps',
      h.resolved + (set k | k in t && k in t' && t[k].blocking && !t'[k].blocking),
      h.done + (set k | k in t' && t'[k].state == Completed),
      map k | k in h.used + t'.Keys :: Count(h.claims, k) + if BecomesActive(t, t', k) then 1 else 0,
      map k | k in h.used + t'.Keys :: Count(h.resumes, k) + if BecomesResumed(t, t', k) then 1 else 0)
  }

  datatype Step =
    | DoInsert(items: seq<Item>, now: real)
    | DoFlow(items: seq<Item>, links: set<Dep>, now: real)
    | DoFetch(name: string, policy: Policy, options: Fetching.Options, source: set<Key>, now: real)
    | DoComplete(name: string, outputs: map<nat, Option<Json>>, includeQueued: bool, now: real)
    | DoFail(order: seq<Key>, params: Failing.Params)
    | DoSplitFail(deleted: set<Key>, order: seq<Key>, params: Failing.Params)
    | DoCancel(name: string, ids: set<nat>, now: real)
    | DoResume(name: string, ids: set<nat>)
    | DoRetry(name: string, ids: set<nat>)
    | DoTouch(name: string, ids: set<nat>, now: real)
    | DoUpdate(table: string, targets: set<Key>, edit: Edit)
    | DoRedrive(table: string, order: seq<Key>, destination: Option<string>, newIds: map<Key, nat>, now: real)
    | DoDelete(keys: set<Key>)
    | DoSweep(names: set<string>, now: real)
    | DoCleanup(names: set<string>)
    | DoResolve(parents: set<Key>)

  // The payload of a flow: counters, flags and dependency rows agree.
  ghost predicate LinksFit(items: seq<Item>, links: set<Dep>) {
    && (forall d :: d in links ==>
          && (exists i :: 0 <= i < |items| && KeyOf(items[i]) == d.child)
          && (exists i :: 0 <= i < |items| && KeyOf(items[i]) == d.parent))
    && (forall i :: 0 <= i < |items| ==>
          var r := items[i].request;
          && r.pending == |ParentsOf(links, KeyOf(items[i]))|
          && (r.blocked <==> r.pending > 0)
          && (r.blocking <==> exists d :: d in links && d.parent == KeyOf(items[i])))
  }

  predicate RedriveIdsAreNew(t: Table, order: seq<Key>, destination: Option<string>, newIds: map<Key, nat>) {
    forall k :: k in order ==>
      && k in t
      && (Destination(t[k], destination).Some? ==>
            Key(Destination(t[k], destination).value, Failing.Lookup(newIds, k, 0)) !in t)
  }

  // What a step takes from its surroundings: a payload as flow() builds it, a selection as the
  // database makes it, generated ids that are new.
  ghost predicate Enabled(queues: Queues, s: State, e: Step) {
    match e
    case DoInsert(items, now) => forall i :: 0 <= i < |items| ==> items[i].request == Unlinked(items[i].request)
    case DoFlow(items, links, now) => InsertAll(s.jobs, items, queues, now).Some? ==> LinksFit(items, links)
    case DoFetch(name, policy, options, source, now) => Fetching.IsSource(s.jobs, name, policy, options, now, source)
    case DoFail(order, params) => Failing.Ready(s.jobs, Elems(order), order, params, queues)
    case DoSplitFail(deleted, order, params) => Failing.Ready(s.jobs, deleted, order, params, queues)
    case DoRedrive(table, order, destination, newIds, now) => RedriveIdsAreNew(s.jobs, order, destination, newIds)
    case DoResolve(parents) =>
      forall k :: k in parents ==> k in s.jobs && s.jobs[k].blocking && s.jobs[k].state == Completed
    case _ => true
  }

  // A fetch that trips an index is an empty fetch.
  ghost function FetchTable(t: Table, name: string, o: Fetching.Options, source: set<Key>, now: real): Table
    requires source <= t.Keys
  {
    Commit(t, Fetching.ClaimRows(t, Fetching.Claimed(t, name, o, source), now))
  }

  ghost function After(queues: Queues, s: State, e: Step): (Table, set<Dep>)
    requires Enabled(queues, s, e)
  {
    var t := s.jobs;
    match e
    case DoInsert(items, now) => (Insert(t, items, queues, now), s.deps)
    case DoFlow(items, links, now) =>
      (match InsertAll(t, items, queues, now)
       case None => (t, s.deps)
       case Some(t') => (t', s.deps + links))
    case DoFetch(name, policy, options, source, now) =>
      Fetching.SourceIsCandidates(t, name, policy, options, now, source);
      (FetchTable(t, name, options, source, now), s.deps)
    case DoComplete(name, outputs, includeQueued, now) => (Complete(t, name, outputs, now, includeQueued), s.deps)
    case DoFail(order, params) => (Failing.CteFail(t, order, params, queues).GetOr(t), s.deps)
    case DoSplitFail(deleted, order, params) => (Failing.SplitFail(t, deleted, order, params, queues), s.deps)
    case DoCancel(name, ids, now) => (Cancel(t, name, ids, now), s.deps)
    case DoResume(name, ids) => (Resume(t, name, ids), s.deps)
    case DoRetry(name, ids) => (RetryByHand(t, name, ids), s.deps)
    case DoTouch(name, ids, now) => (Touch(t, name, ids, now), s.deps)
    case DoUpdate(table, targets, edit) => (Update(t, queues, table, targets, edit), s.deps)
    case DoRedrive(table, order, destination, newIds, now) =>
      (Redrive(t, table, order, destination, newIds, queues, now), s.deps)
    case DoDelete(keys) => (Without(t, keys), s.deps)
    case DoSweep(names, now) => (Without(t, Swept(t, names, now)), s.deps)
    case DoCleanup(names) => (t, Cleanup(t, s.deps, names))
    case DoResolve(parents) => (Resolve(t, s.deps, parents), s.deps)
  }

  // One step; ids are never reused.
  ghost predicate Next(queues: Queues, s: State, e: Step, s': State) {
    && Enabled(queues, s, e)
    && (s'.jobs, s'.deps) == After(queues, s, e)
    && s'.h == Observe(s.h, s.jobs, s'.jobs, s'.deps)
    && forall k :: k in s'.jobs && k !in s.jobs ==> k !in s.h.used
  }

  // ---------- The invariant ----------

  function Unresolved(h: History, k: Key): set<Key> {
    ParentsOf(h.declared, k) - h.resolved
  }

  ghost predicate TableInv(s: State) {
    Unique(s.jobs) && forall k :: k in s.jobs ==> RowInv(s.jobs[k])
  }

  ghost predicate HistoryInv(s: State) {
    && s.jobs.Keys <= s.h.used
    && s.deps <= s.h.declared
    && (forall d :: d in s.h.declared ==> d.child in s.h.used && d.parent in s.h.used)
    && s.h.resolved <= s.h.done <= s.h.used
    && s.h.claims.Keys <= s.h.used && s.h.resumes.Keys <= s.h.used
    && (forall k :: k in s.jobs && s.jobs[k].state == Completed ==> k in s.h.done)
    && (forall k :: k in s.jobs ==> Count(s.h.claims, k) == ClaimCount(s.jobs[k]))
  }

  ghost predicate LinkInv(s: State) {
    && (forall d :: d in s.h.declared && d.child in s.jobs && d.parent in s.jobs ==> d in s.deps)
    && (forall d :: d in s.h.declared && d.parent in s.jobs && d.parent !in s.h.resolved ==> s.jobs[d.parent].blocking)
    && (forall k :: k in s.jobs && s.jobs[k].blocking ==> k !in s.h.resolved)
    && (forall k :: k in s.jobs && s.jobs[k].blocked ==> s.jobs[k].pending == |Unresolved(s.h, k)|)
    && (forall k :: k in s.jobs && !s.jobs[k].blocked && s.jobs[k].state != Completed ==> Unresolved(s.h, k) == {})
  }

  ghost predicate Inv(s: State) {
    TableInv(s) && HistoryInv(s) && LinkInv(s)
  }

  ghost predicate Init(s: State) {
    s == State(map[], {}, History({}, {}, {}, {}, map[], map[]))
  }

  // ---------- Every step keeps it ----------

  ghost predicate Placed(t: Table, t': Table, item: Item, queues: Queues, now: real) {
    && KeyOf(item) !in t && item.name in queues
    && KeyOf(item) in t' && t'[KeyOf(item)] == NewRow(queues[item.name], item.request, now)
  }

  ghost predicate IsItemKey(items: seq<Item>, k: Key) {
    exists i :: 0 <= i < |items| && k == KeyOf(items[i])
  }

  ghost predicate AllPlaced(t: Table, t': Table, items: seq<Item>, queues: Queues, now: real) {
    && (forall k :: k in t ==> k in t' && t'[k] == t[k])
    && (forall i :: 0 <= i < |items| ==> Placed(t, t', items[i], queues, now))
    && (forall k :: k in t' && k !in t ==> IsItemKey(items, k))
  }

  lemma PlaceOne(t: Table, u: Table, items: seq<Item>, item: Item, queues: Queues, now: real)
    requires AllPlaced(t, u, items, queues, now)
    requires item.name in queues && KeyOf(item) !in u
    ensures AllPlaced(t, u[KeyOf(item) := NewRow(queues[item.name], item.request, now)], items + [item], queues, now)
  {
    var t' := u[KeyOf(item) := NewRow(queues[item.name], item.request, now)];
    var all := items + [item];
    forall i | 0 <= i < |all|
      ensures Placed(t, t', all[i], queues, now)
    {
      if i < |items| {
        assert Placed(t, u, items[i], queues, now);
      }
    }
    forall k | k in t' && k !in t
      ensures IsItemKey(all, k)
    {
      if k == KeyOf(item) {
        assert all[|items|] == item;
      } else {
        assert IsItemKey(items, k);
        var i :| 0 <= i < |items| && k == KeyOf(items[i]);
        assert all[i] == items[i];
      }
    }
  }

  lemma {:induction false} InsertAllPlaces(t: Table, items: seq<Item>, queues: Queues, now: real)
    requires InsertAll(t, items, queues, now).Some?
    ensures AllPlaced(t, InsertAll(t, items, queues, now).value, items, queues, now)
    ensures Unique(t) ==> Unique(InsertAll(t, items, queues, now).value)
  {
    if items != [] {
      var n := |items| - 1;
      InsertAllPlaces(t, items[..n], queues, now);
      assert items == items[..n] + [items[n]];
      PlaceOne(t, InsertAll(t, items[..n], queues, now).value, items[..n], items[n], queues, now);
    }
  }

  lemma {:induction false} RecreateEvolves(cur: Table, was: Table, order: seq<Key>,
                      destination: Option<string>, newIds: map<Key, nat>, queues: Queues, now: real)
    requires cur.Keys <= was.Keys && RedriveIdsAreNew(was, order, destination, newIds)
    ensures var t' := Recreate(cur, was, order, destination, newIds, queues, now);
            && (forall k :: k in cur ==> k in t' && t'[k] == cur[k])
            && (forall k :: k in t' && k !in cur ==> k !in was && NewRowInv(t'[k]) && !t'[k].blocked && !t'[k].blocking)
            && (Unique(cur) ==> Unique(t'))
  {
    if order != [] {
      var k := order[|order| - 1];
      RecreateEvolves(cur, was, order[..|order| - 1], destination, newIds, queues, now);
      RedriveOneEvolves(Recreate(cur, was, order[..|order| - 1], destination, newIds, queues, now), was, k, destination,
                        Failing.Lookup(newIds, k, 0), queues, now);
    }
  }

  lemma RedriveOneEvolves(u: Table, was: Table, k: Key, destination: Option<string>, id: nat, queues: Queues, now: real)
    requires k in was
    requires Destination(was[k], destination).Some? ==> Key(Destination(was[k], destination).value, id) !in was
    ensures var t' := RedriveOne(u, was[k], destination, id, queues, now);
            && (forall j :: j in u ==> j in t' && t'[j] == u[j])
            && (forall j :: j in t' && j !in u ==> j !in was && NewRowInv(t'[j]) && !t'[j].blocked && !t'[j].blocking)
            && (Unique(u) ==> Unique(t'))
  {
  }

  lemma RedriveEvolves(t: Table, table: string, order: seq<Key>, destination: Option<string>,
                      newIds: map<Key, nat>, queues: Queues, now: real)
    requires RedriveIdsAreNew(t, order, destination, newIds)
    ensures var t' := Redrive(t, table, order, destination, newIds, queues, now);
            Evolves(t, t', false, false) && (Unique(t) ==> Unique(t'))
  {
    if order != [] {
      var gone := DeletedBy(t, queues, table, order);
      WithoutEvolves(t, gone);
      RecreateEvolves(Without(t, gone), t, order, destination, newIds, queues, now);
    }
  }

  lemma FailEvolves(t: Table, order: seq<Key>, p: Failing.Params, queues: Queues)
    requires Unique(t) && forall k :: k in t ==> RowInv(t[k])
    requires Failing.Ready(t, Elems(order), order, p, queues)
    ensures var r := Failing.CteFail(t, order, p, queues);
            r.Some? && Evolves(t, r.value, false, false) && Unique(r.value)
  {
    Failing.CteFailMeetsOutcome(t, order, p, queues);
    Conservation.CteFailKeepsUnique(t, order, p, queues);
    var g := Failing.Granted(t, Elems(order), order, p);
    var lost := Failing.SharedIdLosses(t, order, g, p);
    var v := Failing.Verdict(Elems(order), g, lost, Failing.Dead(t, Elems(order) - g - lost, queues));
    OutcomeEvolves(Failing.CteFail(t, order, p, queues).value, t, order, Elems(order), v, p, queues, true);
  }

  lemma SplitFailEvolves(t: Table, deleted: set<Key>, order: seq<Key>, p: Failing.Params, queues: Queues)
    requires Unique(t) && forall k :: k in t ==> RowInv(t[k])
    requires Failing.Ready(t, deleted, order, p, queues)
    ensures var t' := Failing.SplitFail(t, deleted, order, p, queues);
            Evolves(t, t', false, false) && Unique(t')
  {
    Conservation.SplitFailKeepsUnique(t, deleted, order, p, queues);
    if order != [] {
      Failing.SplitFailMeetsOutcome(t, deleted, order, p, queues);
      var g := Failing.Granted(t, deleted, order, p);
      var v := Failing.Verdict(Elems(order), g, deleted - Elems(order),
                               Failing.Dead(t, Elems(order) - g, queues));
      OutcomeEvolves(Failing.SplitFail(t, deleted, order, p, queues), t, order, deleted, v, p, queues, false);
    }
  }

  predicate IsPlain(e: Step) {
    !e.DoFlow? && !e.DoResolve?
  }

  // What a plain step leaves behind.
  ghost predicate EvolvesBy(s: State, e: Step, s': State) {
    && Evolves(s.jobs, s'.jobs, e.DoFetch?, e.DoComplete? && e.includeQueued)
    && Unique(s'.jobs) && KeepsLiveDeps(s, s')
  }

  lemma InsertStepEvolves(queues: Queues, s: State, e: Step, s': State)
    requires TableInv(s) && Next(queues, s, e, s') && e.DoInsert?
    ensures EvolvesBy(s, e, s')
  {
    InsertEvolves(s.jobs, e.items, queues, e.now);
  }

  lemma FetchStepEvolves(queues: Queues, s: State, e: Step, s': State)
    requires TableInv(s) && Next(queues, s, e, s') && e.DoFetch?
    ensures EvolvesBy(s, e, s')
  {
    ClaimEvolves(s.jobs, e.name, e.policy, e.options, e.now, e.source);
  }

  lemma CompleteStepEvolves(queues: Queues, s: State, e: Step, s': State)
    requires TableInv(s) && Next(queues, s, e, s') && e.DoComplete?
    ensures EvolvesBy(s, e, s')
  {
    CompleteEvolves(s.jobs, e.name, e.outputs, e.now, e.includeQueued);
  }

  lemma FailStepEvolves(queues: Queues, s: State, e: Step, s': State)
    requires TableInv(s) && Next(queues, s, e, s') && e.DoFail?
    ensures EvolvesBy(s, e, s')
  {
    FailEvolves(s.jobs, e.order, e.params, queues);
  }

  lemma SplitFailStepEvolves(queues: Queues, s: State, e: Step, s': State)
    requires TableInv(s) && Next(queues, s, e, s') && e.DoSplitFail?
    ensures EvolvesBy(s, e, s')
  {
    SplitFailEvolves(s.jobs, e.deleted, e.order, e.params, queues);
  }

  lemma CancelStepEvolves(queues: Queues, s: State, e: Step, s': State)
    requires TableInv(s) && Next(queues, s, e, s') && e.DoCancel?
    ensures EvolvesBy(s, e, s')
  {
    CancelEvolves(s.jobs, e.name, e.ids, e.now);
  }

  lemma ResumeStepIs(queues: Queues, s: State, e: Step, s': State)
    requires Next(queues, s, e, s') && e.DoResume?
    ensures s'.jobs == Resume(s.jobs, e.name, e.ids) && s'.deps == s.deps
  {
  }

  lemma ResumeStepEvolves(queues: Queues, s: State, e: Step, s': State)
    requires TableInv(s) && Next(queues, s, e, s') && e.DoResume?
    ensures EvolvesBy(s, e, s')
  {
    ResumeStepIs(queues, s, e, s');
    assert Evolves(s.jobs, s'.jobs, false, false) && Unique(s'.jobs) by { ResumeEvolves(s.jobs, e.name, e.ids); }
    QuietStepEvolves(s, e, s', s'.jobs);
  }

  lemma RetryStepIs(queues: Queues, s: State, e: Step, s': State)
    requires Next(queues, s, e, s') && e.DoRetry?
    ensures s'.jobs == RetryByHand(s.jobs, e.name, e.ids) && s'.deps == s.deps
  {
  }

  lemma RetryStepEvolves(queues: Queues, s: State, e: Step, s': State)
    requires TableInv(s) && Next(queues, s, e, s') && e.DoRetry?
    ensures EvolvesBy(s, e, s')
  {
    RetryStepIs(queues, s, e, s');
    assert Evolves(s.jobs, s'.jobs, false, false) && Unique(s'.jobs) by { RetryByHandEvolves(s.jobs, e.name, e.ids); }
    QuietStepEvolves(s, e, s', s'.jobs);
  }

  lemma QuietStepEvolves(s: State, e: Step, s': State, t': Table)
    requires s'.jobs == t' && s'.deps == s.deps && !e.DoFetch? && !e.DoComplete?
    requires Evolves(s.jobs, t', false, false) && Unique(t')
    ensures EvolvesBy(s, e, s')
  {
  }

  lemma TouchStepEvolves(queues: Queues, s: State, e: Step, s': State)
    requires TableInv(s) && Next(queues, s, e, s') && e.DoTouch?
    ensures EvolvesBy(s, e, s')
  {
    TouchEvolves(s.jobs, e.name, e.ids, e.now);
  }

  lemma UpdateStepEvolves(queues: Queues, s: State, e: Step, s': State)
    requires TableInv(s) && Next(queues, s, e, s') && e.DoUpdate?
    ensures EvolvesBy(s, e, s')
  {
    UpdateEvolves(s.jobs, queues, e.table, e.targets, e.edit);
  }

  lemma RedriveStepEvolves(queues: Queues, s: State, e: Step, s': State)
    requires TableInv(s) && Next(queues, s, e, s') && e.DoRedrive?
    ensures EvolvesBy(s, e, s')
  {
    RedriveEvolves(s.jobs, e.table, e.order, e.destination, e.newIds, queues, e.now);
  }

  lemma DeleteStepEvolves(queues: Queues, s: State, e: Step, s': State)
    requires TableInv(s) && Next(queues, s, e, s') && e.DoDelete?
    ensures EvolvesBy(s, e, s')
  {
    WithoutEvolves(s.jobs, e.keys);
  }

  lemma SweepStepEvolves(queues: Queues, s: State, e: Step, s': State)
    requires TableInv(s) && Next(queues, s, e, s') && e.DoSweep?
    ensures EvolvesBy(s, e, s')
  {
    WithoutEvolves(s.jobs, Swept(s.jobs, e.names, e.now));
  }

  lemma CleanupStepEvolves(queues: Queues, s: State, e: Step, s': State)
    requires TableInv(s) && Next(queues, s, e, s') && e.DoCleanup?
    ensures EvolvesBy(s, e, s')
  {
    assert s'.jobs == s.jobs && s'.deps == Cleanup(s.jobs, s.deps, e.names);
  }

  // Every step but a flow and its resolution makes only plain moves.
  lemma PlainStepEvolves(queues: Queues, s: State, e: Step, s': State)
    requires TableInv(s) && Next(queues, s, e, s') && IsPlain(e)
    ensures EvolvesBy(s, e, s')
  {
    if e.DoInsert? {
      InsertStepEvolves(queues, s, e, s');
    } else if e.DoFetch? {
      FetchStepEvolves(queues, s, e, s');
    } else if e.DoComplete? {
      CompleteStepEvolves(queues, s, e, s');
    } else if e.DoFail? {
      FailStepEvolves(queues, s, e, s');
    } else if e.DoSplitFail? {
      SplitFailStepEvolves(queues, s, e, s');
    } else if e.DoCancel? {
      CancelStepEvolves(queues, s, e, s');
    } else if e.DoResume? {
      ResumeStepEvolves(queues, s, e, s');
    } else if e.DoRetry? {
      RetryStepEvolves(queues, s, e, s');
    } else if e.DoTouch? {
      TouchStepEvolves(queues, s, e, s');
    } else if e.DoUpdate? {
      UpdateStepEvolves(queues, s, e, s');
    } else if e.DoRedrive? {
      RedriveStepEvolves(queues, s, e, s');
    } else if e.DoDelete? {
      DeleteStepEvolves(queues, s, e, s');
    } else if e.DoSweep? {
      SweepStepEvolves(queues, s, e, s');
    } else {
      CleanupStepEvolves(queues, s, e, s');
    }
  }

  // ---------- Every step keeps the invariant ----------

  // Only dependency rows with a missing end are dropped.
  ghost predicate KeepsLiveDeps(s: State, s': State) {
    && s'.deps <= s.deps
    && forall d :: d in s.deps && d.child in s'.jobs && d.parent in s'.jobs ==> d in s'.deps
  }

  ghost predicate IdsAreFresh(s: State, s': State) {
    forall k :: k in s'.jobs && k !in s.jobs ==> k !in s.h.used
  }

  lemma PlainMovesKeepTable(t: Table, t': Table)
    requires Evolves(t, t', true, true) && Unique(t') && forall k :: k in t ==> RowInv(t[k])
    ensures forall k :: k in t' ==> RowInv(t'[k])
  {
    forall k | k in t' ensures RowInv(t'[k]) {
      if k in t {
        MovesKeepRowInv(t[k], t'[k]);
      }
    }
  }

  lemma PlainMovesResolveNothing(s: State, s': State)
    requires Evolves(s.jobs, s'.jobs, true, true) && KeepsLiveDeps(s, s') && s.deps <= s.h.declared
    requires s'.h == Observe(s.h, s.jobs, s'.jobs, s'.deps)
    ensures s'.h.declared == s.h.declared && s'.h.resolved == s.h.resolved
  {
    forall k | k in s.jobs && k in s'.jobs
      ensures s'.jobs[k].blocking == s.jobs[k].blocking
    {
      PlainMovesKeepLinks(s.jobs[k], s'.jobs[k]);
    }
    assert s.h.declared + s'.deps == s.h.declared;
    assert (set k | k in s.jobs && k in s'.jobs && s.jobs[k].blocking && !s'.jobs[k].blocking) == {};
  }

  lemma PlainMovesObserved(s: State, s': State)
    requires Inv(s) && Evolves(s.jobs, s'.jobs, true, true) && KeepsLiveDeps(s, s') && IdsAreFresh(s, s')
    requires s'.h == Observe(s.h, s.jobs, s'.jobs, s'.deps)
    ensures s'.h.declared == s.h.declared && s'.h.resolved == s.h.resolved
    ensures HistoryInv(s')
  {
    PlainMovesResolveNothing(s, s');
    forall k | k in s'.jobs
      ensures Count(s'.h.claims, k) == ClaimCount(s'.jobs[k])
    {
      if k in s.jobs {
        MovesCountClaims(s.jobs[k], s'.jobs[k]);
      }
    }
  }

  lemma PlainMovesKeepLinkInv(s: State, s': State)
    requires Inv(s) && Evolves(s.jobs, s'.jobs, true, true) && KeepsLiveDeps(s, s') && IdsAreFresh(s, s')
    requires s'.h.declared == s.h.declared && s'.h.resolved == s.h.resolved
    ensures LinkInv(s')
  {
    forall k | k in s'.jobs
      ensures k in s.jobs ==> s'.jobs[k].blocking == s.jobs[k].blocking
      ensures s'.jobs[k].blocked ==> s'.jobs[k].pending == |Unresolved(s'.h, k)|
      ensures !s'.jobs[k].blocked && s'.jobs[k].state != Completed ==> Unresolved(s'.h, k) == {}
      ensures k !in s.jobs ==> k !in s.h.resolved && !s'.jobs[k].blocking
      ensures k !in s.jobs ==> forall d :: d in s.h.declared ==> d.child != k && d.parent != k
    {
      assert Unresolved(s'.h, k) == Unresolved(s.h, k);
      if k in s.jobs {
        PlainMovesKeepLinks(s.jobs[k], s'.jobs[k]);
      } else {
        assert k !in s.h.used;
        assert ParentsOf(s.h.declared, k) == {};
      }
    }
  }

  lemma PlainStepKeepsInv(queues: Queues, s: State, e: Step, s': State)
    requires Inv(s) && Next(queues, s, e, s') && IsPlain(e)
    ensures Inv(s')
  {
    PlainStepEvolves(queues, s, e, s');
    PlainMovesKeepTable(s.jobs, s'.jobs);
    PlainMovesObserved(s, s');
    PlainMovesKeepLinkInv(s, s');
  }

  // A flow adds its rows and its dependency rows together, or nothing at all.
  lemma FlowKeepsInv(queues: Queues, s: State, e: Step, s': State)
    requires Inv(s) && Next(queues, s, e, s') && e.DoFlow?
    ensures Inv(s')
  {
    if InsertAll(s.jobs, e.items, queues, e.now).Some? {
      InsertAllPlaces(s.jobs, e.items, queues, e.now);
      FlowRowsAreNew(queues, s, e, s');
      FlowObserved(s, s', e.links);
      FlowLinks(s, s', e.links);
    } else {
      PlainMovesKeepTable(s.jobs, s'.jobs);
      PlainMovesObserved(s, s');
      PlainMovesKeepLinkInv(s, s');
    }
  }

  // What a successful flow does to the state: its rows,
  ghost predicate FlowAdded(s: State, s': State, links: set<Dep>) {
    && (forall k :: k in s.jobs ==> k in s'.jobs && s'.jobs[k] == s.jobs[k])
    && (forall k :: k in s'.jobs && k !in s.jobs ==> NewRowInv(s'.jobs[k]) && k !in s.h.used)
    && (forall d :: d in links ==>
          d.child in s'.jobs && d.child !in s.jobs && d.parent in s'.jobs && d.parent !in s.jobs)
    && s'.deps == s.deps + links
    && s'.h == Observe(s.h, s.jobs, s'.jobs, s'.deps)
  }

  // and what their counters and flags say.
  ghost predicate FlowCounted(s: State, s': State, links: set<Dep>) {
    forall k :: k in s'.jobs && k !in s.jobs ==>
      && s'.jobs[k].pending == |ParentsOf(links, k)|
      && (s'.jobs[k].blocking <==> exists d :: d in links && d.parent == k)
  }

  lemma FlowRowIsNew(s: State, s': State, items: seq<Item>, links: set<Dep>, queues: Queues, now: real, k: Key)
    requires AllPlaced(s.jobs, s'.jobs, items, queues, now) && LinksFit(items, links)
    requires k in s'.jobs && k !in s.jobs
    ensures NewRowInv(s'.jobs[k]) && s'.jobs[k].pending == |ParentsOf(links, k)|
    ensures s'.jobs[k].blocking <==> exists d :: d in links && d.parent == k
  {
    assert IsItemKey(items, k);
    var i :| 0 <= i < |items| && k == KeyOf(items[i]);
    assert Placed(s.jobs, s'.jobs, items[i], queues, now);
  }

  lemma FlowLinkIsNew(s: State, s': State, items: seq<Item>, links: set<Dep>, queues: Queues, now: real, d: Dep)
    requires AllPlaced(s.jobs, s'.jobs, items, queues, now) && LinksFit(items, links) && d in links
    ensures d.child in s'.jobs && d.child !in s.jobs && d.parent in s'.jobs && d.parent !in s.jobs
  {
    var i :| 0 <= i < |items| && KeyOf(items[i]) == d.child;
    assert Placed(s.jobs, s'.jobs, items[i], queues, now);
    var j :| 0 <= j < |items| && KeyOf(items[j]) == d.parent;
    assert Placed(s.jobs, s'.jobs, items[j], queues, now);
  }

  lemma FlowRowsAreNew(queues: Queues, s: State, e: Step, s': State)
    requires Inv(s) && Next(queues, s, e, s') && e.DoFlow? && InsertAll(s.jobs, e.items, queues, e.now).Some?
    requires AllPlaced(s.jobs, s'.jobs, e.items, queues, e.now) && LinksFit(e.items, e.links)
    ensures FlowAdded(s, s', e.links) && FlowCounted(s, s', e.links)
  {
    forall k | k in s'.jobs && k !in s.jobs
      ensures NewRowInv(s'.jobs[k]) && k !in s.h.used
      ensures s'.jobs[k].pending == |ParentsOf(e.links, k)|
      ensures s'.jobs[k].blocking <==> exists d :: d in e.links && d.parent == k
    {
      FlowRowIsNew(s, s', e.items, e.links, queues, e.now, k);
    }
    forall d | d in e.links
      ensures d.child in s'.jobs && d.child !in s.jobs && d.parent in s'.jobs && d.parent !in s.jobs
    {
      FlowLinkIsNew(s, s', e.items, e.links, queues, e.now, d);
    }
  }

  lemma FlowObserved(s: State, s': State, links: set<Dep>)
    requires TableInv(s) && HistoryInv(s) && FlowAdded(s, s', links)
    ensures s'.h.declared == s.h.declared + links && s'.h.resolved == s.h.resolved
    ensures HistoryInv(s')
    ensures forall k :: k in s'.jobs ==> RowInv(s'.jobs[k])
  {
    assert (set k | k in s.jobs && k in s'.jobs && s.jobs[k].blocking && !s'.jobs[k].blocking) == {};
    assert s'.h.declared == s.h.declared + links;
    forall k | k in s'.jobs
      ensures RowInv(s'.jobs[k])
      ensures Count(s'.h.claims, k) == ClaimCount(s'.jobs[k])
    {
      if k !in s.jobs {
        assert NewRowInv(s'.jobs[k]) && k !in s.h.claims;
      }
    }
  }

  lemma FlowUnresolved(s: State, s': State, links: set<Dep>, k: Key)
    requires HistoryInv(s) && FlowAdded(s, s', links) && k in s'.jobs
    requires s'.h.declared == s.h.declared + links && s'.h.resolved == s.h.resolved
    ensures Unresolved(s'.h, k) == if k in s.jobs then Unresolved(s.h, k) else ParentsOf(links, k)
  {
    if k in s.jobs {
      assert ParentsOf(s'.h.declared, k) == ParentsOf(s.h.declared, k);
    } else {
      assert ParentsOf(s'.h.declared, k) == ParentsOf(links, k);
      assert ParentsOf(links, k) !! s.h.resolved;
    }
  }

  lemma FlowLinks(s: State, s': State, links: set<Dep>)
    requires Inv(s) && FlowAdded(s, s', links) && FlowCounted(s, s', links)
    requires s'.h.declared == s.h.declared + links && s'.h.resolved == s.h.resolved
    ensures LinkInv(s')
  {
    forall k | k in s'.jobs
      ensures s'.jobs[k].blocked ==> s'.jobs[k].pending == |Unresolved(s'.h, k)|
      ensures !s'.jobs[k].blocked && s'.jobs[k].state != Completed ==> Unresolved(s'.h, k) == {}
    {
      FlowUnresolved(s, s', links, k);
      if k !in s.jobs {
        assert NewRowInv(s'.jobs[k]) && s'.jobs[k].pending == |ParentsOf(links, k)|;
      }
    }
  }

  // Resolving lowers each counter by exactly the parents that it resolves.
  // The tables before and after resolving these parents.
  ghost predicate IsResolution(s: State, s': State, parents: set<Key>) {
    && s'.jobs == Resolve(s.jobs, s.deps, parents) && s'.deps == s.deps
    && s'.h == Observe(s.h, s.jobs, s'.jobs, s'.deps)
    && forall p :: p in parents ==> p in s.jobs && s.jobs[p].blocking && s.jobs[p].state == Completed
  }

  lemma ResolveKeepsInv(queues: Queues, s: State, e: Step, s': State)
    requires Inv(s) && Next(queues, s, e, s') && e.DoResolve?
    ensures Inv(s')
  {
    ResolutionKeepsInv(s, s', e.parents);
  }

  lemma ResolutionKeepsInv(s: State, s': State, parents: set<Key>)
    requires Inv(s) && IsResolution(s, s', parents)
    ensures Inv(s')
  {
    ResolveReleases(s.jobs, s.deps, parents);
    assert forall k :: k in s.jobs ==> ResolvedRow(s, s', parents, k) by {
      forall k | k in s.jobs ensures ResolvedRow(s, s', parents, k) {
        RowIsResolved(s, s', parents, k);
      }
    }
    assert HistoryInv(s') && s'.h.declared == s.h.declared && s'.h.resolved == s.h.resolved + parents by {
      ResolveObserved(s, s', parents);
    }
    assert LinkInv(s') by { ResolveKeepsLinkInv(s, s', parents); }
  }

  // What resolving leaves of a row.
  ghost predicate ResolvedRow(s: State, s': State, parents: set<Key>, k: Key)
    requires k in s.jobs
  {
    && k in s'.jobs
    && var r, r' := s.jobs[k], s'.jobs[k];
    && RowInv(r') && r'.state == r.state && ClaimCount(r') == ClaimCount(r)
    && r'.blocking == (r.blocking && k !in parents)
    && (r'.blocked ==> r'.pending == |Unresolved(s.h, k) - parents|)
    && (!r'.blocked && r'.state != Completed ==> Unresolved(s.h, k) - parents == {})
  }

  lemma RowIsResolved(s: State, s': State, parents: set<Key>, k: Key)
    requires Inv(s) && k in s.jobs && s'.jobs == Resolve(s.jobs, s.deps, parents)
    requires forall p :: p in parents ==> p in s.jobs && s.jobs[p].blocking && s.jobs[p].state == Completed
    ensures ResolvedRow(s, s', parents, k)
  {
    ResolveAt(s.jobs, s.deps, parents, k);
    ReleaseRow(s.jobs[k], Hits(s.deps, k, parents), k in parents);
    MovesKeepRowInv(s.jobs[k], s'.jobs[k]);
    MovesCountClaims(s.jobs[k], s'.jobs[k]);
    ResolveKeepsCounter(s, parents, k);
  }

  lemma ResolveObserved(s: State, s': State, parents: set<Key>)
    requires HistoryInv(s) && s'.jobs.Keys == s.jobs.Keys && s'.deps == s.deps
    requires s'.h == Observe(s.h, s.jobs, s'.jobs, s'.deps)
    requires forall p :: p in parents ==> p in s.jobs && s.jobs[p].blocking && s.jobs[p].state == Completed
    requires forall k :: k in s.jobs ==>
               && s'.jobs[k].state == s.jobs[k].state && ClaimCount(s'.jobs[k]) == ClaimCount(s.jobs[k])
               && s'.jobs[k].blocking == (s.jobs[k].blocking && k !in parents)
    ensures s'.h.declared == s.h.declared && s'.h.resolved == s.h.resolved + parents
    ensures HistoryInv(s')
  {
    assert s.h.declared + s.deps == s.h.declared;
    assert (set k | k in s.jobs && k in s'.jobs && s.jobs[k].blocking && !s'.jobs[k].blocking) == parents;
    forall k | k in s'.jobs
      ensures Count(s'.h.claims, k) == Count(s.h.claims, k)
    {
      assert !BecomesActive(s.jobs, s'.jobs, k);
    }
  }

  lemma ResolveKeepsLinkInv(s: State, s': State, parents: set<Key>)
    requires Inv(s) && s'.jobs.Keys == s.jobs.Keys && s'.deps == s.deps
    requires s'.h.declared == s.h.declared && s'.h.resolved == s.h.resolved + parents
    requires forall p :: p in parents ==> p in s.jobs && s.jobs[p].blocking
    requires forall k :: k in s.jobs ==> ResolvedRow(s, s', parents, k)
    ensures LinkInv(s')
  {
    forall k | k in s'.jobs
      ensures Unresolved(s'.h, k) == Unresolved(s.h, k) - parents && ResolvedRow(s, s', parents, k)
    {
    }
    forall d | d in s'.h.declared && d.parent in s'.jobs && d.parent !in s'.h.resolved
      ensures s'.jobs[d.parent].blocking
    {
      assert ResolvedRow(s, s', parents, d.parent);
    }
  }

  // Counter conservation for one job.
  lemma ResolveKeepsCounter(s: State, parents: set<Key>, k: Key)
    requires Inv(s) && k in s.jobs
    requires forall p :: p in parents ==> p in s.jobs && s.jobs[p].blocking && s.jobs[p].state == Completed
    ensures var r := Decrement(s.jobs[k], Hits(s.deps, k, parents));
            && (r.blocked ==> r.pending == |Unresolved(s.h, k) - parents|)
            && (!r.blocked && r.state != Completed ==> Unresolved(s.h, k) - parents == {})
  {
    DependencyRowsAreThere(s, parents, k);
    if s.jobs[k].blocked {
      CounterStaysExact(s.jobs[k], s.deps, k, Unresolved(s.h, k), parents);
    }
  }

  // The audit joins exactly the unresolved parents among a batch.
  lemma DependencyRowsAreThere(s: State, parents: set<Key>, k: Key)
    requires Inv(s) && k in s.jobs && forall p :: p in parents ==> p in s.jobs && s.jobs[p].blocking
    ensures ParentsOf(s.deps, k) * parents == Unresolved(s.h, k) * parents
  {
    forall p
      ensures p in ParentsOf(s.deps, k) * parents <==> p in Unresolved(s.h, k) * parents
    {
      if p in Unresolved(s.h, k) * parents {
        var d :| d in s.h.declared && d.child == k && d.parent == p;
        assert d in s.deps;
      }
    }
  }

  lemma StepKeepsInv(queues: Queues, s: State, e: Step, s': State)
    requires Inv(s) && Next(queues, s, e, s')
    ensures Inv(s')
  {
    if IsPlain(e) {
      PlainStepKeepsInv(queues, s, e, s');
    } else if e.DoFlow? {
      FlowKeepsInv(queues, s, e, s');
    } else {
      ResolveKeepsInv(queues, s, e, s');
    }
  }

  // ---------- The shape of a step ----------

  predicate Lifts(e: Step) {
    e.DoComplete? && e.includeQueued
  }

  // The moves that a step of this kind may make on a row.
  predicate RowStep(e: Step, r: Row, r': Row) {
    || QuietMoves(r, r')
    || (e.DoFetch? && Claims(r, r'))
    || (Lifts(e) && FinishesQueued(r, r'))
    || (e.DoResolve? && IsReleased(r, r'))
  }

  ghost predicate StepShape(s: State, e: Step, s': State) {
    && (forall k :: k in s.jobs && k in s'.jobs ==> RowStep(e, s.jobs[k], s'.jobs[k]))
    && (forall k :: k in s'.jobs && k !in s.jobs ==> NewRowInv(s'.jobs[k]) && k !in s.h.used)
    && (forall d :: d in s'.deps && d !in s.deps ==> d.child in s'.jobs && d.child !in s.jobs)
    && s'.h == Observe(s.h, s.jobs, s'.jobs, s'.deps)
  }

  lemma PlainStepHasShape(queues: Queues, s: State, e: Step, s': State)
    requires TableInv(s) && Next(queues, s, e, s') && IsPlain(e)
    ensures StepShape(s, e, s')
  {
    PlainStepEvolves(queues, s, e, s');
  }

  lemma FlowStepHasShape(queues: Queues, s: State, e: Step, s': State)
    requires Inv(s) && Next(queues, s, e, s') && e.DoFlow?
    ensures StepShape(s, e, s')
  {
    if InsertAll(s.jobs, e.items, queues, e.now).Some? {
      InsertAllPlaces(s.jobs, e.items, queues, e.now);
      FlowRowsAreNew(queues, s, e, s');
    }
  }

  lemma ResolveStepHasShape(queues: Queues, s: State, e: Step, s': State)
    requires TableInv(s) && Next(queues, s, e, s') && e.DoResolve?
    ensures StepShape(s, e, s')
  {
    ResolutionHasShape(s, e, s');
  }

  lemma ResolutionHasShape(s: State, e: Step, s': State)
    requires e.DoResolve? && TableInv(s) && IsResolution(s, s', e.parents)
    ensures StepShape(s, e, s')
  {
    ResolveReleases(s.jobs, s.deps, e.parents);
    assert s'.jobs.Keys == s.jobs.Keys;
  }

  lemma StepHasShape(queues: Queues, s: State, e: Step, s': State)
    requires Inv(s) && Next(queues, s, e, s')
    ensures StepShape(s, e, s')
  {
    if IsPlain(e) {
      PlainStepHasShape(queues, s, e, s');
    } else if e.DoFlow? {
      FlowStepHasShape(queues, s, e, s');
    } else {
      ResolveStepHasShape(queues, s, e, s');
    }
  }

  // What a move of a step tells about the step and the row.
  lemma RowStepFacts(e: Step, r: Row, r': Row)
    requires RowInv(r) && RowStep(e, r, r')
    ensures r'.state == Active && r.state != Active ==> e.DoFetch? && Before(r.state, Active) && !r.blocked
    ensures r'.state == Completed && r.state != Completed && !Lifts(e) ==> r.state == Active && !r.blocked
    ensures r'.state == Active && r.state == Active ==> r'.terms.groupId == r.terms.groupId
  {
  }
}
