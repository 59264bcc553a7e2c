/**
 The life of one job: the moves that any statement may make on a row, what every move keeps, and
 the proof that each statement makes only such moves.
 */
module Lifecycle {
  import opened Outcomes
  import opened JobTable
  import opened Resolution
  import opened Statements
  import Failing
  import Fetching

  // ---------- Moves ----------

  predicate Claims(r: Row, s: Row) {
    && Before(r.state, Active) && !r.blocked && s.startedOn.Some? && s.heartbeatOn.Some?
    && s == r.(state := Active, startedOn := s.startedOn, heartbeatOn := s.heartbeatOn,
               retryCount := if r.startedOn.Some? then r.retryCount + 1 else r.retryCount)
  }

  predicate Finishes(r: Row, s: Row) {
    && r.state == Active && s.completedOn.Some?
    && s == r.(state := Completed, completedOn := s.completedOn, output := s.output)
  }

  // complete() with includeQueued also takes queued and blocked jobs, and lifts the block.
  predicate FinishesQueued(r: Row, s: Row) {
    && Before(r.state, Completed) && s.completedOn.Some?
    && s == r.(state := Completed, completedOn := s.completedOn, output := s.output, blocked := false, pending := 0)
  }

  predicate GoesToRetry(r: Row, s: Row) {
    && Before(r.state, Completed) && r.retryCount < r.terms.retryLimit
    && s == r.(state := Retry, startAfter := s.startAfter, completedOn := None, heartbeatOn := None,
               output := s.output, source := None)
  }

  predicate FailsForGood(r: Row, s: Row) {
    && Before(r.state, Completed) && s.completedOn.Some?
    && s == r.(state := Failed, startAfter := s.startAfter, completedOn := s.completedOn, heartbeatOn := None,
               output := s.output, source := None)
  }

  predicate IsCancelled(r: Row, s: Row) {
    Before(r.state, Completed) && s.completedOn.Some? && s == r.(state := Cancelled, completedOn := s.completedOn)
  }

  predicate IsResumed(r: Row, s: Row) {
    r.state == Cancelled && s == r.(state := Created, completedOn := None)
  }

  predicate IsRetriedByHand(r: Row, s: Row) {
    && r.state == Failed
    && s == r.(state := Retry, completedOn := None, terms := r.terms.(retryLimit := r.terms.retryLimit + 1))
  }

  predicate IsTouched(r: Row, s: Row) {
    r.state == Active && s.heartbeatOn.Some? && s == r.(heartbeatOn := s.heartbeatOn)
  }

  predicate IsEdited(r: Row, s: Row) {
    Before(r.state, Active) && s == r.(terms := s.terms, startAfter := s.startAfter, keepUntil := s.keepUntil)
  }

  // A resolved batch lowers a blocked child's counter, or clears a parent's flag.
  predicate IsReleased(r: Row, s: Row) {
    && s == r.(blocked := s.blocked, pending := s.pending, blocking := s.blocking)
    && (|| (s.blocked == r.blocked && s.pending == r.pending)
        || (r.blocked && s.pending >= 0 && (s.blocked <==> s.pending > 0)))
    && (s.blocking ==> r.blocking)
  }

  // The moves of every statement but fetch, complete() with includeQueued, and the flow audit.
  predicate QuietMoves(r: Row, s: Row) {
    || s == r
    || Finishes(r, s) || GoesToRetry(r, s) || FailsForGood(r, s)
    || IsCancelled(r, s) || IsResumed(r, s) || IsRetriedByHand(r, s) || IsTouched(r, s) || IsEdited(r, s)
  }

  predicate PlainMoves(r: Row, s: Row) {
    QuietMoves(r, s) || Claims(r, s) || FinishesQueued(r, s)
  }

  predicate Moves(r: Row, s: Row) {
    PlainMoves(r, s) || IsReleased(r, s)
  }

  // ---------- What every move keeps ----------

  predicate RowInv(r: Row) {
    && (r.completedOn.Some? <==> !Before(r.state, Completed))
    && (r.state == Active ==> r.startedOn.Some? && r.heartbeatOn.Some?)
    && (r.blocked <==> r.pending > 0) && r.pending >= 0
    && (r.blocked ==> r.state != Active && r.state != Completed)
    && r.retryCount >= 0 && (r.startedOn.None? ==> r.retryCount == 0)
  }

  lemma MovesKeepRowInv(r: Row, s: Row)
    requires RowInv(r) && Moves(r, s)
    ensures RowInv(s)
  {
  }

  // The number of times a job has been claimed can be read off its row.
  function ClaimCount(r: Row): int {
    if r.startedOn.None? then 0 else r.retryCount + 1
  }

  predicate Activates(r: Row, s: Row) {
    r.state != Active && s.state == Active
  }

  lemma MovesCountClaims(r: Row, s: Row)
    requires RowInv(r) && Moves(r, s)
    ensures ClaimCount(s) == ClaimCount(r) + if Activates(r, s) then 1 else 0
  {
  }

  // The retry budget, given how often the job was resumed.
  predicate WithinBudget(r: Row, resumes: nat) {
    && r.terms.retryLimit >= 0
    && (r.startedOn.Some? ==> r.retryCount <= r.terms.retryLimit + resumes)
    && (r.startedOn.Some? && Before(r.state, Active) ==> r.retryCount < r.terms.retryLimit + resumes)
  }

  predicate Resumes(r: Row, s: Row) {
    r.state == Cancelled && s.state == Created
  }

  lemma MovesKeepBudget(r: Row, s: Row, resumes: nat)
    requires RowInv(r) && Moves(r, s) && WithinBudget(r, resumes)
    requires s.terms.retryLimit >= r.terms.retryLimit
    ensures WithinBudget(s, if Resumes(r, s) then resumes + 1 else resumes)
  {
  }

  predicate NewRowInv(r: Row) {
    && r.state == Created && r.retryCount == 0
    && r.startedOn.None? && r.completedOn.None? && r.heartbeatOn.None?
    && (r.blocked <==> r.pending > 0) && r.pending >= 0
  }

  // ---------- Each statement makes only these moves ----------

  // Plain moves leave the flow columns alone, except that completing lifts a block.
  lemma PlainMovesKeepLinks(r: Row, s: Row)
    requires PlainMoves(r, s)
    ensures s.blocking == r.blocking
    ensures (s.blocked == r.blocked && s.pending == r.pending) || (s.state == Completed && !s.blocked)
    ensures r.state == Completed ==> s == r
  {
  }

  // Every surviving row has moved, and every other row is new and unlinked. The flags say whether
  // claims and queued completions are among the moves.
  ghost predicate Evolves(t: Table, t': Table, claims: bool, lifts: bool) {
    && (forall k :: k in t && k in t' ==>
          QuietMoves(t[k], t'[k]) || (claims && Claims(t[k], t'[k])) || (lifts && FinishesQueued(t[k], t'[k])))
    && (forall k :: k in t' && k !in t ==> NewRowInv(t'[k]) && !t'[k].blocked && !t'[k].blocking)
  }

  lemma ClaimEvolves(t: Table, name: string, policy: Policy, o: Fetching.Options, now: real, source: set<Key>)
    requires Fetching.IsSource(t, name, policy, o, now, source)
    ensures source <= t.Keys
    ensures Evolves(t, Fetching.ClaimRows(t, Fetching.Claimed(t, name, o, source), now), true, false)
  {
    Fetching.SourceIsCandidates(t, name, policy, o, now, source);
    Fetching.FetchIsBounded(t, name, policy, o, now, source);
  }

  // Statements that only move rows without taking an index slot.
  lemma NarrowMovesEvolve(t: Table, t': Table)
    requires forall k :: k in t' ==> k in t && QuietMoves(t[k], t'[k]) && Narrower(t'[k], t[k])
    ensures Evolves(t, t', false, false)
    ensures Unique(t) ==> Unique(t')
  {
    if Unique(t) {
      NarrowingKeepsUnique(t, t');
    }
  }

  lemma FinishNarrows(r: Row, s: Row)
    requires Finishes(r, s) || FinishesQueued(r, s) || IsCancelled(r, s) || IsTouched(r, s) || IsEdited(r, s)
    ensures Narrower(s, r)
  {
  }

  // The statement leaves this row as it is.
  ghost predicate Leaves(t: Table, t': Table, k: Key) {
    k in t && k in t' && t'[k] == t[k]
  }

  lemma CompleteEvolves(t: Table, name: string, outputs: map<nat, Option<Json>>, now: real, includeQueued: bool)
    ensures var t' := Complete(t, name, outputs, now, includeQueued);
            && t'.Keys == t.Keys
            && forall k :: k in t ==>
                 if Completes(k, t[k], name, outputs, includeQueued)
                 then && (if includeQueued then FinishesQueued(t[k], t'[k]) else Finishes(t[k], t'[k]))
                      && t'[k].completedOn == Some(now) && t'[k].output == outputs[k.id]
                 else Leaves(t, t', k)
    ensures Evolves(t, Complete(t, name, outputs, now, includeQueued), false, includeQueued)
    ensures Unique(t) ==> Unique(Complete(t, name, outputs, now, includeQueued))
  {
    var t' := Complete(t, name, outputs, now, includeQueued);
    forall k | k in t'
      ensures t'[k] == t[k] || if includeQueued then FinishesQueued(t[k], t'[k]) else Finishes(t[k], t'[k])
      ensures Narrower(t'[k], t[k])
    {
      if Completes(k, t[k], name, outputs, includeQueued) {
        FinishNarrows(t[k], t'[k]);
      }
    }
    if Unique(t) {
      NarrowingKeepsUnique(t, t');
    }
  }

  lemma CancelEvolves(t: Table, name: string, ids: set<nat>, now: real)
    ensures var t' := Cancel(t, name, ids, now);
            && t'.Keys == t.Keys
            && forall k :: k in t ==>
                 if Named(k, name, ids) && Before(t[k].state, Completed)
                 then IsCancelled(t[k], t'[k]) && t'[k].completedOn == Some(now)
                 else Leaves(t, t', k)
    ensures Evolves(t, Cancel(t, name, ids, now), false, false)
    ensures Unique(t) ==> Unique(Cancel(t, name, ids, now))
  {
    var t' := Cancel(t, name, ids, now);
    forall k | k in t'
      ensures QuietMoves(t[k], t'[k]) && Narrower(t'[k], t[k])
    {
      if Named(k, name, ids) && Before(t[k].state, Completed) {
        assert IsCancelled(t[k], t'[k]);
        FinishNarrows(t[k], t'[k]);
      }
    }
    NarrowMovesEvolve(t, t');
  }

  // All named cancelled jobs are queued again.
  ghost predicate AreResumed(t: Table, t': Table, name: string, ids: set<nat>) {
    && t'.Keys == t.Keys
    && forall k :: k in t ==>
         if Named(k, name, ids) && t[k].state == Cancelled then IsResumed(t[k], t'[k]) else Leaves(t, t', k)
  }

  // All named failed jobs wait for a retry, with one more attempt allowed.
  ghost predicate AreRetried(t: Table, t': Table, name: string, ids: set<nat>) {
    && t'.Keys == t.Keys
    && forall k :: k in t ==>
         if Named(k, name, ids) && t[k].state == Failed then IsRetriedByHand(t[k], t'[k]) else Leaves(t, t', k)
  }

  // A resume or a retry by hand changes nothing if an index is in the way.
  lemma ResumeIsAllOrNothing(t: Table, name: string, ids: set<nat>)
    ensures Unique(ResumedRows(t, name, ids)) ==> AreResumed(t, Resume(t, name, ids), name, ids)
    ensures !Unique(ResumedRows(t, name, ids)) ==> Resume(t, name, ids) == t
  {
  }

  lemma RetryIsAllOrNothing(t: Table, name: string, ids: set<nat>)
    ensures Unique(RetriedRows(t, name, ids)) ==> AreRetried(t, RetryByHand(t, name, ids), name, ids)
    ensures !Unique(RetriedRows(t, name, ids)) ==> RetryByHand(t, name, ids) == t
  {
  }

  lemma ResumeEvolves(t: Table, name: string, ids: set<nat>)
    ensures Evolves(t, Resume(t, name, ids), false, false)
    ensures Unique(t) ==> Unique(Resume(t, name, ids))
  {
  }

  lemma RetryByHandEvolves(t: Table, name: string, ids: set<nat>)
    ensures Evolves(t, RetryByHand(t, name, ids), false, false)
    ensures Unique(t) ==> Unique(RetryByHand(t, name, ids))
  {
  }

  lemma TouchEvolves(t: Table, name: string, ids: set<nat>, now: real)
    ensures var t' := Touch(t, name, ids, now);
            && t'.Keys == t.Keys
            && forall k :: k in t ==>
                 if Named(k, name, ids) && t[k].state == Active
                 then IsTouched(t[k], t'[k]) && t'[k].heartbeatOn == Some(now)
                 else Leaves(t, t', k)
    ensures Evolves(t, Touch(t, name, ids, now), false, false)
    ensures Unique(t) ==> Unique(Touch(t, name, ids, now))
  {
    var t' := Touch(t, name, ids, now);
    forall k | k in t'
      ensures QuietMoves(t[k], t'[k]) && Narrower(t'[k], t[k])
    {
      if Named(k, name, ids) && t[k].state == Active {
        assert IsTouched(t[k], t'[k]);
      }
    }
    NarrowMovesEvolve(t, t');
  }

  lemma UpdateEvolves(t: Table, queues: Queues, table: string, targets: set<Key>, e: Edit)
    ensures var t' := Update(t, queues, table, targets, e);
            && t'.Keys == t.Keys
            && forall k :: k in t ==>
                 if k in Touched(t, queues, table, targets) then IsEdited(t[k], t'[k]) else Leaves(t, t', k)
    ensures Evolves(t, Update(t, queues, table, targets, e), false, false)
    ensures Unique(t) ==> Unique(Update(t, queues, table, targets, e))
  {
    var t' := Update(t, queues, table, targets, e);
    forall k | k in t'
      ensures QuietMoves(t[k], t'[k]) && Narrower(t'[k], t[k])
    {
      if t'[k] != t[k] {
        assert IsEdited(t[k], t'[k]);
        FinishNarrows(t[k], t'[k]);
      }
    }
    NarrowMovesEvolve(t, t');
  }

  lemma WithoutEvolves(t: Table, ks: set<Key>)
    ensures Evolves(t, Without(t, ks), false, false)
    ensures Unique(t) ==> Unique(Without(t, ks))
  {
    if Unique(t) {
      NarrowingKeepsUnique(t, Without(t, ks));
    }
  }

  // The flow audit releases rows and takes no index slot.
  lemma ResolveReleases(t: Table, deps: set<Dep>, parents: set<Key>)
    requires forall k :: k in t ==> RowInv(t[k])
    ensures Resolve(t, deps, parents).Keys == t.Keys
    ensures forall k :: k in t ==> IsReleased(t[k], Resolve(t, deps, parents)[k])
    ensures Unique(t) ==> Unique(Resolve(t, deps, parents))
  {
    var t' := Resolve(t, deps, parents);
    forall k | k in t'
      ensures IsReleased(t[k], t'[k]) && Narrower(t'[k], t[k])
    {
      ResolveAt(t, deps, parents, k);
      ReleaseRow(t[k], Hits(deps, k, parents), k in parents);
    }
    if Unique(t) {
      NarrowingKeepsUnique(t, t');
    }
  }

  lemma ReleaseRow(r: Row, n: nat, cleared: bool)
    requires RowInv(r)
    ensures IsReleased(r, ResolveRow(r, n, cleared)) && Narrower(ResolveRow(r, n, cleared), r)
  {
  }

  lemma {:induction false} InsertEvolves(t: Table, items: seq<Item>, queues: Queues, now: real)
    requires forall i :: 0 <= i < |items| ==> items[i].request == Unlinked(items[i].request)
    ensures forall k :: k in t ==> k in Insert(t, items, queues, now) && Insert(t, items, queues, now)[k] == t[k]
    ensures Evolves(t, Insert(t, items, queues, now), false, false)
    ensures Unique(t) ==> Unique(Insert(t, items, queues, now))
  {
    if items != [] {
      InsertEvolves(t, items[..|items| - 1], queues, now);
    }
  }

  // Failing moves each selected job to retry or to failed; the copies are new rows.
  lemma FateMoves(r: Row, v: Failing.Verdict, p: Failing.Params, k: Key, cte: bool)
    requires RowInv(r) && (k in v.selected ==> Before(r.state, Completed))
    requires k in v.granted ==> Failing.CanRetry(r, p)
    ensures var s := Failing.Fate(r, v, p, k, cte);
            if k !in v.selected then s == r else if k in v.granted then GoesToRetry(r, s) else FailsForGood(r, s)
  {
  }

  lemma OutcomeEvolves(t': Table, t: Table, order: seq<Key>, deleted: set<Key>, v: Failing.Verdict,
                      p: Failing.Params, queues: Queues, cte: bool)
    requires forall k :: k in t ==> RowInv(t[k])
    requires Failing.Ready(t, deleted, order, p, queues) && Failing.Outcome(t', t, v, p, queues, cte)
    requires v.selected == Elems(order) && v.copied <= Elems(order)
    requires forall k :: k in v.granted ==> k in t && Failing.CanRetry(t[k], p)
    ensures forall k :: k in t && k !in v.lost ==>
              && k in t'
              && if k !in v.selected then Leaves(t, t', k)
                 else if k in v.granted then GoesToRetry(t[k], t'[k])
                 else FailsForGood(t[k], t'[k])
    ensures forall k :: k in t' ==> (k in t && k !in v.lost) || Failing.IsCopy(t, v.copied, p, k)
    ensures Evolves(t, t', false, false)
  {
    forall k | k in t && k !in v.lost
      ensures k in t'
      ensures if k !in v.selected then t'[k] == t[k]
              else if k in v.granted then GoesToRetry(t[k], t'[k]) else FailsForGood(t[k], t'[k])
    {
      FateMoves(t[k], v, p, k, cte);
    }
    forall k | k in t'
      ensures if k in t then QuietMoves(t[k], t'[k]) else NewRowInv(t'[k]) && !t'[k].blocked && !t'[k].blocking
    {
      if Failing.IsCopy(t, v.copied, p, k) {
        var j :| j in v.copied && j in t && k == Failing.DeadLetterKey(t[j], p, j);
        assert Failing.Copied(t', t[j], p, j, queues);
        assert j in order;
      } else {
        FateMoves(t[k], v, p, k, cte);
      }
    }
  }
}
