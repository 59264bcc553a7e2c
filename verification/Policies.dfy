/**
 A queue's policy is fixed when the queue is created, so every row carries its queue's policy or none.
 That is what the results about claims and their indexes rest on.
 */
module Policies {
  import opened Outcomes
  import opened JobTable
  import opened Statements
  import opened Runs
  import Failing
  import Fetching
  import GroupedFetch
  import Safety

  predicate FollowsQueue(k: Key, r: Row, queues: Queues) {
    r.policy.None? || (k.name in queues && r.policy == Some(queues[k.name].policy))
  }

  ghost predicate NewRowsFollow(t: Table, t': Table, queues: Queues) {
    forall k :: k in t' && k !in t ==> FollowsQueue(k, t'[k], queues)
  }

  lemma {:induction false} InsertFollows(t: Table, items: seq<Item>, queues: Queues, now: real)
    ensures NewRowsFollow(t, Insert(t, items, queues, now), queues)
  {
    if items != [] {
      InsertFollows(t, items[..|items| - 1], queues, now);
    }
  }

  lemma {:induction false} InsertAllFollows(t: Table, items: seq<Item>, queues: Queues, now: real)
    requires InsertAll(t, items, queues, now).Some?
    ensures NewRowsFollow(t, InsertAll(t, items, queues, now).value, queues)
  {
    if items != [] {
      InsertAllFollows(t, items[..|items| - 1], queues, now);
    }
  }

  lemma {:induction false} RecreateFollows(cur: Table, was: Table, order: seq<Key>, destination: Option<string>,
                                           newIds: map<Key, nat>, queues: Queues, now: real)
    requires forall k :: k in order ==> k in was
    ensures NewRowsFollow(cur, Recreate(cur, was, order, destination, newIds, queues, now), queues)
  {
    if order != [] {
      RecreateFollows(cur, was, order[..|order| - 1], destination, newIds, queues, now);
    }
  }

  lemma RedriveFollows(queues: Queues, s: State, e: Step, s': State)
    requires Next(queues, s, e, s') && e.DoRedrive?
    ensures NewRowsFollow(s.jobs, s'.jobs, queues)
  {
    if e.order != [] {
      var gone := DeletedBy(s.jobs, queues, e.table, e.order);
      RecreateFollows(Without(s.jobs, gone), s.jobs, e.order, e.destination, e.newIds, queues, e.now);
    }
  }

  lemma OutcomeFollows(t': Table, t: Table, v: Failing.Verdict, p: Failing.Params, queues: Queues, cte: bool)
    requires forall k :: k in t ==> t[k].retryCount >= 0
    requires Failing.Outcome(t', t, v, p, queues, cte)
    ensures NewRowsFollow(t, t', queues)
  {
    forall d | d in t' && d !in t ensures t'[d].policy.None? {
      assert Failing.IsCopy(t, v.copied, p, d);
      var k :| k in v.copied && k in t && d == Failing.DeadLetterKey(t[k], p, k);
      assert Failing.Copied(t', t[k], p, k, queues);
    }
  }

  lemma FailFollows(queues: Queues, s: State, e: Step, s': State)
    requires Next(queues, s, e, s') && e.DoFail?
    ensures NewRowsFollow(s.jobs, s'.jobs, queues)
  {
    var t, order, p := s.jobs, e.order, e.params;
    Failing.CteFailMeetsOutcome(t, order, p, queues);
    var g := Failing.Granted(t, Elems(order), order, p);
    var lost := Failing.SharedIdLosses(t, order, g, p);
    var v := Failing.Verdict(Elems(order), g, lost, Failing.Dead(t, Elems(order) - g - lost, queues));
    OutcomeFollows(Failing.CteFail(t, order, p, queues).value, t, v, p, queues, true);
  }

  lemma SplitFailFollows(queues: Queues, s: State, e: Step, s': State)
    requires Next(queues, s, e, s') && e.DoSplitFail?
    ensures NewRowsFollow(s.jobs, s'.jobs, queues)
  {
    var t, deleted, order, p := s.jobs, e.deleted, e.order, e.params;
    if order != [] {
      Failing.SplitFailMeetsOutcome(t, deleted, order, p, queues);
      var g := Failing.Granted(t, deleted, order, p);
      var v := Failing.Verdict(Elems(order), g, deleted - Elems(order), Failing.Dead(t, Elems(order) - g, queues));
      OutcomeFollows(Failing.SplitFail(t, deleted, order, p, queues), t, v, p, queues, false);
    }
  }

  predicate CreatesNoRow(e: Step) {
    !e.DoInsert? && !e.DoFlow? && !e.DoRedrive? && !e.DoFail? && !e.DoSplitFail?
  }

  // A statement that raises a unique violation changes nothing.
  lemma CommittedCreateNoRow(queues: Queues, s: State, e: Step, s': State)
    requires Next(queues, s, e, s') && (e.DoFetch? || e.DoResume? || e.DoRetry?)
    ensures s'.jobs.Keys <= s.jobs.Keys
  {
  }

  lemma OthersCreateNoRow(queues: Queues, s: State, e: Step, s': State)
    requires Next(queues, s, e, s') && CreatesNoRow(e)
    ensures s'.jobs.Keys <= s.jobs.Keys
  {
    if e.DoFetch? || e.DoResume? || e.DoRetry? {
      CommittedCreateNoRow(queues, s, e, s');
    }
  }

  // Whatever the step, a new row has the policy its queue has at that moment, or none.
  lemma StepFollows(queues: Queues, s: State, e: Step, s': State)
    requires Next(queues, s, e, s')
    ensures NewRowsFollow(s.jobs, s'.jobs, queues)
  {
    if e.DoInsert? {
      InsertFollows(s.jobs, e.items, queues, e.now);
    } else if e.DoFlow? {
      if InsertAll(s.jobs, e.items, queues, e.now).Some? {
        InsertAllFollows(s.jobs, e.items, queues, e.now);
      }
    } else if e.DoRedrive? {
      RedriveFollows(queues, s, e, s');
    } else if e.DoFail? {
      FailFollows(queues, s, e, s');
    } else if e.DoSplitFail? {
      SplitFailFollows(queues, s, e, s');
    } else {
      OthersCreateNoRow(queues, s, e, s');
    }
  }

  // updateQueue() takes no policy, so the queue has the same one whenever it exists.
  ghost predicate HasPolicy(qs: seq<Queues>, name: string, policy: Policy) {
    forall i :: 0 <= i < |qs| && name in qs[i] ==> qs[i][name].policy == policy
  }

  lemma RowStepKeepsPolicy(e: Step, r: Row, r': Row)
    requires RowStep(e, r, r')
    ensures r'.policy == r.policy
  {
  }

  // In every reachable state the rows of a queue carry its policy or none.
  lemma {:induction false} RunKeepsPolicy(qs: seq<Queues>, ss: seq<State>, es: seq<Step>, i: nat,
                                          name: string, policy: Policy)
    requires Safety.IsRun(qs, ss, es) && i <= |es| && HasPolicy(qs, name, policy)
    ensures Fetching.FollowsPolicy(ss[i].jobs, name, policy)
  {
    if i > 0 {
      RunKeepsPolicy(qs, ss, es, i - 1, name, policy);
      var s, e, s' := ss[i - 1], es[i - 1], ss[i];
      assert StepShape(s, e, s') by { Safety.ShapeOfStep(qs, ss, es, i - 1); }
      assert NewRowsFollow(s.jobs, s'.jobs, qs[i - 1]) by {
        Safety.StepInto(qs, ss, es, i);
        StepFollows(qs[i - 1], s, e, s');
      }
      forall k | k in s'.jobs && k.name == name
        ensures s'.jobs[k].policy == None || s'.jobs[k].policy == Some(policy)
      {
        if k in s.jobs {
          RowStepKeepsPolicy(e, s.jobs[k], s'.jobs[k]);
        } else {
          assert FollowsQueue(k, s'.jobs[k], qs[i - 1]);
        }
      }
    }
  }

  // In every reachable state, a fetch that skips all active keys may trip over its own index exactly when the rows
  // up to the limit hold a keyless one and one with the empty key, for which the groups have room if they are limited.
  lemma ReachableFetchMayTripIff(qs: seq<Queues>, ss: seq<State>, es: seq<Step>, i: nat, name: string,
                                 policy: Policy, o: Fetching.Options, now: real, next: seq<Key>)
    requires Safety.IsRun(qs, ss, es) && i <= |es| && HasPolicy(qs, name, policy)
    requires Fetching.IgnoresActiveKeys(ss[i].jobs, name, o)
    requires Fetching.IsNext(ss[i].jobs, o, o.limit, Fetching.Candidates(ss[i].jobs, name, o, now), next)
    ensures (exists source :: GroupedFetch.Trips(ss[i].jobs, name, policy, o, now, source))
            <==> GroupedFetch.MayTrip(ss[i].jobs, name, o, Elems(next))
  {
    assert Unique(ss[i].jobs) by { Safety.RunKeepsInv(qs, ss, es, i); }
    assert Fetching.FollowsPolicy(ss[i].jobs, name, policy) by { RunKeepsPolicy(qs, ss, es, i, name, policy); }
    GroupedFetch.FetchMayTripIff(ss[i].jobs, name, policy, o, now, next);
  }
}
