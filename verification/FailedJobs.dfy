/**
 What becomes of a failed job, column by column: whether it is tried again, when, and what its dead-letter
 copy holds. Told from the rows before and after, without the functions that compute them.
 */
module FailedJobs {
  import opened Outcomes
  import opened JobTable
  import opened Failing
  import opened Conservation

  // ---------- When a job is tried again ----------

  function Doubled(d: int, times: nat): int {
    if times == 0 then d else 2 * Doubled(d, times - 1)
  }

  // The least wait of a job with backoff: its delay, at least a second, doubled with each attempt up to the 16th.
  function LeastWait(r: Row): real
    requires r.retryCount >= 0
  {
    Doubled(if r.terms.retryDelay < 1 then 1 else r.terms.retryDelay,
            if r.retryCount < 15 then r.retryCount else 15) as real
  }

  function Wait(least: real, draw: real): real {
    least + least * draw
  }

  // A start that the settings of the job allow, for a draw between 0 and 1.
  ghost predicate WaitsAsSet(r: Row, start: real, now: real, draw: real)
    requires r.retryCount >= 0
  {
    if !r.terms.retryBackoff then start == now + r.terms.retryDelay as real
    else if r.terms.retryDelayMax.Some? && r.terms.retryDelayMax.value as real <= Wait(LeastWait(r), draw)
    then start == now + r.terms.retryDelayMax.value as real
    else start == now + Wait(LeastWait(r), draw)
  }

  lemma {:induction false} Pow2Doubles(d: int, n: nat)
    ensures Doubled(d, n) == d * Pow2(n)
  {
    if n > 0 {
      Pow2Doubles(d, n - 1);
    }
  }

  lemma JitteredIs(d: int, pow: int, draw: real)
    ensures Jittered(d, pow as real, draw) == Wait((d * pow) as real, draw)
  {
    var x, y := d as real, pow as real;
    assert (d * pow) as real == x * y;
    Distribute(x, y, draw);
  }

  lemma Distribute(x: real, y: real, draw: real)
    ensures x * (y + y * draw) == x * y + x * y * draw
  {
  }

  lemma HalfThePower(n: nat)
    ensures Pow2(n + 1) as real / 2.0 == Pow2(n) as real
  {
  }

  lemma UncappedIs(r: Row, draw: real)
    requires r.retryCount >= 0
    ensures Uncapped(r, draw) == Wait(LeastWait(r), draw)
  {
    var d := if r.terms.retryDelay < 1 then 1 else r.terms.retryDelay;
    var n := if r.retryCount < 15 then r.retryCount else 15;
    HalfThePower(n);
    Pow2Doubles(d, n);
    JitteredIs(d, Pow2(n), draw);
    assert Max(r.terms.retryDelay, 1) == d && Min(16, r.retryCount + 1) == n + 1;
  }

  lemma RetryStartIs(r: Row, p: Params, k: Key)
    requires r.retryCount >= 0
    ensures WaitsAsSet(r, RetryStart(r, p, k), p.now, if k in p.jitter then p.jitter[k] else 0.0)
  {
    UncappedIs(r, if k in p.jitter then p.jitter[k] else 0.0);
  }

  lemma LeastWaitIsPositive(r: Row)
    requires r.retryCount >= 0
    ensures LeastWait(r) >= 1.0
  {
    DoublesUp(if r.terms.retryDelay < 1 then 1 else r.terms.retryDelay, if r.retryCount < 15 then r.retryCount else 15);
  }

  lemma WaitIsWithin(least: real, draw: real)
    requires least >= 1.0 && 0.0 <= draw < 1.0
    ensures least <= Wait(least, draw) < 2.0 * least
  {
  }

  // The wait doubles from one attempt to the next until the 16th, and stays the same from there on.
  lemma WaitDoubles(r: Row)
    requires r.retryCount >= 0
    ensures r.retryCount == 0 ==> LeastWait(r) == if r.terms.retryDelay < 1 then 1.0 else r.terms.retryDelay as real
    ensures var next := r.(retryCount := r.retryCount + 1);
            LeastWait(next) == if r.retryCount < 15 then 2.0 * LeastWait(r) else LeastWait(r)
  {
    DoublesNext(if r.terms.retryDelay < 1 then 1 else r.terms.retryDelay, r.retryCount);
  }

  // With backoff and no cap, a job waits for at least this time and for less than twice as long.
  lemma BackoffIsExponential(r: Row, start: real, now: real, draw: real)
    requires r.retryCount >= 0 && 0.0 <= draw < 1.0
    requires r.terms.retryBackoff && r.terms.retryDelayMax.None? && WaitsAsSet(r, start, now, draw)
    ensures LeastWait(r) <= start - now < 2.0 * LeastWait(r)
  {
    LeastWaitIsPositive(r);
    WaitIsWithin(LeastWait(r), draw);
  }

  lemma DoublesNext(d: int, n: nat)
    ensures n < 15 ==> Doubled(d, n + 1) == 2 * Doubled(d, n)
  {
  }

  lemma {:induction false} DoublesUp(d: int, n: nat)
    requires d >= 1
    ensures Doubled(d, n) >= 1
  {
    if n > 0 {
      DoublesUp(d, n - 1);
    }
  }

  // ---------- What becomes of each job ----------

  function OutputOf(p: Params, k: Key): Option<Json> {
    if k in p.outputs then p.outputs[k] else None
  }

  function DrawOf(p: Params, k: Key): real {
    if k in p.jitter then p.jitter[k] else 0.0
  }

  function CopyKey(queue: string, p: Params, k: Key): Key {
    Key(queue, if k in p.dlqIds then p.dlqIds[k] else 0)
  }

  predicate HasAttempts(r: Row, p: Params) {
    !p.forceTerminal && r.retryCount < r.terms.retryLimit
  }

  // The job waits for another attempt; apart from these columns its row is as before.
  ghost predicate TriedAgain(r: Row, s: Row, p: Params, k: Key)
    requires r.retryCount >= 0
  {
    && HasAttempts(r, p) && WaitsAsSet(r, s.startAfter, p.now, DrawOf(p, k))
    && s == r.(state := Retry, startAfter := s.startAfter, completedOn := None, heartbeatOn := None,
               output := OutputOf(p, k), source := None)
  }

  // The job has failed for good. Only the single statement may move its start.
  ghost predicate GivenUp(r: Row, s: Row, p: Params, k: Key, single: bool)
    requires r.retryCount >= 0
  {
    && s == r.(state := Failed, startAfter := s.startAfter, completedOn := Some(p.now), heartbeatOn := None,
               output := OutputOf(p, k), source := None)
    && if single && !HasAttempts(r, p) && r.retryCount != r.terms.retryLimit
       then WaitsAsSet(r, s.startAfter, p.now, DrawOf(p, k))
       else s.startAfter == r.startAfter
  }

  // Another job of a stately queue waits for a retry under the same key.
  ghost predicate SlotIsTaken(t: Table, k: Key)
    requires k in t
  {
    && t[k].policy == Some(Stately)
    && exists j :: j in t && j != k && j.name == k.name && t[j].policy == Some(Stately) && t[j].state == Retry
                   && t[j].singletonKey.GetOr("") == t[k].singletonKey.GetOr("")
  }

  ghost predicate Settled(t: Table, t': Table, k: Key, p: Params, single: bool)
    requires k in t && t[k].retryCount >= 0
  {
    && k in t'
    && (TriedAgain(t[k], t'[k], p, k)
        || (GivenUp(t[k], t'[k], p, k, single) && (HasAttempts(t[k], p) ==> SlotIsTaken(t', k))))
  }

  // The copy in the dead-letter queue: what the job was, under the settings of that queue.
  ghost predicate IsDeadLetterOf(s: Row, r: Row, k: Key, q: Queue, p: Params) {
    && s.terms.data == r.terms.data && s.output == OutputOf(p, k) && s.singletonKey == r.singletonKey
    && s.source == Some(Source(k.name, k.id, r.createdOn, r.retryCount))
    && s.state == Created && s.retryCount == 0 && s.startedOn.None? && s.completedOn.None? && s.heartbeatOn.None?
    && s.createdOn == s.startAfter == p.now && s.keepUntil == p.now + q.retentionSeconds as real
    && s.terms.retryLimit == q.retryLimit && s.terms.retryDelay == q.retryDelay
    && s.terms.retryBackoff == q.retryBackoff && s.terms.retryDelayMax.None?
    && s.terms.expireSeconds == q.expireSeconds && s.terms.deletionSeconds == q.deletionSeconds
    && s.terms.heartbeatSeconds == r.terms.heartbeatSeconds && s.terms.priority == 0
    && s.terms.deadLetter.None? && s.terms.groupId.None? && s.terms.groupTier.None?
    && s.policy.None? && s.singletonOn.None? && !s.blocked && !s.blocking && s.pending == 0
  }

  // Every job that failed for good and has a dead-letter queue lies there as well, and nothing else is new.
  ghost predicate DeadLettersAreThere(t: Table, t': Table, order: seq<Key>, p: Params, queues: Queues) {
    && (forall k :: k in order && k in t && k in t' && t'[k].state == Failed
                    && t[k].terms.deadLetter.Some? && t[k].terms.deadLetter.value in queues ==>
          var queue := t[k].terms.deadLetter.value;
          CopyKey(queue, p, k) in t' && IsDeadLetterOf(t'[CopyKey(queue, p, k)], t[k], k, queues[queue], p))
    && (forall d :: d in t' && d !in t ==> IsCopyOfFailed(t, t', order, p, queues, d))
  }

  ghost predicate IsCopyOfFailed(t: Table, t': Table, order: seq<Key>, p: Params, queues: Queues, d: Key) {
    exists k :: k in order && k in t && k in t' && t'[k].state == Failed
                && t[k].terms.deadLetter == Some(d.name) && d.name in queues && d == CopyKey(d.name, p, k)
  }

  // ---------- Both forms settle the jobs so ----------

  lemma FateSettles(r: Row, v: Verdict, p: Params, k: Key, cte: bool)
    requires r.retryCount >= 0 && k in v.selected && (k in v.granted ==> CanRetry(r, p))
    ensures var s := Fate(r, v, p, k, cte);
            if k in v.granted then TriedAgain(r, s, p, k) else GivenUp(r, s, p, k, cte)
  {
    RetryStartIs(r, p, k);
  }

  lemma {:induction false} RefusedIsTaken(t: Table, deleted: set<Key>, order: seq<Key>, p: Params, k: Key)
    requires Known(t, order) && k in order && CanRetry(t[k], p) && k !in Granted(t, deleted, order, p)
    ensures RetryTaken(t, deleted, Granted(t, deleted, order, p), k)
  {
    var n := |order| - 1;
    var g := Granted(t, deleted, order[..n], p);
    if order[n] == k && RetryTaken(t, deleted, g, k) {
      var j :| j in t && j.name == k.name && j != k && t[j].policy == Some(Stately)
               && KeyText(t[j]) == KeyText(t[k]) && (j in g || (j !in deleted && t[j].state == Retry));
    } else {
      assert k in order[..n];
      RefusedIsTaken(t, deleted, order[..n], p, k);
    }
  }

  lemma TakenSlotIsSeen(t': Table, t: Table, deleted: set<Key>, v: Verdict, p: Params, queues: Queues, cte: bool,
                        k: Key)
    requires forall j :: j in t ==> t[j].retryCount >= 0
    requires Outcome(t', t, v, p, queues, cte) && k in t && k !in v.lost && k in v.selected
    requires v.selected <= deleted && v.lost <= deleted && v.lost !! v.granted && v.granted <= v.selected
    requires RetryTaken(t, deleted, v.granted, k)
    ensures k in t' && SlotIsTaken(t', k)
  {
    var j :| j in t && j.name == k.name && j != k && t[j].policy == Some(Stately)
             && KeyText(t[j]) == KeyText(t[k]) && (j in v.granted || (j !in deleted && t[j].state == Retry));
    assert j !in v.lost;
    assert t'[j] == Fate(t[j], v, p, j, cte) && t'[k] == Fate(t[k], v, p, k, cte);
  }

  // The verdict of a run of the loop or the statement over this order.
  ghost predicate IsVerdict(t: Table, deleted: set<Key>, order: seq<Key>, v: Verdict, p: Params, queues: Queues) {
    && Known(t, order) && v.selected == Elems(order) <= deleted && v.granted == Granted(t, deleted, order, p)
    && v.lost <= deleted && v.lost !! v.granted && Elems(order) <= t.Keys
    && v.copied == Dead(t, Elems(order) - v.granted - v.lost, queues)
  }

  lemma OutcomeSettles(t': Table, t: Table, deleted: set<Key>, order: seq<Key>, v: Verdict, p: Params, queues: Queues,
                       cte: bool, k: Key)
    requires Ready(t, deleted, order, p, queues) && IsVerdict(t, deleted, order, v, p, queues)
    requires Outcome(t', t, v, p, queues, cte) && k in order && k !in v.lost
    ensures Settled(t, t', k, p, cte)
  {
    FateSettles(t[k], v, p, k, cte);
    if k !in v.granted && CanRetry(t[k], p) {
      RefusedIsTaken(t, deleted, order, p, k);
      TakenSlotIsSeen(t', t, deleted, v, p, queues, cte, k);
    }
  }

  lemma CopyIsDeadLetter(r: Row, p: Params, k: Key, queues: Queues)
    requires HasDeadLetter(r, queues)
    ensures DeadLetterKey(r, p, k) == CopyKey(r.terms.deadLetter.value, p, k)
    ensures IsDeadLetterOf(CopyOf(r, p, k, queues), r, k, queues[r.terms.deadLetter.value], p)
  {
  }

  lemma OutcomeCopies(t': Table, t: Table, deleted: set<Key>, order: seq<Key>, v: Verdict, p: Params, queues: Queues,
                      cte: bool)
    requires Ready(t, deleted, order, p, queues) && IsVerdict(t, deleted, order, v, p, queues)
    requires Outcome(t', t, v, p, queues, cte)
    ensures DeadLettersAreThere(t, t', order, p, queues)
  {
    forall k | k in order && k in t && k in t' && t'[k].state == Failed
               && t[k].terms.deadLetter.Some? && t[k].terms.deadLetter.value in queues
      ensures var queue := t[k].terms.deadLetter.value;
              CopyKey(queue, p, k) in t' && IsDeadLetterOf(t'[CopyKey(queue, p, k)], t[k], k, queues[queue], p)
    {
      FailedIsCopied(t', t, deleted, order, v, p, queues, cte, k);
      CopyIsDeadLetter(t[k], p, k, queues);
    }
    forall d | d in t' && d !in t ensures IsCopyOfFailed(t, t', order, p, queues, d) {
      assert IsCopy(t, v.copied, p, d);
      var k :| k in v.copied && k in t && d == DeadLetterKey(t[k], p, k);
      assert t'[k] == Fate(t[k], v, p, k, cte);
      CopyIsDeadLetter(t[k], p, k, queues);
    }
  }

  lemma NoCopyIsOld(t: Table, deleted: set<Key>, order: seq<Key>, v: Verdict, p: Params, queues: Queues, k: Key)
    requires Ready(t, deleted, order, p, queues) && IsVerdict(t, deleted, order, v, p, queues) && k in t
    ensures !IsCopy(t, v.copied, p, k)
  {
    forall j | j in v.copied ensures DeadLetterKey(t[j], p, j) != k {
      assert j in order && HasDeadLetter(t[j], queues);
    }
  }

  lemma FailedIsCopied(t': Table, t: Table, deleted: set<Key>, order: seq<Key>, v: Verdict, p: Params, queues: Queues,
                       cte: bool, k: Key)
    requires Ready(t, deleted, order, p, queues) && IsVerdict(t, deleted, order, v, p, queues)
    requires Outcome(t', t, v, p, queues, cte)
    requires k in order && k in t' && t'[k].state == Failed && HasDeadLetter(t[k], queues)
    ensures k in v.copied && Copied(t', t[k], p, k, queues)
  {
    NoCopyIsOld(t, deleted, order, v, p, queues, k);
    assert t'[k] == Fate(t[k], v, p, k, cte);
    assert k in Elems(order) - v.granted - v.lost;
  }

  // The loop of the split forms settles every job of its order, and leaves the rows alone that were not deleted.
  lemma SplitFailSettles(t: Table, deleted: set<Key>, order: seq<Key>, p: Params, queues: Queues)
    requires Ready(t, deleted, order, p, queues)
    ensures var t' := SplitFail(t, deleted, order, p, queues);
            && (forall k :: k in order ==> Settled(t, t', k, p, false))
            && (forall k :: k in t && k !in deleted ==> k in t' && t'[k] == t[k])
            && DeadLettersAreThere(t, t', order, p, queues)
  {
    if order != [] {
      var t', g := SplitFail(t, deleted, order, p, queues), Granted(t, deleted, order, p);
      var v := Verdict(Elems(order), g, deleted - Elems(order), Dead(t, Elems(order) - g, queues));
      SplitFailMeetsOutcome(t, deleted, order, p, queues);
      assert Elems(order) - g - v.lost == Elems(order) - g;
      forall k | k in order ensures Settled(t, t', k, p, false) {
        OutcomeSettles(t', t, deleted, order, v, p, queues, false, k);
      }
      OutcomeCopies(t', t, deleted, order, v, p, queues, false);
    }
  }

  // The single statement settles every job that it does not lose.
  lemma CteFailSettles(t: Table, order: seq<Key>, p: Params, queues: Queues)
    requires Ready(t, Elems(order), order, p, queues)
    ensures CteFail(t, order, p, queues).Some?
    ensures var t' := CteFail(t, order, p, queues).value;
            && (forall k :: k in order && k in t' ==> Settled(t, t', k, p, true))
            && (forall k :: k in t && k !in order ==> k in t' && t'[k] == t[k])
            && DeadLettersAreThere(t, t', order, p, queues)
  {
    var g := Granted(t, Elems(order), order, p);
    var lost := SharedIdLosses(t, order, g, p);
    CteFailMeetsOutcome(t, order, p, queues);
    var t' := CteFail(t, order, p, queues).value;
    var v := Verdict(Elems(order), g, lost, Dead(t, Elems(order) - g - lost, queues));
    forall k | k in order && k in t' ensures Settled(t, t', k, p, true) {
      LostIsGone(t', t, order, v, p, queues, k);
      OutcomeSettles(t', t, Elems(order), order, v, p, queues, true, k);
    }
    OutcomeCopies(t', t, Elems(order), order, v, p, queues, true);
  }

  lemma LostIsGone(t': Table, t: Table, order: seq<Key>, v: Verdict, p: Params, queues: Queues, k: Key)
    requires Ready(t, Elems(order), order, p, queues) && IsVerdict(t, Elems(order), order, v, p, queues)
    requires Outcome(t', t, v, p, queues, true) && k in order && k in t'
    ensures k !in v.lost
  {
    NoCopyIsOld(t, Elems(order), order, v, p, queues, k);
  }
}
