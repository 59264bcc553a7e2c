/**
 Failing jobs: retry, terminal failure, and the dead-letter queue.

 The same meaning is implemented twice: a single chain of mutating CTEs, and a split into select,
 delete and a loop of re-inserts. Both are modelled step by step and both are proved equal to one
 closed form, Outcome, which says for every row of the table what becomes of it.
 */
module Failing {
  import opened Outcomes
  import opened JobTable

  datatype Params = Params(
    now: real,
    jitter: map<Key, real>,       // the random draw in [0, 1) of each job's backoff
    outputs: map<Key, Option<Json>>,
    forceTerminal: bool,
    dlqIds: map<Key, nat>)        // the generated id of each job's dead-letter copy

  function Lookup<V>(m: map<Key, V>, k: Key, default: V): V {
    if k in m then m[k] else default
  }

  function Pow2(n: nat): int {
    if n == 0 then 1 else 2 * Pow2(n - 1)
  }

  function Jittered(delay: int, half: real, draw: real): real {
    delay as real * (half + half * draw)
  }

  // Between half a power of two times the delay and the whole of it.
  function Uncapped(r: Row, draw: real): real
    requires r.retryCount >= 0
  {
    Jittered(Max(r.terms.retryDelay, 1), Pow2(Min(16, r.retryCount + 1)) as real / 2.0, draw)
  }

  // The seconds until a retry with backoff; a missing cap is no cap, a cap of 0 is a cap.
  function Backoff(r: Row, draw: real): real
    requires r.retryCount >= 0
  {
    Capped(r.terms.retryDelayMax, Uncapped(r, draw))
  }

  function Capped(cap: Option<int>, delay: real): real {
    match cap
    case None => delay
    case Some(most) => if most as real < delay then most as real else delay
  }

  function RetryStart(r: Row, p: Params, k: Key): real
    requires r.retryCount >= 0
  {
    if !r.terms.retryBackoff then p.now + r.terms.retryDelay as real
    else p.now + Backoff(r, Lookup(p.jitter, k, 0.0))
  }

  predicate CanRetry(r: Row, p: Params) {
    !p.forceTerminal && r.retryCount < r.terms.retryLimit
  }

  // Both forms drop the source columns and the heartbeat, and keep every other column but these.
  function RetryRow(r: Row, p: Params, k: Key): Row
    requires r.retryCount >= 0
  {
    r.(state := Retry, startAfter := RetryStart(r, p, k), completedOn := None, heartbeatOn := None,
       output := Lookup(p.outputs, k, None), source := None)
  }

  function FailedRow(r: Row, p: Params, k: Key): Row {
    r.(state := Failed, completedOn := Some(p.now), heartbeatOn := None,
       output := Lookup(p.outputs, k, None), source := None)
  }

  // The row that the CTE's first insert writes. Its start_after rule looks only at the two
  // counters, so a job that fails terminally below its limit is rescheduled as well.
  function CteRow(r: Row, p: Params, k: Key): Row
    requires r.retryCount >= 0
  {
    var base := if CanRetry(r, p) then RetryRow(r, p, k) else FailedRow(r, p, k);
    base.(startAfter := if r.retryCount == r.terms.retryLimit then r.startAfter else RetryStart(r, p, k))
  }

  // A dead-letter copy takes its settings from its own queue. It has no policy, no throttle slot
  // and no dead-letter queue of its own.
  function DeadLetterRow(q: Queue, r: Row, p: Params, k: Key): Row {
    Row(Terms(0, r.terms.data, q.expireSeconds, q.deletionSeconds, q.retryLimit, q.retryDelay, q.retryBackoff, None,
              None, r.terms.heartbeatSeconds, None, None),
        p.now, p.now + q.retentionSeconds as real, p.now, r.singletonKey, None, None,
        Created, 0, None, None, None, Lookup(p.outputs, k, None),
        Some(Source(k.name, k.id, r.createdOn, r.retryCount)), false, false, 0)
  }

  predicate HasDeadLetter(r: Row, queues: Queues) {
    r.terms.deadLetter.Some? && r.terms.deadLetter.value in queues
  }

  function DeadLetterKey(r: Row, p: Params, k: Key): Key {
    Key(r.terms.deadLetter.GetOr(""), Lookup(p.dlqIds, k, 0))
  }

  function CopyOf(r: Row, p: Params, k: Key, queues: Queues): Row
    requires HasDeadLetter(r, queues)
  {
    DeadLetterRow(queues[r.terms.deadLetter.value], r, p, k)
  }

  // ---------- The split form ----------

  // One turn of the re-insert loop, for a job already deleted from the table.
  function ReinsertOne(cur: Table, k: Key, r: Row, p: Params, queues: Queues): Table
    requires r.retryCount >= 0
  {
    if CanRetry(r, p) && CanInsert(cur, k, RetryRow(r, p, k)) then
      cur[k := RetryRow(r, p, k)]
    else
      var failed := InsertIgnore(cur, k, FailedRow(r, p, k));
      if HasDeadLetter(r, queues) then
        failed[DeadLetterKey(r, p, k) := CopyOf(r, p, k, queues)]
      else failed
  }

  function Reinsert(cur: Table, was: Table, order: seq<Key>, p: Params, queues: Queues): Table
    requires Known(was, order)
  {
    if order == [] then cur
    else
      var k := order[|order| - 1];
      ReinsertOne(Reinsert(cur, was, order[..|order| - 1], p, queues), k, was[k], p, queues)
  }

  // The split over a selection `order`, where the delete statement removes `deleted`.
  function SplitFail(t: Table, deleted: set<Key>, order: seq<Key>, p: Params, queues: Queues): Table
    requires Known(t, order)
  {
    if order == [] then t else Reinsert(Without(t, deleted), t, order, p, queues)
  }

  predicate Known(t: Table, order: seq<Key>) {
    forall k :: k in order ==> k in t && t[k].retryCount >= 0
  }

  // ---------- The CTE form ----------

  // retried_jobs: every deleted row is offered, in some order; conflicts are skipped.
  function Offer(cur: Table, was: Table, order: seq<Key>, p: Params): Table
    requires Known(was, order)
  {
    if order == [] then cur
    else
      var k := order[|order| - 1];
      InsertIgnore(Offer(cur, was, order[..|order| - 1], p), k, CteRow(was[k], p, k))
  }

  // failed_jobs: the deleted rows whose id (not name and id) was not returned by retried_jobs. The
  // insert has no conflict clause, so a conflict would abort the statement.
  function InsertRest(cur: Table, was: Table, order: seq<Key>, returned: set<nat>, p: Params): Option<Table>
    requires Known(was, order)
  {
    if order == [] then Some(cur)
    else
      var k := order[|order| - 1];
      match InsertRest(cur, was, order[..|order| - 1], returned, p)
      case None => None
      case Some(t) =>
        if k.id in returned then Some(t)
        else if CanInsert(t, k, FailedRow(was[k], p, k)) then Some(t[k := FailedRow(was[k], p, k)])
        else None
  }

  // dlq_jobs: one copy for each row of `results` that is failed and has a dead-letter queue.
  function CopyDead(cur: Table, was: Table, results: Table, order: seq<Key>, p: Params, queues: Queues): Table
    requires Known(was, order)
  {
    if order == [] then cur
    else
      var k := order[|order| - 1];
      var t := CopyDead(cur, was, results, order[..|order| - 1], p, queues);
      if k in results && results[k].state == Failed && HasDeadLetter(was[k], queues) then
        t[DeadLetterKey(was[k], p, k) := CopyOf(was[k], p, k, queues)]
      else t
  }

  // The whole statement; None if it aborts.
  function CteFail(t: Table, order: seq<Key>, p: Params, queues: Queues): Option<Table>
    requires Known(t, order)
  {
    var selected := set k | k in order;
    var offered := Offer(Without(t, selected), t, order, p);
    match InsertRest(offered, t, order, set k | k in selected && k in offered :: k.id, p)
    case None => None
    case Some(results) => Some(CopyDead(results, t, results, order, p, queues))
  }

  // ---------- The closed form ----------

  // What happens to each job: the selected ones, the ones among them that are granted a retry,
  // the rows that are gone afterwards, and the ones that get a dead-letter copy.
  datatype Verdict = Verdict(selected: set<Key>, granted: set<Key>, lost: set<Key>, copied: set<Key>)

  function Fate(r: Row, v: Verdict, p: Params, k: Key, cte: bool): Row
    requires r.retryCount >= 0
  {
    if k !in v.selected then r
    else if k in v.granted then RetryRow(r, p, k)
    else if cte && !CanRetry(r, p) then CteRow(r, p, k)
    else FailedRow(r, p, k)
  }

  ghost predicate Outcome(t': Table, t: Table, v: Verdict, p: Params, queues: Queues, cte: bool)
    requires forall k :: k in t ==> t[k].retryCount >= 0
  {
    && (forall k :: k in t && k !in v.lost ==> k in t' && t'[k] == Fate(t[k], v, p, k, cte))
    && (forall k :: k in v.copied ==> k in t && Copied(t', t[k], p, k, queues))
    && (forall d :: d in t' ==> (d in t && d !in v.lost) || IsCopy(t, v.copied, p, d))
  }

  predicate Copied(t': Table, r: Row, p: Params, k: Key, queues: Queues) {
    && HasDeadLetter(r, queues)
    && DeadLetterKey(r, p, k) in t'
    && t'[DeadLetterKey(r, p, k)] == CopyOf(r, p, k, queues)
  }

  ghost predicate IsCopy(t: Table, copied: set<Key>, p: Params, d: Key) {
    exists k :: k in copied && k in t && d == DeadLetterKey(t[k], p, k)
  }

  // A retry is refused only here: a stately queue whose retry slot for this key is taken, by a
  // row that stays in the table or by a job granted its retry earlier.
  predicate RetryTaken(t: Table, deleted: set<Key>, granted: set<Key>, k: Key)
    requires k in t
  {
    && t[k].policy == Some(Stately)
    && exists j :: j in t && j.name == k.name && j != k && t[j].policy == Some(Stately)
                   && KeyText(t[j]) == KeyText(t[k])
                   && (j in granted || (j !in deleted && t[j].state == Retry))
  }

  // The jobs granted a retry when the deleted rows are re-inserted in this order.
  function Granted(t: Table, deleted: set<Key>, order: seq<Key>, p: Params): (g: set<Key>)
    requires Known(t, order)
    ensures forall k :: k in g ==> k in order && CanRetry(t[k], p)
  {
    if order == [] then {}
    else
      var k := order[|order| - 1];
      var g := Granted(t, deleted, order[..|order| - 1], p);
      if CanRetry(t[k], p) && !RetryTaken(t, deleted, g, k) then g + {k} else g
  }

  // What both forms rest on: valid indexes, a selection of distinct jobs below completed, and
  // generated ids that are new.
  ghost predicate Ready(t: Table, deleted: set<Key>, order: seq<Key>, p: Params, queues: Queues) {
    && Unique(t)
    && (forall k :: k in t ==> t[k].retryCount >= 0)
    && Distinct(order)
    && deleted <= t.Keys
    && (forall k :: k in order ==> k in deleted && Before(t[k].state, Completed))
    && (forall k :: k in order && HasDeadLetter(t[k], queues) ==> DeadLetterKey(t[k], p, k) !in t)
    && (forall j, k :: j in order && k in order && j != k && HasDeadLetter(t[j], queues) && HasDeadLetter(t[k], queues)
          ==> DeadLetterKey(t[j], p, j) != DeadLetterKey(t[k], p, k))
  }

  function Dead(t: Table, ks: set<Key>, queues: Queues): set<Key>
    requires ks <= t.Keys
  {
    set k | k in ks && HasDeadLetter(t[k], queues)
  }

  // ---------- One insert ----------

  // A loop state: the jobs in v.lost are deleted and not (yet) re-inserted.
  ghost predicate Midway(cur: Table, t: Table, deleted: set<Key>, v: Verdict, p: Params, queues: Queues, cte: bool) {
    && Unique(t)
    && (forall j :: j in t ==> t[j].retryCount >= 0)
    && v.selected <= deleted <= t.Keys
    && v.lost <= deleted && deleted - v.selected <= v.lost
    && (forall j :: j in v.selected ==> Before(t[j].state, Completed))
    && (forall j :: j in v.copied ==> j in t && HasDeadLetter(t[j], queues) && DeadLetterKey(t[j], p, j) !in t)
    && (forall j :: j in v.granted ==> j in v.selected && j !in v.lost && CanRetry(t[j], p))
    && Outcome(cur, t, v, p, queues, cte)
  }

  // A re-inserted row holds no slot that its old row did not hold, except the stately retry slot.
  predicate Reinserted(s: Row, r: Row) {
    && s.singletonKey == r.singletonKey && s.singletonOn == r.singletonOn && s.policy == r.policy
    && s.state in {Retry, Failed}
  }

  lemma StayingRowCollision(s: Row, r: Row, row: Row)
    requires !Collide(s, r) && Before(r.state, Completed) && Reinserted(row, r)
    ensures Collide(s, row) <==>
              && row.state == Retry && s.state == Retry
              && row.policy == Some(Stately) && s.policy == Some(Stately) && KeyText(s) == KeyText(r)
  {
  }

  lemma ReinsertedRowCollision(s: Row, was: Row, r: Row, row: Row)
    requires !Collide(was, r) && Before(was.state, Completed) && Before(r.state, Completed)
    requires Reinserted(s, was) && Reinserted(row, r)
    ensures Collide(s, row) <==>
              && row.state == Retry && s.state == Retry
              && row.policy == Some(Stately) && s.policy == Some(Stately) && KeyText(s) == KeyText(r)
  {
  }

  // Rows other than k that are in the table midway: what they can collide with.
  lemma MidwayCollision(cur: Table, t: Table, deleted: set<Key>, v: Verdict, p: Params, queues: Queues, cte: bool,
                        j: Key, k: Key, row: Row)
    requires Midway(cur, t, deleted, v, p, queues, cte)
    requires k in v.selected && k in v.lost && Reinserted(row, t[k])
    requires j in cur && j.name == k.name
    ensures Collide(cur[j], row) <==>
              && row.state == Retry && row.policy == Some(Stately)
              && j in t && j != k && t[j].policy == Some(Stately) && KeyText(t[j]) == KeyText(t[k])
              && (j in v.granted || (j !in deleted && t[j].state == Retry))
  {
    if j in t && j !in v.lost {
      assert !Collide(t[j], t[k]);
      assert cur[j] == Fate(t[j], v, p, j, cte);
      if j in v.selected {
        ReinsertedRowCollision(cur[j], t[j], t[k], row);
      } else {
        StayingRowCollision(cur[j], t[k], row);
      }
    } else {
      assert IsCopy(t, v.copied, p, j);
      var i :| i in v.copied && i in t && j == DeadLetterKey(t[i], p, i);
      assert cur[j] == CopyOf(t[i], p, i, queues);
    }
  }

  // The terminal insert is never dropped: only the primary key and the throttle index apply to it.
  lemma TerminalInsertSucceeds(cur: Table, t: Table, deleted: set<Key>, v: Verdict, p: Params, queues: Queues,
                               cte: bool, k: Key, row: Row)
    requires Midway(cur, t, deleted, v, p, queues, cte)
    requires k in v.selected && k in v.lost && Reinserted(row, t[k]) && row.state == Failed
    ensures CanInsert(cur, k, row)
  {
    forall j | j in cur && j.name == k.name
      ensures !Collide(cur[j], row)
    {
      MidwayCollision(cur, t, deleted, v, p, queues, cte, j, k, row);
    }
  }

  lemma RetryInsertSucceedsIff(cur: Table, t: Table, deleted: set<Key>, v: Verdict, p: Params, queues: Queues,
                               cte: bool, k: Key, row: Row)
    requires Midway(cur, t, deleted, v, p, queues, cte)
    requires k in v.selected && k in v.lost && Reinserted(row, t[k]) && row.state == Retry
    ensures CanInsert(cur, k, row) <==> !RetryTaken(t, deleted, v.granted, k)
  {
    forall j | j in cur && j.name == k.name
      ensures Collide(cur[j], row) ==> RetryTaken(t, deleted, v.granted, k)
    {
      MidwayCollision(cur, t, deleted, v, p, queues, cte, j, k, row);
    }
    if RetryTaken(t, deleted, v.granted, k) {
      var j :| j in t && j.name == k.name && j != k && t[j].policy == Some(Stately)
               && KeyText(t[j]) == KeyText(t[k])
               && (j in v.granted || (j !in deleted && t[j].state == Retry));
      MidwayCollision(cur, t, deleted, v, p, queues, cte, j, k, row);
    }
  }

  // ---------- Both forms meet the closed form ----------

  function SplitVerdict(t: Table, deleted: set<Key>, order: seq<Key>, n: nat, p: Params, queues: Queues): Verdict
    requires n <= |order| && Known(t, order)
  {
    var done := Elems(order[..n]);
    var granted := Granted(t, deleted, order[..n], p);
    Verdict(Elems(order), granted, deleted - done, Dead(t, done - granted, queues))
  }

  // Putting one selected job back as its fate.
  lemma PlaceRow(cur: Table, t: Table, v: Verdict, v': Verdict, p: Params, queues: Queues, cte: bool, k: Key)
    requires forall j :: j in t ==> t[j].retryCount >= 0
    requires Outcome(cur, t, v, p, queues, cte)
    requires k in t && k in v.selected && k in v.lost
    requires forall j :: j in v.copied ==> j in t && DeadLetterKey(t[j], p, j) !in t
    requires v' == v.(granted := v'.granted, lost := v.lost - {k})
    requires v'.granted == v.granted + {k} || v'.granted == v.granted
    ensures Outcome(cur[k := Fate(t[k], v', p, k, cte)], t, v', p, queues, cte)
  {
    var next := cur[k := Fate(t[k], v', p, k, cte)];
    forall j | j in t && j !in v'.lost
      ensures j in next && next[j] == Fate(t[j], v', p, j, cte)
    {
      if j != k {
        assert next[j] == cur[j] == Fate(t[j], v, p, j, cte);
      }
    }
    forall j | j in v'.copied
      ensures Copied(next, t[j], p, j, queues)
    {
      assert Copied(cur, t[j], p, j, queues);
    }
  }

  // Adding the dead-letter copy of one job.
  lemma PlaceCopy(cur: Table, t: Table, v: Verdict, p: Params, queues: Queues, cte: bool, k: Key)
    requires forall j :: j in t ==> t[j].retryCount >= 0
    requires Outcome(cur, t, v, p, queues, cte)
    requires k in t && HasDeadLetter(t[k], queues) && DeadLetterKey(t[k], p, k) !in t
    requires !IsCopy(t, v.copied, p, DeadLetterKey(t[k], p, k))
    ensures Outcome(cur[DeadLetterKey(t[k], p, k) := CopyOf(t[k], p, k, queues)], t,
                    v.(copied := v.copied + {k}), p, queues, cte)
  {
    var d := DeadLetterKey(t[k], p, k);
    var next := cur[d := CopyOf(t[k], p, k, queues)];
    var v' := v.(copied := v.copied + {k});
    forall j | j in t && j !in v'.lost
      ensures j in next && next[j] == Fate(t[j], v', p, j, cte)
    {
      assert next[j] == cur[j] == Fate(t[j], v, p, j, cte);
    }
    forall j | j in v'.copied
      ensures j in t && Copied(next, t[j], p, j, queues)
    {
      if j != k {
        assert j in t && Copied(cur, t[j], p, j, queues);
        assert DeadLetterKey(t[j], p, j) != d;
      }
    }
    forall e | e in next
      ensures (e in t && e !in v'.lost) || IsCopy(t, v'.copied, p, e)
    {
      if e != d && IsCopy(t, v.copied, p, e) {
        var j :| j in v.copied && j in t && e == DeadLetterKey(t[j], p, j);
        assert j in v'.copied;
      }
    }
  }

  // Re-inserting one job, with its dead-letter copy if it has one.
  lemma AdvanceSplit(cur: Table, t: Table, deleted: set<Key>, v: Verdict, p: Params, queues: Queues, k: Key)
    requires Midway(cur, t, deleted, v, p, queues, false)
    requires k in v.selected && k in v.lost && k !in v.copied
    requires HasDeadLetter(t[k], queues) ==> DeadLetterKey(t[k], p, k) !in t
    requires HasDeadLetter(t[k], queues) ==> !IsCopy(t, v.copied, p, DeadLetterKey(t[k], p, k))
    ensures var retried := CanRetry(t[k], p) && !RetryTaken(t, deleted, v.granted, k);
            var v' := v.(granted := if retried then v.granted + {k} else v.granted, lost := v.lost - {k},
                         copied := if !retried && HasDeadLetter(t[k], queues) then v.copied + {k} else v.copied);
            Midway(ReinsertOne(cur, k, t[k], p, queues), t, deleted, v', p, queues, false)
  {
    var retried := CanRetry(t[k], p) && !RetryTaken(t, deleted, v.granted, k);
    var w := v.(granted := if retried then v.granted + {k} else v.granted, lost := v.lost - {k});
    var row := if retried then RetryRow(t[k], p, k) else FailedRow(t[k], p, k);
    RetryInsertSucceedsIff(cur, t, deleted, v, p, queues, false, k, RetryRow(t[k], p, k));
    TerminalInsertSucceeds(cur, t, deleted, v, p, queues, false, k, FailedRow(t[k], p, k));
    assert row == Fate(t[k], w, p, k, false);
    PlaceRow(cur, t, v, w, p, queues, false, k);
    if !retried && HasDeadLetter(t[k], queues) {
      PlaceCopy(cur[k := row], t, w, p, queues, false, k);
    }
  }

  // The verdict once the next job has had its turn.
  lemma SplitVerdictStep(t: Table, deleted: set<Key>, order: seq<Key>, n: nat, p: Params, queues: Queues)
    requires Known(t, order) && Distinct(order) && n < |order| && forall k :: k in order ==> k in deleted
    ensures var k, v := order[n], SplitVerdict(t, deleted, order, n, p, queues);
            var retried := CanRetry(t[k], p) && !RetryTaken(t, deleted, v.granted, k);
            && k !in Elems(order[..n])
            && SplitVerdict(t, deleted, order, n + 1, p, queues)
               == v.(granted := if retried then v.granted + {k} else v.granted, lost := v.lost - {k},
                     copied := if !retried && HasDeadLetter(t[k], queues) then v.copied + {k} else v.copied)
  {
    var k, v := order[n], SplitVerdict(t, deleted, order, n, p, queues);
    var w := SplitVerdict(t, deleted, order, n + 1, p, queues);
    assert order[..n + 1][..n] == order[..n] && order[..n + 1][n] == k;
    assert k !in order[..n];
    assert Elems(order[..n + 1]) == Elems(order[..n]) + {k};
    assert w.lost == v.lost - {k};
    assert w.copied == if k !in w.granted && HasDeadLetter(t[k], queues) then v.copied + {k} else v.copied;
  }

  lemma NextIsUncopied(t: Table, deleted: set<Key>, order: seq<Key>, n: nat, p: Params, queues: Queues)
    requires Ready(t, deleted, order, p, queues) && n < |order|
    ensures var k, v := order[n], SplitVerdict(t, deleted, order, n, p, queues);
            && k in v.selected && k in v.lost && k !in v.copied
            && (HasDeadLetter(t[k], queues) ==> !IsCopy(t, v.copied, p, DeadLetterKey(t[k], p, k)))
  {
    var k, v := order[n], SplitVerdict(t, deleted, order, n, p, queues);
    assert k !in order[..n];
    forall j | j in v.copied ensures j in order && j != k && HasDeadLetter(t[j], queues) {
      assert j in order[..n];
    }
  }

  lemma SplitStarts(t: Table, deleted: set<Key>, order: seq<Key>, p: Params, queues: Queues)
    requires Ready(t, deleted, order, p, queues)
    ensures Midway(Reinsert(Without(t, deleted), t, order[..0], p, queues), t, deleted,
                   SplitVerdict(t, deleted, order, 0, p, queues), p, queues, false)
  {
    assert Elems(order[..0]) == {};
  }

  lemma OneMoreTurn(t: Table, deleted: set<Key>, order: seq<Key>, n: nat, p: Params, queues: Queues, before: Table)
    requires Ready(t, deleted, order, p, queues) && n < |order|
    requires Midway(before, t, deleted, SplitVerdict(t, deleted, order, n, p, queues), p, queues, false)
    ensures Midway(ReinsertOne(before, order[n], t[order[n]], p, queues), t, deleted,
                   SplitVerdict(t, deleted, order, n + 1, p, queues), p, queues, false)
  {
    var k, v := order[n], SplitVerdict(t, deleted, order, n, p, queues);
    NextIsUncopied(t, deleted, order, n, p, queues);
    SplitVerdictStep(t, deleted, order, n, p, queues);
    AdvanceSplit(before, t, deleted, v, p, queues, k);
  }

  lemma {:induction false} SplitPrefix(t: Table, deleted: set<Key>, order: seq<Key>, n: nat, p: Params, queues: Queues)
    requires Ready(t, deleted, order, p, queues) && n <= |order|
    ensures Midway(Reinsert(Without(t, deleted), t, order[..n], p, queues), t, deleted,
                   SplitVerdict(t, deleted, order, n, p, queues), p, queues, false)
  {
    if n == 0 {
      SplitStarts(t, deleted, order, p, queues);
    } else {
      var before := Reinsert(Without(t, deleted), t, order[..n - 1], p, queues);
      assert order[..n][..n - 1] == order[..n - 1];
      SplitPrefix(t, deleted, order, n - 1, p, queues);
      OneMoreTurn(t, deleted, order, n - 1, p, queues, before);
    }
  }

  // The split form: every selected job is re-inserted exactly once under its key, as retry or
  // failed; each one failed with a dead-letter queue is copied exactly once; rows that the delete
  // statement removed without their being selected are lost, and nothing else changes.
  lemma SplitFailMeetsOutcome(t: Table, deleted: set<Key>, order: seq<Key>, p: Params, queues: Queues)
    requires Ready(t, deleted, order, p, queues) && order != []
    ensures var g := Granted(t, deleted, order, p);
            Outcome(SplitFail(t, deleted, order, p, queues), t,
                    Verdict(Elems(order), g, deleted - Elems(order), Dead(t, Elems(order) - g, queues)),
                    p, queues, false)
  {
    SplitPrefix(t, deleted, order, |order|, p, queues);
    assert order[..|order|] == order;
  }

  // Jobs with retries left whose retry insert was refused.
  predicate Refused(t: Table, granted: set<Key>, p: Params, k: Key)
    requires k in t
  {
    CanRetry(t[k], p) && k !in granted
  }

  // The CTE looks for refused jobs by id alone, so it overlooks one that shares its id with a
  // job of another queue that was re-inserted.
  function SharedIdLosses(t: Table, order: seq<Key>, granted: set<Key>, p: Params): set<Key>
    requires Known(t, order)
  {
    set k | k in order && Refused(t, granted, p, k) && k.id in OfferedIds(t, order, granted, p)
  }

  function OfferedIds(t: Table, order: seq<Key>, granted: set<Key>, p: Params): set<nat>
    requires Known(t, order)
  {
    set k | k in order && !Refused(t, granted, p, k) :: k.id
  }

  ghost function OfferVerdict(t: Table, order: seq<Key>, n: nat, p: Params): Verdict
    requires n <= |order| && Known(t, order)
  {
    var granted := Granted(t, Elems(order), order[..n], p);
    Verdict(Elems(order), granted, set k | k in order && (k in order[..n] ==> Refused(t, granted, p, k)), {})
  }

  // Offering one deleted job to the table.
  lemma AdvanceOffer(cur: Table, t: Table, v: Verdict, p: Params, queues: Queues, k: Key)
    requires Midway(cur, t, v.selected, v, p, queues, true)
    requires k in v.selected && k in v.lost
    ensures var granted := if CanRetry(t[k], p) && !RetryTaken(t, v.selected, v.granted, k) then v.granted + {k}
                           else v.granted;
            var v' := v.(granted := granted, lost := if Refused(t, granted, p, k) then v.lost else v.lost - {k});
            Midway(InsertIgnore(cur, k, CteRow(t[k], p, k)), t, v.selected, v', p, queues, true)
  {
    var granted := if CanRetry(t[k], p) && !RetryTaken(t, v.selected, v.granted, k) then v.granted + {k} else v.granted;
    var v' := v.(granted := granted, lost := if Refused(t, granted, p, k) then v.lost else v.lost - {k});
    if CanRetry(t[k], p) {
      RetryInsertSucceedsIff(cur, t, v.selected, v, p, queues, true, k, CteRow(t[k], p, k));
    } else {
      TerminalInsertSucceeds(cur, t, v.selected, v, p, queues, true, k, CteRow(t[k], p, k));
    }
    if Refused(t, granted, p, k) {
      assert v' == v;
    } else {
      assert CteRow(t[k], p, k) == Fate(t[k], v', p, k, true);
      PlaceRow(cur, t, v, v', p, queues, true, k);
    }
  }

  lemma OfferVerdictStep(t: Table, order: seq<Key>, n: nat, p: Params)
    requires 0 < n <= |order| && Known(t, order) && Distinct(order)
    ensures var k := order[n - 1];
            var v := OfferVerdict(t, order, n - 1, p);
            var granted := if CanRetry(t[k], p) && !RetryTaken(t, v.selected, v.granted, k) then v.granted + {k}
                           else v.granted;
            && k in v.selected && k in v.lost
            && OfferVerdict(t, order, n, p)
               == v.(granted := granted, lost := if Refused(t, granted, p, k) then v.lost else v.lost - {k})
  {
    var k := order[n - 1];
    assert order[..n][..n - 1] == order[..n - 1];
    assert k !in order[..n - 1];
    assert forall j :: j in order[..n] <==> j in order[..n - 1] || j == k;
    var v := OfferVerdict(t, order, n - 1, p);
    var w := OfferVerdict(t, order, n, p);
    assert forall j :: j in order[..n - 1] ==> (Refused(t, v.granted, p, j) <==> Refused(t, w.granted, p, j));
    assert w.lost == if Refused(t, w.granted, p, k) then v.lost else v.lost - {k};
  }

  lemma {:induction false} OfferPrefix(t: Table, order: seq<Key>, n: nat, p: Params, queues: Queues)
    requires Ready(t, Elems(order), order, p, queues) && n <= |order|
    ensures Midway(Offer(Without(t, Elems(order)), t, order[..n], p), t, Elems(order), OfferVerdict(t, order, n, p),
                   p, queues, true)
  {
    if n == 0 {
      assert OfferVerdict(t, order, 0, p).lost == Elems(order);
    } else {
      OfferPrefix(t, order, n - 1, p, queues);
      assert order[..n][..n - 1] == order[..n - 1];
      OfferVerdictStep(t, order, n, p);
      AdvanceOffer(Offer(Without(t, Elems(order)), t, order[..n - 1], p), t, OfferVerdict(t, order, n - 1, p),
                   p, queues, order[n - 1]);
    }
  }

  // What is still lost once the rest of the first n jobs has been inserted.
  ghost function StillLost(lost: set<Key>, order: seq<Key>, n: nat, returned: set<nat>): set<Key>
    requires n <= |order|
  {
    set k | k in lost && (k in order[..n] ==> k.id in returned)
  }

  lemma StillLostStep(lost: set<Key>, order: seq<Key>, n: nat, returned: set<nat>)
    requires 0 < n <= |order| && Distinct(order)
    ensures var k, before := order[n - 1], StillLost(lost, order, n - 1, returned);
            && StillLost(lost, order, n, returned) == (if k.id in returned then before else before - {k})
            && (k in before <==> k in lost)
  {
    var k := order[n - 1];
    assert k !in order[..n - 1];
    assert forall j :: j in order[..n] <==> j in order[..n - 1] || j == k;
  }

  lemma InsertRestTurn(mid: Table, t: Table, v: Verdict, p: Params, queues: Queues, k: Key)
    requires v.copied == {} && Midway(mid, t, v.selected, v, p, queues, true)
    requires k in v.selected && k in v.lost && CanRetry(t[k], p)
    ensures CanInsert(mid, k, FailedRow(t[k], p, k))
    ensures Midway(mid[k := FailedRow(t[k], p, k)], t, v.selected, v.(lost := v.lost - {k}), p, queues, true)
  {
    TerminalInsertSucceeds(mid, t, v.selected, v, p, queues, true, k, FailedRow(t[k], p, k));
    PlaceRow(mid, t, v, v.(lost := v.lost - {k}), p, queues, true, k);
  }

  lemma InsertRestStep(cur: Table, t: Table, order: seq<Key>, n: nat, returned: set<nat>, p: Params)
    requires 0 < n <= |order| && Known(t, order) && InsertRest(cur, t, order[..n - 1], returned, p).Some?
    ensures var k, mid := order[n - 1], InsertRest(cur, t, order[..n - 1], returned, p).value;
            InsertRest(cur, t, order[..n], returned, p) ==
            if k.id in returned then Some(mid)
            else if CanInsert(mid, k, FailedRow(t[k], p, k)) then Some(mid[k := FailedRow(t[k], p, k)]) else None
  {
    assert order[..n][..n - 1] == order[..n - 1];
  }

  lemma {:induction false} InsertRestPrefix(cur: Table, t: Table, order: seq<Key>, n: nat, returned: set<nat>,
                      v: Verdict, p: Params, queues: Queues)
    requires Distinct(order) && Known(t, order) && n <= |order| && v.selected == Elems(order)
    requires v.copied == {} && Midway(cur, t, v.selected, v, p, queues, true)
    requires forall k :: k in order && k.id !in returned ==> k in v.lost && CanRetry(t[k], p)
    ensures var w := v.(lost := StillLost(v.lost, order, n, returned));
            var r := InsertRest(cur, t, order[..n], returned, p);
            r.Some? && Midway(r.value, t, v.selected, w, p, queues, true)
  {
    if n == 0 {
      assert v.lost == StillLost(v.lost, order, 0, returned);
    } else {
      var k := order[n - 1];
      InsertRestPrefix(cur, t, order, n - 1, returned, v, p, queues);
      InsertRestStep(cur, t, order, n, returned, p);
      StillLostStep(v.lost, order, n, returned);
      if k.id !in returned {
        var u := v.(lost := StillLost(v.lost, order, n - 1, returned));
        var mid := InsertRest(cur, t, order[..n - 1], returned, p).value;
        InsertRestTurn(mid, t, u, p, queues, k);
        assert u.(lost := u.lost - {k}) == v.(lost := StillLost(v.lost, order, n, returned));
      }
    }
  }

  lemma DeadStep(t: Table, order: seq<Key>, n: nat, v: Verdict, queues: Queues)
    requires 0 < n <= |order| && Known(t, order) && Distinct(order)
    ensures var k := order[n - 1];
            var before := Dead(t, Elems(order[..n - 1]) - v.granted - v.lost, queues);
            && k !in before
            && Dead(t, Elems(order[..n]) - v.granted - v.lost, queues)
               == if k !in v.granted && k !in v.lost && HasDeadLetter(t[k], queues) then before + {k} else before
  {
    var k := order[n - 1];
    assert k !in order[..n - 1];
    assert Elems(order[..n]) == Elems(order[..n - 1]) + {k};
  }

  lemma {:induction false} CopyDeadPrefix(results: Table, t: Table, order: seq<Key>, n: nat, v: Verdict,
                      p: Params, queues: Queues)
    requires Ready(t, Elems(order), order, p, queues) && n <= |order| && v.selected == Elems(order)
    requires v.copied == {} && Midway(results, t, v.selected, v, p, queues, true)
    ensures Midway(CopyDead(results, t, results, order[..n], p, queues), t, v.selected,
                   v.(copied := Dead(t, Elems(order[..n]) - v.granted - v.lost, queues)), p, queues, true)
  {
    if n == 0 {
      assert Dead(t, Elems(order[..n]) - v.granted - v.lost, queues) == {};
    } else {
      var k := order[n - 1];
      CopyDeadPrefix(results, t, order, n - 1, v, p, queues);
      assert order[..n][..n - 1] == order[..n - 1];
      DeadStep(t, order, n, v, queues);
      CopyDeadTurn(results, CopyDead(results, t, results, order[..n - 1], p, queues), t, order, v,
                   Dead(t, Elems(order[..n - 1]) - v.granted - v.lost, queues), p, queues, k);
    }
  }

  // dlq_jobs copies exactly the jobs that are present and were not granted a retry.
  lemma CopiedWhen(results: Table, t: Table, v: Verdict, p: Params, queues: Queues, k: Key)
    requires Midway(results, t, v.selected, v, p, queues, true) && v.copied == {} && k in v.selected
    ensures (k in results && results[k].state == Failed) <==> (k !in v.granted && k !in v.lost)
  {
    if k !in v.lost {
      assert results[k] == Fate(t[k], v, p, k, true);
    } else {
      assert !IsCopy(t, v.copied, p, k);
    }
  }

  // One turn of dlq_jobs.
  lemma CopyDeadTurn(results: Table, cur: Table, t: Table, order: seq<Key>, v: Verdict, copied: set<Key>,
                     p: Params, queues: Queues, k: Key)
    requires Ready(t, Elems(order), order, p, queues) && k in order && k !in copied
    requires v.selected == Elems(order) && v.copied == {} && copied <= Elems(order)
    requires Midway(results, t, v.selected, v, p, queues, true)
    requires Midway(cur, t, v.selected, v.(copied := copied), p, queues, true)
    ensures var copy := k in results && results[k].state == Failed && HasDeadLetter(t[k], queues);
            && copy == (k !in v.granted && k !in v.lost && HasDeadLetter(t[k], queues))
            && Midway(if copy then cur[DeadLetterKey(t[k], p, k) := CopyOf(t[k], p, k, queues)] else cur, t, v.selected,
                      v.(copied := if copy then copied + {k} else copied), p, queues, true)
  {
    CopiedWhen(results, t, v, p, queues, k);
    if k !in v.granted && k !in v.lost && HasDeadLetter(t[k], queues) {
      var u := v.(copied := copied);
      forall j | j in copied ensures j in order && HasDeadLetter(t[j], queues) && j != k {
        assert j in u.copied;
      }
      assert !IsCopy(t, u.copied, p, DeadLetterKey(t[k], p, k));
      PlaceCopy(cur, t, u, p, queues, true, k);
      assert u.(copied := u.copied + {k}) == v.(copied := copied + {k});
    }
  }

  // The CTE form: it never aborts, and it meets the closed form with the losses named above.
  lemma CteFailMeetsOutcome(t: Table, order: seq<Key>, p: Params, queues: Queues)
    requires Ready(t, Elems(order), order, p, queues)
    ensures var g := Granted(t, Elems(order), order, p);
            var lost := SharedIdLosses(t, order, g, p);
            var r := CteFail(t, order, p, queues);
            && r.Some?
            && Outcome(r.value, t, Verdict(Elems(order), g, lost, Dead(t, Elems(order) - g - lost, queues)),
                       p, queues, true)
  {
    var n := |order|;
    assert order[..n] == order;
    OfferPrefix(t, order, n, p, queues);
    var v := OfferVerdict(t, order, n, p);
    var offered := Offer(Without(t, Elems(order)), t, order, p);
    var returned := set k | k in Elems(order) && k in offered :: k.id;
    OfferedAreReturned(offered, t, order, v, p, queues);
    InsertRestPrefix(offered, t, order, n, returned, v, p, queues);
    var w := v.(lost := StillLost(v.lost, order, n, returned));
    assert w.lost == SharedIdLosses(t, order, v.granted, p);
    CopyDeadPrefix(InsertRest(offered, t, order, returned, p).value, t, order, n, w, p, queues);
  }

  lemma OfferedAreReturned(offered: Table, t: Table, order: seq<Key>, v: Verdict, p: Params, queues: Queues)
    requires Known(t, order) && v == OfferVerdict(t, order, |order|, p)
    requires Midway(offered, t, Elems(order), v, p, queues, true)
    ensures (set k | k in Elems(order) && k in offered :: k.id) == OfferedIds(t, order, v.granted, p)
  {
    assert order[..|order|] == order;
    forall k | k in order
      ensures k in offered <==> !Refused(t, v.granted, p, k)
    {
      assert !IsCopy(t, v.copied, p, k);
      assert k in v.lost <==> Refused(t, v.granted, p, k);
    }
  }

  // ---------- The split entry points ----------

  function NamedRows(t: Table, name: string, ids: set<nat>): set<Key> {
    set k | k in t && k.name == name && k.id in ids
  }

  // fail() selects below completed, but its delete statement has no state predicate.
  function SelectedById(t: Table, name: string, ids: set<nat>): set<Key> {
    set k | k in t && k.name == name && k.id in ids && Before(t[k].state, Completed)
  }

  function IdsOf(ks: set<Key>): set<nat> {
    set k | k in ks :: k.id
  }

  // Expiry deletes by id alone, in the physical table that the queues share.
  function RowsWithIds(t: Table, queues: Queues, table: string, ids: set<nat>): set<Key> {
    set k | k in t && k.id in ids && k.name in queues && queues[k.name].table == table
  }

  function FailSplit(t: Table, name: string, ids: set<nat>, order: seq<Key>, p: Params, queues: Queues): Table
    requires Known(t, order)
  {
    SplitFail(t, NamedRows(t, name, ids), order, p, queues)
  }

  function ExpireSplit(t: Table, table: string, order: seq<Key>, p: Params, queues: Queues): Table
    requires Known(t, order)
  {
    SplitFail(t, RowsWithIds(t, queues, table, IdsOf(Elems(order))), order, p, queues)
  }
}
