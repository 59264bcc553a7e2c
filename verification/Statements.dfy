/**
 The remaining statements on the job table: insert, complete, cancel, resume, retry, touch, update,
 redrive, the retention sweep and the dependency cleanup. Each is a function from the old table to
 the new one; a statement that would break a unique index leaves the table as it was (Commit).
 */
module Statements {
  import opened Outcomes
  import opened JobTable
  import opened Resolution
  import Failing

  type Seconds = n: int | 0 < n witness 1

  // One row of an insert payload. startAfter is already resolved to a point in time.
  datatype Request = Request(
    id: nat,
    data: Option<Json>,
    priority: Option<int>,
    startAfter: real,
    singletonKey: Option<string>,
    singletonSeconds: Option<Seconds>,
    singletonOffset: int,
    groupId: Option<string>,
    groupTier: Option<string>,
    expireInSeconds: Option<int>,
    deleteAfterSeconds: Option<int>,
    retentionSeconds: Option<int>,
    retryLimit: Option<int>,
    retryDelay: Option<int>,
    retryBackoff: Option<bool>,
    retryDelayMax: Option<int>,
    deadLetter: Option<string>,
    heartbeatSeconds: Option<int>,
    blocked: bool,
    blocking: bool,
    pending: nat)

  function Coalesce<T>(a: Option<T>, b: Option<T>): Option<T> {
    if a.Some? then a else b
  }

  // The start of the throttle slot that `now` falls into.
  function ThrottleSlot(seconds: Seconds, offset: int, now: real): real {
    (seconds * ((now + offset as real) / seconds as real).Floor) as real
  }

  function NewRow(q: Queue, r: Request, now: real): Row {
    Row(Terms(r.priority.GetOr(0), r.data,
              r.expireInSeconds.GetOr(q.expireSeconds), r.deleteAfterSeconds.GetOr(q.deletionSeconds),
              r.retryLimit.GetOr(q.retryLimit), r.retryDelay.GetOr(q.retryDelay),
              r.retryBackoff.GetOr(q.retryBackoff), Coalesce(r.retryDelayMax, q.retryDelayMax),
              Coalesce(r.deadLetter, q.deadLetter), Coalesce(r.heartbeatSeconds, q.heartbeatSeconds),
              r.groupId, r.groupTier),
        r.startAfter, r.startAfter + r.retentionSeconds.GetOr(q.retentionSeconds) as real, now,
        r.singletonKey,
        match r.singletonSeconds case None => None case Some(s) => Some(ThrottleSlot(s, r.singletonOffset, now)),
        Some(q.policy), Created, 0, None, None, None, None, None,
        r.blocked, r.blocking, r.pending)
  }

  // insert() drops the flow columns from caller input and send() never sets them.
  function Unlinked(r: Request): Request {
    r.(blocked := false, blocking := false, pending := 0)
  }

  datatype Item = Item(name: string, request: Request)

  function KeyOf(item: Item): Key {
    Key(item.name, item.request.id)
  }

  // Inserts the items one by one with ON CONFLICT DO NOTHING; a missing queue yields no row.
  function Insert(t: Table, items: seq<Item>, queues: Queues, now: real): Table {
    if items == [] then t
    else
      var item := items[|items| - 1];
      var u := Insert(t, items[..|items| - 1], queues, now);
      if item.name in queues then InsertIgnore(u, KeyOf(item), NewRow(queues[item.name], item.request, now)) else u
  }

  // A flow insert is all or nothing: one skipped row aborts the transaction.
  function InsertAll(t: Table, items: seq<Item>, queues: Queues, now: real): Option<Table> {
    if items == [] then Some(t)
    else
      var item := items[|items| - 1];
      match InsertAll(t, items[..|items| - 1], queues, now)
      case None => None
      case Some(u) =>
        if item.name in queues && CanInsert(u, KeyOf(item), NewRow(queues[item.name], item.request, now))
        then Some(u[KeyOf(item) := NewRow(queues[item.name], item.request, now)])
        else None
  }

  predicate Named(k: Key, name: string, ids: set<nat>) {
    k.name == name && k.id in ids
  }

  // complete(): `outputs` holds the ids and the output each one gets.
  predicate Completes(k: Key, r: Row, name: string, outputs: map<nat, Option<Json>>, includeQueued: bool) {
    Named(k, name, outputs.Keys) && if includeQueued then Before(r.state, Completed) else r.state == Active
  }

  function Complete(t: Table, name: string, outputs: map<nat, Option<Json>>, now: real, includeQueued: bool): Table {
    map k | k in t ::
      var r := t[k];
      if Completes(k, r, name, outputs, includeQueued) then
        r.(completedOn := Some(now), state := Completed, output := outputs[k.id],
           blocked := if includeQueued then false else r.blocked,
           pending := if includeQueued then 0 else r.pending)
      else r
  }

  function Cancel(t: Table, name: string, ids: set<nat>, now: real): Table {
    map k | k in t ::
      if Named(k, name, ids) && Before(t[k].state, Completed) then t[k].(completedOn := Some(now), state := Cancelled)
      else t[k]
  }

  function ResumedRows(t: Table, name: string, ids: set<nat>): Table {
    map k | k in t ::
      if Named(k, name, ids) && t[k].state == Cancelled then t[k].(completedOn := None, state := Created) else t[k]
  }

  function Resume(t: Table, name: string, ids: set<nat>): Table {
    Commit(t, ResumedRows(t, name, ids))
  }

  // retry(): back to the queue with one more attempt allowed.
  function RetriedRows(t: Table, name: string, ids: set<nat>): Table {
    map k | k in t ::
      if Named(k, name, ids) && t[k].state == Failed then
        t[k].(state := Retry, completedOn := None, terms := t[k].terms.(retryLimit := t[k].terms.retryLimit + 1))
      else t[k]
  }

  function RetryByHand(t: Table, name: string, ids: set<nat>): Table {
    Commit(t, RetriedRows(t, name, ids))
  }

  function Touch(t: Table, name: string, ids: set<nat>, now: real): Table {
    map k | k in t ::
      if Named(k, name, ids) && t[k].state == Active then t[k].(heartbeatOn := Some(now)) else t[k]
  }

  // The keys that an update payload carries. A nullable column distinguishes absent from null.
  datatype Edit = Edit(
    data: Option<Option<Json>>,
    priority: Option<int>,
    startAfter: Option<real>,
    retentionSeconds: Option<int>,
    expireInSeconds: Option<int>,
    deleteAfterSeconds: Option<int>,
    retryLimit: Option<int>,
    retryDelay: Option<int>,
    retryBackoff: Option<bool>,
    retryDelayMax: Option<Option<int>>,
    deadLetter: Option<Option<string>>,
    heartbeatSeconds: Option<Option<int>>,
    groupId: Option<Option<string>>,
    groupTier: Option<Option<string>>)

  function EditRow(r: Row, e: Edit): Row {
    var start := e.startAfter.GetOr(r.startAfter);
    r.(terms := Terms(e.priority.GetOr(r.terms.priority), e.data.GetOr(r.terms.data),
                      e.expireInSeconds.GetOr(r.terms.expireSeconds),
                      e.deleteAfterSeconds.GetOr(r.terms.deletionSeconds),
                      e.retryLimit.GetOr(r.terms.retryLimit), e.retryDelay.GetOr(r.terms.retryDelay),
                      e.retryBackoff.GetOr(r.terms.retryBackoff), e.retryDelayMax.GetOr(r.terms.retryDelayMax),
                      e.deadLetter.GetOr(r.terms.deadLetter), e.heartbeatSeconds.GetOr(r.terms.heartbeatSeconds),
                      e.groupId.GetOr(r.terms.groupId), e.groupTier.GetOr(r.terms.groupTier)),
       startAfter := start,
       keepUntil := if e.retentionSeconds.Some? then start + e.retentionSeconds.value as real
                    else if e.startAfter.Some? then start + (r.keepUntil - r.startAfter)
                    else r.keepUntil)
  }

  datatype Match = Newest | Oldest | All

  // The target rows, by id or by singleton key; by key, `how` picks among several.
  predicate IsTarget(t: Table, name: string, target: Option<nat>, key: string, k: Key) {
    && k in t && k.name == name && Before(t[k].state, Active)
    && match target case Some(id) => k.id == id case None => t[k].singletonKey == Some(key)
  }

  ghost predicate IsTargets(t: Table, name: string, target: Option<nat>, key: string, how: Match, targets: set<Key>) {
    && (forall k :: k in targets ==> IsTarget(t, name, target, key, k))
    && (target.Some? || how == All ==> forall k :: IsTarget(t, name, target, key, k) ==> k in targets)
    && (target.None? && how != All ==>
          && |targets| <= 1
          && forall k :: IsTarget(t, name, target, key, k) ==>
               exists j :: j in targets
                 && if how == Oldest then t[j].createdOn <= t[k].createdOn else t[k].createdOn <= t[j].createdOn)
  }

  // The UPDATE finds its rows by id alone in the physical table, and re-checks the state.
  function Touched(t: Table, queues: Queues, table: string, targets: set<Key>): set<Key> {
    set k | k in Failing.RowsWithIds(t, queues, table, Failing.IdsOf(targets)) && Before(t[k].state, Active)
  }

  function Update(t: Table, queues: Queues, table: string, targets: set<Key>, e: Edit): Table {
    map k | k in t :: if k in Touched(t, queues, table, targets) then EditRow(t[k], e) else t[k]
  }

  // ---------- Redrive ----------

  function Destination(r: Row, destination: Option<string>): Option<string> {
    if destination.Some? then destination
    else if r.source.Some? then Some(r.source.value.name) else None
  }

  // Orphans, whose destination is unknown or has no queue, are never candidates.
  predicate Redrivable(t: Table, queues: Queues, name: string, destination: Option<string>,
                      sourceName: Option<string>, k: Key) {
    && k in t && k.name == name && Before(t[k].state, Active)
    && Destination(t[k], destination).Some? && Destination(t[k], destination).value in queues
    && (sourceName.Some? ==> t[k].source.Some? && t[k].source.value.name == sourceName.value)
  }

  function RedriveRow(q: Queue, r: Row, now: real): Row {
    Row(Terms(r.terms.priority, r.terms.data, q.expireSeconds, q.deletionSeconds, q.retryLimit, q.retryDelay,
              q.retryBackoff, q.retryDelayMax, None, r.terms.heartbeatSeconds, None, None),
        now, now + q.retentionSeconds as real, now, r.singletonKey, None, Some(q.policy),
        Created, 0, None, None, None, None, None, false, false, 0)
  }

  // Re-creates one job, under a new id, on its destination; a policy conflict drops it.
  function RedriveOne(cur: Table, r: Row, destination: Option<string>, id: nat, queues: Queues, now: real): Table {
    var dest := Destination(r, destination);
    if dest.Some? && dest.value in queues then
      InsertIgnore(cur, Key(dest.value, id), RedriveRow(queues[dest.value], r, now))
    else cur
  }

  function Recreate(cur: Table, was: Table, order: seq<Key>, destination: Option<string>, ids: map<Key, nat>,
                    queues: Queues, now: real): Table
    requires forall k :: k in order ==> k in was
  {
    if order == [] then cur
    else
      var k := order[|order| - 1];
      var u := Recreate(cur, was, order[..|order| - 1], destination, ids, queues, now);
      RedriveOne(u, was[k], destination, Failing.Lookup(ids, k, 0), queues, now)
  }

  // The rows with the id of a candidate in the physical table, in whatever queue.
  function DeletedBy(t: Table, queues: Queues, table: string, order: seq<Key>): set<Key> {
    Failing.RowsWithIds(t, queues, table, Failing.IdsOf(Elems(order)))
  }

  // All rows that go with the candidates, in some order.
  predicate AreAllDeleted(t: Table, queues: Queues, table: string, candidates: seq<Key>, order: seq<Key>) {
    Distinct(order) && Elems(order) == DeletedBy(t, queues, table, candidates)
  }

  lemma AllHaveTheIds(t: Table, queues: Queues, table: string, candidates: seq<Key>, order: seq<Key>)
    requires AreAllDeleted(t, queues, table, candidates, order)
    requires forall k :: k in candidates ==> k in t && k.name in queues && queues[k.name].table == table
    ensures DeletedBy(t, queues, table, order) == DeletedBy(t, queues, table, candidates)
  {
    forall k | k in candidates ensures k in Elems(order) {
      assert k.id in Failing.IdsOf(Elems(candidates));
    }
    assert Failing.IdsOf(Elems(order)) == Failing.IdsOf(Elems(candidates)) by {
      forall id | id in Failing.IdsOf(Elems(candidates)) ensures id in Failing.IdsOf(Elems(order)) {
        var k :| k in Elems(candidates) && k.id == id;
        assert k in Elems(order);
      }
    }
  }

  // The split form re-creates the candidates; the single statement does so with all rows that it deletes, which
  // is the same with those in the place of the candidates.
  function Redrive(t: Table, table: string, order: seq<Key>, destination: Option<string>, ids: map<Key, nat>,
                   queues: Queues, now: real): Table
    requires forall k :: k in order ==> k in t
  {
    if order == [] then t
    else
      var gone := DeletedBy(t, queues, table, order);
      Recreate(Without(t, gone), t, order, destination, ids, queues, now)
  }

  // ---------- Maintenance ----------

  predicate Expired(k: Key, r: Row, names: set<string>, now: real) {
    && k.name in names
    && (|| (r.terms.deletionSeconds > 0 && r.completedOn.Some?
            && r.completedOn.value + r.terms.deletionSeconds as real < now)
        || (Before(r.state, Active) && r.keepUntil < now))
  }

  function Swept(t: Table, names: set<string>, now: real): set<Key> {
    set k | k in t && Expired(k, t[k], names, now)
  }

  // Dependency rows with a missing end, for the queues being maintained.
  function Cleanup(t: Table, deps: set<Dep>, names: set<string>): set<Dep> {
    set d | d in deps && !((d.child.name in names && d.child !in t) || (d.parent.name in names && d.parent !in t))
  }

  // The rows that the supervisor fails: expired attempts and missed heartbeats.
  function TimedOut(t: Table, names: set<string>, now: real): set<Key> {
    set k | k in t && k.name in names && t[k].state == Active && t[k].startedOn.Some?
            && t[k].startedOn.value + t[k].terms.expireSeconds as real < now
  }

  function HeartbeatMissed(t: Table, names: set<string>, now: real): set<Key> {
    set k | k in t && k.name in names && t[k].state == Active
            && t[k].terms.heartbeatSeconds.Some? && t[k].heartbeatOn.Some?
            && t[k].heartbeatOn.value + t[k].terms.heartbeatSeconds.value as real < now
  }
}
