/**
 What a row holds after an insert, an edit or a redrive, column by column, and which rows the maintenance
 statements find. Told from what was asked for, without the functions that compute the rows.
 */
module Settings {
  import opened Outcomes
  import opened JobTable
  import opened Resolution
  import opened Statements
  import Failing

  // What was asked for, or what there is otherwise.
  predicate Chosen<T(==)>(asked: Option<T>, otherwise: T, got: T) {
    match asked
    case None => got == otherwise
    case Some(value) => got == value
  }

  // For a nullable column.
  predicate ChosenOrNull<T(==)>(asked: Option<T>, otherwise: Option<T>, got: Option<T>) {
    match asked
    case None => got == otherwise
    case Some(value) => got == Some(value)
  }

  // ---------- Inserting ----------

  // A throttle slot: the multiple of `seconds` at or before the given time.
  ghost predicate IsSlot(slot: real, seconds: int, at: real)
    requires seconds > 0
  {
    slot <= at < slot + seconds as real && exists n: int :: slot == (seconds * n) as real
  }

  lemma ThrottleSlotIs(seconds: Seconds, offset: int, now: real)
    ensures IsSlot(ThrottleSlot(seconds, offset, now), seconds, now + offset as real)
  {
    var at, width := now + offset as real, seconds as real;
    var n := (at / width).Floor;
    Rounding(at, width, n);
    assert (seconds * n) as real == width * n as real;
    assert ThrottleSlot(seconds, offset, now) == (seconds * n) as real;
  }

  lemma Rounding(at: real, width: real, n: int)
    requires width > 0.0 && n as real <= at / width < n as real + 1.0
    ensures width * n as real <= at < width * n as real + width
  {
    var f := at / width - n as real;
    assert width * f < width by { Scales(width, f); }
    assert at == width * (at / width);
    assert at == width * n as real + width * f;
  }

  lemma Scales(width: real, f: real)
    requires width > 0.0 && 0.0 <= f < 1.0
    ensures 0.0 <= width * f < width
  {
  }

  // The columns of a new row: what the request says, and the settings of the queue where it says nothing.
  ghost predicate IsAsAsked(s: Row, q: Queue, r: Request, now: real) {
    && s.terms.data == r.data && Chosen(r.priority, 0, s.terms.priority)
    && s.startAfter == r.startAfter && s.createdOn == now
    && s.singletonKey == r.singletonKey && s.terms.groupId == r.groupId && s.terms.groupTier == r.groupTier
    && (r.retentionSeconds.None? ==> s.keepUntil == r.startAfter + q.retentionSeconds as real)
    && (r.retentionSeconds.Some? ==> s.keepUntil == r.startAfter + r.retentionSeconds.value as real)
    && Chosen(r.expireInSeconds, q.expireSeconds, s.terms.expireSeconds)
    && Chosen(r.deleteAfterSeconds, q.deletionSeconds, s.terms.deletionSeconds)
    && Chosen(r.retryLimit, q.retryLimit, s.terms.retryLimit)
    && Chosen(r.retryDelay, q.retryDelay, s.terms.retryDelay)
    && Chosen(r.retryBackoff, q.retryBackoff, s.terms.retryBackoff)
    && ChosenOrNull(r.retryDelayMax, q.retryDelayMax, s.terms.retryDelayMax)
    && ChosenOrNull(r.deadLetter, q.deadLetter, s.terms.deadLetter)
    && ChosenOrNull(r.heartbeatSeconds, q.heartbeatSeconds, s.terms.heartbeatSeconds)
    && s.policy == Some(q.policy) && s.source.None? && s.output.None?
    && s.state == Created && s.retryCount == 0 && s.startedOn.None? && s.completedOn.None? && s.heartbeatOn.None?
    && (r.singletonSeconds.None? ==> s.singletonOn.None?)
    && (r.singletonSeconds.Some? ==>
          s.singletonOn.Some? && IsSlot(s.singletonOn.value, r.singletonSeconds.value, now + r.singletonOffset as real))
  }

  lemma NewRowIsAsAsked(q: Queue, r: Request, now: real)
    ensures IsAsAsked(NewRow(q, r, now), q, r, now)
    ensures var s := NewRow(q, r, now);
            s.blocked == r.blocked && s.blocking == r.blocking && s.pending == r.pending
  {
    if r.singletonSeconds.Some? {
      ThrottleSlotIs(r.singletonSeconds.value, r.singletonOffset, now);
    }
  }

  // Rows that were not in the table hold what one of the items asked for.
  lemma {:induction false} InsertedIsAsAsked(t: Table, items: seq<Item>, queues: Queues, now: real, k: Key)
    requires k in Insert(t, items, queues, now) && k !in t
    ensures exists i :: 0 <= i < |items| && Key(items[i].name, items[i].request.id) == k && items[i].name in queues
                        && Insert(t, items, queues, now)[k] == NewRow(queues[items[i].name], items[i].request, now)
  {
    if items != [] {
      var n := |items| - 1;
      var u := Insert(t, items[..n], queues, now);
      if k in u {
        InsertedIsAsAsked(t, items[..n], queues, now, k);
        var i :| 0 <= i < n && Key(items[..n][i].name, items[..n][i].request.id) == k && items[..n][i].name in queues
                 && u[k] == NewRow(queues[items[..n][i].name], items[..n][i].request, now);
        assert items[i] == items[..n][i];
      } else {
        assert Key(items[n].name, items[n].request.id) == k;
      }
    }
  }

  lemma {:induction false} OthersDoNotInsert(t: Table, items: seq<Item>, queues: Queues, now: real, k: Key)
    requires k !in t && forall j :: 0 <= j < |items| ==> Key(items[j].name, items[j].request.id) != k
    ensures k !in Insert(t, items, queues, now)
  {
    if items != [] {
      OthersDoNotInsert(t, items[..|items| - 1], queues, now, k);
    }
  }

  // Of the items of a batch that exclude each other the first one goes in: whether an item does is decided by the
  // table that the items before it leave.
  lemma {:induction false} EarlierComesFirst(t: Table, items: seq<Item>, queues: Queues, now: real, i: nat)
    requires i < |items| && items[i].name in queues && Key(items[i].name, items[i].request.id) !in t
    requires forall j :: 0 <= j < |items| && j != i ==>
               items[j].name != items[i].name || items[j].request.id != items[i].request.id
    ensures Key(items[i].name, items[i].request.id) in Insert(t, items, queues, now)
            <==> CanInsert(Insert(t, items[..i], queues, now), Key(items[i].name, items[i].request.id),
                           NewRow(queues[items[i].name], items[i].request, now))
  {
    var n := |items| - 1;
    var k := Key(items[i].name, items[i].request.id);
    assert forall j :: 0 <= j < i ==> items[..i][j] == items[j];
    OthersDoNotInsert(t, items[..i], queues, now, k);
    if i < n {
      EarlierComesFirst(t, items[..n], queues, now, i);
      assert items[..n][..i] == items[..i] && KeyOf(items[n]) != k;
    }
  }

  lemma {:induction false} AllInsertedAreAsAsked(t: Table, items: seq<Item>, queues: Queues, now: real, i: nat)
    requires InsertAll(t, items, queues, now).Some? && i < |items|
    ensures var k, u := Key(items[i].name, items[i].request.id), InsertAll(t, items, queues, now).value;
            k in u && items[i].name in queues && u[k] == NewRow(queues[items[i].name], items[i].request, now)
  {
    var n := |items| - 1;
    if i < n {
      AllInsertedAreAsAsked(t, items[..n], queues, now, i);
      assert items[..n][i] == items[i];
    }
  }

  lemma {:induction false} InsertLeavesRows(t: Table, items: seq<Item>, queues: Queues, now: real)
    ensures forall k :: k in t ==>
              k in Insert(t, items, queues, now) && Insert(t, items, queues, now)[k] == t[k]
  {
    if items != [] {
      InsertLeavesRows(t, items[..|items| - 1], queues, now);
    }
  }

  lemma {:induction false} InsertAllAddsAll(t: Table, items: seq<Item>, queues: Queues, now: real)
    requires InsertAll(t, items, queues, now).Some?
    ensures var u := InsertAll(t, items, queues, now).value;
            |u| == |t| + |items| && forall k :: k in t ==> k in u && u[k] == t[k]
  {
    if items != [] {
      InsertAllAddsAll(t, items[..|items| - 1], queues, now);
    }
  }

  predicate IsKeyOf(items: seq<Item>, k: Key) {
    exists i :: 0 <= i < |items| && Key(items[i].name, items[i].request.id) == k
  }

  predicate IsRowOf(t: Table, u: Table, item: Item, queues: Queues, now: real) {
    var k := Key(item.name, item.request.id);
    k !in t && item.name in queues && k in u && u[k] == NewRow(queues[item.name], item.request, now)
  }

  // The table t with a row for each item, all under different new keys.
  ghost predicate HoldsAll(t: Table, u: Table, items: seq<Item>, queues: Queues, now: real) {
    && (forall i, j :: 0 <= i < j < |items| ==>
          items[i].name != items[j].name || items[i].request.id != items[j].request.id)
    && (forall k :: k in t ==> k in u && u[k] == t[k])
    && (forall k :: k in u ==> k in t || IsKeyOf(items, k))
    && (forall i :: 0 <= i < |items| ==> IsRowOf(t, u, items[i], queues, now))
  }

  lemma RowStaysWith(t: Table, u: Table, item: Item, queues: Queues, now: real, k: Key, row: Row)
    requires IsRowOf(t, u, item, queues, now) && k !in u
    ensures IsRowOf(t, u[k := row], item, queues, now) && Key(item.name, item.request.id) != k
  {
  }

  lemma KeyOfMore(items: seq<Item>, item: Item, k: Key)
    requires IsKeyOf(items, k) || k == Key(item.name, item.request.id)
    ensures IsKeyOf(items + [item], k)
  {
    if IsKeyOf(items, k) {
      var i :| 0 <= i < |items| && Key(items[i].name, items[i].request.id) == k;
      assert (items + [item])[i] == items[i];
    } else {
      assert (items + [item])[|items|] == item;
    }
  }

  lemma HoldsOneMore(t: Table, u: Table, items: seq<Item>, item: Item, queues: Queues, now: real)
    requires HoldsAll(t, u, items, queues, now) && item.name in queues && Key(item.name, item.request.id) !in u
    ensures HoldsAll(t, u[Key(item.name, item.request.id) := NewRow(queues[item.name], item.request, now)],
                     items + [item], queues, now)
  {
    var k := Key(item.name, item.request.id);
    var row := NewRow(queues[item.name], item.request, now);
    var u', all := u[k := row], items + [item];
    forall i | 0 <= i < |all|
      ensures IsRowOf(t, u', all[i], queues, now)
      ensures i < |items| ==> Key(all[i].name, all[i].request.id) != k
    {
      if i < |items| {
        RowStaysWith(t, u, items[i], queues, now, k, row);
      }
    }
    forall j | j in u' ensures j in t || IsKeyOf(all, j) {
      if j !in t {
        KeyOfMore(items, item, j);
      }
    }
  }

  lemma RowStaysWithout(t: Table, u: Table, item: Item, queues: Queues, now: real, k: Key)
    requires IsRowOf(t, u, item, queues, now) && Key(item.name, item.request.id) != k
    ensures IsRowOf(t, Without(u, {k}), item, queues, now)
  {
  }

  lemma KeyOfTheOthers(items: seq<Item>, j: Key, k: Key)
    requires items != [] && IsKeyOf(items, j) && j != k
    requires k == Key(items[|items| - 1].name, items[|items| - 1].request.id)
    ensures IsKeyOf(items[..|items| - 1], j)
  {
    var i :| 0 <= i < |items| && Key(items[i].name, items[i].request.id) == j;
    assert items[..|items| - 1][i] == items[i];
  }

  lemma HoldsOneLess(t: Table, u: Table, items: seq<Item>, queues: Queues, now: real)
    requires HoldsAll(t, u, items, queues, now) && items != []
    ensures var n := |items| - 1; var k := Key(items[n].name, items[n].request.id);
            IsRowOf(t, u, items[n], queues, now) && HoldsAll(t, Without(u, {k}), items[..n], queues, now)
  {
    var n := |items| - 1;
    var k := Key(items[n].name, items[n].request.id);
    var v, front := Without(u, {k}), items[..n];
    assert IsRowOf(t, u, items[n], queues, now);
    forall i | 0 <= i < n ensures IsRowOf(t, v, front[i], queues, now) {
      assert IsRowOf(t, u, items[i], queues, now);
      RowStaysWithout(t, u, items[i], queues, now, k);
    }
    forall j | j in v ensures j in t || IsKeyOf(front, j) {
      if j !in t {
        KeyOfTheOthers(items, j, k);
      }
    }
  }

  lemma {:induction false} InsertAllHoldsAll(t: Table, items: seq<Item>, queues: Queues, now: real)
    requires Unique(t) && InsertAll(t, items, queues, now).Some?
    ensures var u := InsertAll(t, items, queues, now).value; Unique(u) && HoldsAll(t, u, items, queues, now)
  {
    if items != [] {
      var n := |items| - 1;
      InsertAllHoldsAll(t, items[..n], queues, now);
      var u := InsertAll(t, items[..n], queues, now).value;
      HoldsOneMore(t, u, items[..n], items[n], queues, now);
      CanInsertIff(u, KeyOf(items[n]), NewRow(queues[items[n].name], items[n].request, now));
      assert items[..n] + [items[n]] == items;
    }
  }

  lemma RowGoesBack(t: Table, u: Table, item: Item, queues: Queues, now: real)
    requires Unique(u) && IsRowOf(t, u, item, queues, now)
    ensures var k, v := KeyOf(item), Without(u, {KeyOf(item)});
            && Unique(v) && u == v[k := u[k]] && CanInsert(v, k, NewRow(queues[item.name], item.request, now))
  {
    var k := KeyOf(item);
    NarrowingKeepsUnique(u, Without(u, {k}));
    assert u == Without(u, {k})[k := u[k]];
    CanInsertIff(Without(u, {k}), k, u[k]);
  }

  lemma {:induction false} WhatHoldsAllIsInserted(t: Table, u: Table, items: seq<Item>, queues: Queues, now: real)
    requires Unique(u) && HoldsAll(t, u, items, queues, now)
    ensures InsertAll(t, items, queues, now) == Some(u)
  {
    if items == [] {
      assert t == u;
    } else {
      var n := |items| - 1;
      assert IsRowOf(t, u, items[n], queues, now) && HoldsAll(t, Without(u, {KeyOf(items[n])}), items[..n], queues, now)
        by { HoldsOneLess(t, u, items, queues, now); }
      RowGoesBack(t, u, items[n], queues, now);
      WhatHoldsAllIsInserted(t, Without(u, {KeyOf(items[n])}), items[..n], queues, now);
    }
  }

  // A payload goes in as a whole exactly if the table with all of its rows keeps the indexes.
  lemma InsertAllIff(t: Table, items: seq<Item>, queues: Queues, now: real)
    requires Unique(t)
    ensures InsertAll(t, items, queues, now).Some? <==> exists u :: Unique(u) && HoldsAll(t, u, items, queues, now)
  {
    if InsertAll(t, items, queues, now).Some? {
      InsertAllHoldsAll(t, items, queues, now);
    }
    if u :| Unique(u) && HoldsAll(t, u, items, queues, now) {
      WhatHoldsAllIsInserted(t, u, items, queues, now);
    }
  }

  // ---------- Editing ----------

  // The columns of an edited row: what the payload carries, and else what was there. Moving the start moves the
  // retention along, unless the payload carries one.
  ghost predicate IsEditedAsAsked(r: Row, s: Row, e: Edit) {
    && Chosen(e.data, r.terms.data, s.terms.data) && Chosen(e.priority, r.terms.priority, s.terms.priority)
    && Chosen(e.startAfter, r.startAfter, s.startAfter)
    && (e.retentionSeconds.Some? ==> s.keepUntil == s.startAfter + e.retentionSeconds.value as real)
    && (e.retentionSeconds.None? ==> s.keepUntil - s.startAfter == r.keepUntil - r.startAfter)
    && Chosen(e.expireInSeconds, r.terms.expireSeconds, s.terms.expireSeconds)
    && Chosen(e.deleteAfterSeconds, r.terms.deletionSeconds, s.terms.deletionSeconds)
    && Chosen(e.retryLimit, r.terms.retryLimit, s.terms.retryLimit)
    && Chosen(e.retryDelay, r.terms.retryDelay, s.terms.retryDelay)
    && Chosen(e.retryBackoff, r.terms.retryBackoff, s.terms.retryBackoff)
    && Chosen(e.retryDelayMax, r.terms.retryDelayMax, s.terms.retryDelayMax)
    && Chosen(e.deadLetter, r.terms.deadLetter, s.terms.deadLetter)
    && Chosen(e.heartbeatSeconds, r.terms.heartbeatSeconds, s.terms.heartbeatSeconds)
    && Chosen(e.groupId, r.terms.groupId, s.terms.groupId) && Chosen(e.groupTier, r.terms.groupTier, s.terms.groupTier)
    && s == r.(terms := s.terms, startAfter := s.startAfter, keepUntil := s.keepUntil)
  }

  lemma EditRowIsAsAsked(r: Row, e: Edit)
    ensures IsEditedAsAsked(r, EditRow(r, e), e)
  {
  }

  // The queued jobs that an update may pick from: the one with the id, or those with the singleton key.
  predicate IsMeant(t: Table, name: string, target: Option<nat>, key: string, k: Key) {
    && k in t && k.name == name && (t[k].state == Created || t[k].state == Retry)
    && (target.Some? ==> k.id == target.value)
    && (target.None? ==> t[k].singletonKey == Some(key))
  }

  // By id, or with `all`, every job meant; otherwise one of the newest or of the oldest.
  ghost predicate ArePicked(t: Table, name: string, target: Option<nat>, key: string, how: Match, picked: set<Key>) {
    && (forall k :: k in picked ==> IsMeant(t, name, target, key, k))
    && (target.Some? || how == All ==> forall k :: IsMeant(t, name, target, key, k) ==> k in picked)
    && (target.None? && how != All ==> |picked| <= 1)
    && (target.None? && how == Newest ==>
          forall k :: IsMeant(t, name, target, key, k) ==> exists j :: j in picked && t[j].createdOn >= t[k].createdOn)
    && (target.None? && how == Oldest ==>
          forall k :: IsMeant(t, name, target, key, k) ==> exists j :: j in picked && t[j].createdOn <= t[k].createdOn)
  }

  lemma OneIsPickedIff(t: Table, how: Match, targets: set<Key>, k: Key)
    requires targets <= t.Keys && k in t && how != All
    ensures (exists j :: j in targets
               && if how == Oldest then t[j].createdOn <= t[k].createdOn else t[k].createdOn <= t[j].createdOn)
            <==> && (how == Newest ==> exists j :: j in targets && t[j].createdOn >= t[k].createdOn)
                 && (how == Oldest ==> exists j :: j in targets && t[j].createdOn <= t[k].createdOn)
  {
  }

  lemma TargetsArePicked(t: Table, name: string, target: Option<nat>, key: string, how: Match, targets: set<Key>)
    ensures IsTargets(t, name, target, key, how, targets) <==> ArePicked(t, name, target, key, how, targets)
  {
    forall k ensures IsTarget(t, name, target, key, k) <==> IsMeant(t, name, target, key, k) {
    }
    if target.None? && how != All && forall k :: k in targets ==> k in t {
      forall k | IsTarget(t, name, target, key, k)
        ensures (exists j :: j in targets
                   && if how == Oldest then t[j].createdOn <= t[k].createdOn else t[k].createdOn <= t[j].createdOn)
                <==> && (how == Newest ==> exists j :: j in targets && t[j].createdOn >= t[k].createdOn)
                     && (how == Oldest ==> exists j :: j in targets && t[j].createdOn <= t[k].createdOn)
      {
        OneIsPickedIff(t, how, targets, k);
      }
    }
  }

  // The queued rows of the physical table with the id of a target.
  lemma TouchedAre(t: Table, queues: Queues, table: string, targets: set<Key>, k: Key)
    ensures k in Touched(t, queues, table, targets)
            <==> && k in t && (t[k].state == Created || t[k].state == Retry)
                 && k.name in queues && queues[k.name].table == table
                 && exists j :: j in targets && j.id == k.id
  {
  }

  // ---------- Redriving ----------

  // Where a dead-letter job goes: to the queue asked for, else to the one it came from.
  predicate GoesTo(r: Row, destination: Option<string>, queue: string) {
    if destination.Some? then destination.value == queue
    else r.source.Some? && r.source.value.name == queue
  }

  // The columns of a redriven row: data, priority, key and heartbeat come along, all else is new.
  ghost predicate IsRedrivenAs(r: Row, s: Row, q: Queue, now: real) {
    && s.terms.data == r.terms.data && s.terms.priority == r.terms.priority && s.singletonKey == r.singletonKey
    && s.terms.heartbeatSeconds == r.terms.heartbeatSeconds
    && s.createdOn == s.startAfter == now && s.keepUntil == now + q.retentionSeconds as real
    && s.terms.expireSeconds == q.expireSeconds && s.terms.deletionSeconds == q.deletionSeconds
    && s.terms.retryLimit == q.retryLimit && s.terms.retryDelay == q.retryDelay
    && s.terms.retryBackoff == q.retryBackoff && s.terms.retryDelayMax == q.retryDelayMax
    && s.terms.deadLetter.None? && s.terms.groupId.None? && s.terms.groupTier.None?
    && s.policy == Some(q.policy) && s.source.None? && s.output.None? && s.singletonOn.None?
    && s.state == Created && s.retryCount == 0 && s.startedOn.None? && s.completedOn.None? && s.heartbeatOn.None?
    && !s.blocked && !s.blocking && s.pending == 0
  }

  lemma RedriveRowIs(q: Queue, r: Row, now: real)
    ensures IsRedrivenAs(r, RedriveRow(q, r, now), q, now)
  {
  }

  // A queued job of the dead-letter queue with a destination that exists, and from the source asked for if any.
  predicate IsRedrivable(t: Table, queues: Queues, name: string, destination: Option<string>,
                         sourceName: Option<string>, k: Key) {
    && k in t && k.name == name && (t[k].state == Created || t[k].state == Retry)
    && (exists queue :: queue in queues && GoesTo(t[k], destination, queue))
    && (sourceName.Some? ==> t[k].source.Some? && t[k].source.value.name == sourceName.value)
  }

  lemma RedrivableIs(t: Table, queues: Queues, name: string, destination: Option<string>, sourceName: Option<string>,
                     k: Key)
    ensures Redrivable(t, queues, name, destination, sourceName, k)
            <==> IsRedrivable(t, queues, name, destination, sourceName, k)
  {
  }

  // Every new row is that of a job in the order, at its destination.
  ghost predicate CameFrom(t: Table, order: seq<Key>, destination: Option<string>, ids: map<Key, nat>,
                           queues: Queues, now: real, k: Key, s: Row) {
    exists j :: j in order && j in t && GoesTo(t[j], destination, k.name) && k.name in queues
                && k.id == (if j in ids then ids[j] else 0) && IsRedrivenAs(t[j], s, queues[k.name], now)
  }

  lemma {:induction false} RecreatedCameFrom(cur: Table, t: Table, order: seq<Key>, destination: Option<string>,
                                             ids: map<Key, nat>, queues: Queues, now: real, k: Key)
    requires forall j :: j in order ==> j in t
    requires var u := Recreate(cur, t, order, destination, ids, queues, now); k in u && k !in cur
    ensures CameFrom(t, order, destination, ids, queues, now, k,
                     Recreate(cur, t, order, destination, ids, queues, now)[k])
  {
    if order != [] {
      var n := |order| - 1;
      var u := Recreate(cur, t, order[..n], destination, ids, queues, now);
      if k in u {
        RecreatedCameFrom(cur, t, order[..n], destination, ids, queues, now, k);
      } else {
        assert order[n] in order && GoesTo(t[order[n]], destination, k.name);
        RedriveRowIs(queues[k.name], t[order[n]], now);
      }
    }
  }

  lemma RedrivenCameFrom(t: Table, table: string, order: seq<Key>, destination: Option<string>, ids: map<Key, nat>,
                         queues: Queues, now: real, k: Key)
    requires forall j :: j in order ==> j in t
    requires k in Redrive(t, table, order, destination, ids, queues, now) && k !in t
    ensures CameFrom(t, order, destination, ids, queues, now, k,
                     Redrive(t, table, order, destination, ids, queues, now)[k])
  {
    if order != [] {
      RecreatedCameFrom(Without(t, DeletedBy(t, queues, table, order)), t, order, destination, ids, queues, now, k);
    }
  }

  // ---------- Maintenance ----------

  // Due: a job of the queues that finished so long ago, or that nobody took in time.
  predicate IsDue(k: Key, r: Row, names: set<string>, now: real) {
    && k.name in names
    && (|| (r.completedOn.Some? && r.terms.deletionSeconds > 0
            && now > r.completedOn.value + r.terms.deletionSeconds as real)
        || ((r.state == Created || r.state == Retry) && now > r.keepUntil))
  }

  lemma SweptIffDue(t: Table, names: set<string>, now: real, k: Key)
    requires k in t
    ensures k in Swept(t, names, now) <==> IsDue(k, t[k], names, now)
  {
  }

  lemma CleanupKeepsIff(t: Table, deps: set<Dep>, names: set<string>, d: Dep)
    ensures d in Cleanup(t, deps, names)
            <==> d in deps && (d.child.name in names ==> d.child in t) && (d.parent.name in names ==> d.parent in t)
  {
  }

  // Late: running for longer than allowed, or silent for too long.
  predicate IsLate(t: Table, names: set<string>, now: real, byHeartbeat: bool, k: Key) {
    && k in t && k.name in names && t[k].state == Active
    && if byHeartbeat
       then t[k].heartbeatOn.Some? && t[k].terms.heartbeatSeconds.Some?
            && now > t[k].heartbeatOn.value + t[k].terms.heartbeatSeconds.value as real
       else t[k].startedOn.Some? && now > t[k].startedOn.value + t[k].terms.expireSeconds as real
  }

  lemma LateIff(t: Table, names: set<string>, now: real, k: Key)
    ensures k in TimedOut(t, names, now) <==> IsLate(t, names, now, false, k)
    ensures k in HeartbeatMissed(t, names, now) <==> IsLate(t, names, now, true, k)
  {
  }
}
