/**
 How the statements act one after the other: what undoes what, what happens once, and which of two
 competing statements wins.
 */
module Laws {
  import opened Outcomes
  import opened JobTable
  import opened Statements
  import opened Lifecycle
  import Fetching

  // ---------- Finishing ----------

  // Completing again, at whatever time and with whatever output, changes nothing.
  lemma CompleteTwice(t: Table, name: string, first: map<nat, Option<Json>>, second: map<nat, Option<Json>>,
                      now: real, later: real, includeQueued: bool)
    requires second.Keys <= first.Keys
    ensures Complete(Complete(t, name, first, now, includeQueued), name, second, later, includeQueued)
            == Complete(t, name, first, now, includeQueued)
  {
    var u := Complete(t, name, first, now, includeQueued);
    forall k | k in u ensures !Completes(k, u[k], name, second, includeQueued) {
      assert k in t;
    }
  }

  // Of complete and cancel the first one wins.
  lemma CancelledIsNotCompleted(t: Table, name: string, ids: set<nat>, outputs: map<nat, Option<Json>>,
                                now: real, later: real, includeQueued: bool)
    requires outputs.Keys <= ids
    ensures Complete(Cancel(t, name, ids, now), name, outputs, later, includeQueued) == Cancel(t, name, ids, now)
  {
    var u := Cancel(t, name, ids, now);
    forall k | k in u ensures !Completes(k, u[k], name, outputs, includeQueued) {
      assert k in t;
    }
  }

  // A completed job is out of reach of cancel; with includeQueued, every named job is.
  lemma CompletedIsNotCancelled(t: Table, name: string, outputs: map<nat, Option<Json>>, ids: set<nat>,
                                now: real, later: real, includeQueued: bool)
    ensures var u := Complete(t, name, outputs, now, includeQueued);
            && (forall k :: k in t && Completes(k, t[k], name, outputs, includeQueued) ==>
                  k in u && Cancel(u, name, ids, later)[k] == u[k])
            && (includeQueued && ids <= outputs.Keys ==> Cancel(u, name, ids, later) == u)
  {
    var u := Complete(t, name, outputs, now, includeQueued);
    if includeQueued && ids <= outputs.Keys {
      forall k | k in u ensures !(Named(k, name, ids) && Before(u[k].state, Completed)) {
        assert k in t;
      }
    }
  }

  // ---------- Cancel and resume ----------

  // No named job is in one of the states.
  predicate NoneIs(t: Table, name: string, ids: set<nat>, states: set<JobState>) {
    forall k :: k in t && Named(k, name, ids) ==> t[k].state !in states
  }

  lemma CancelledRow(t: Table, name: string, ids: set<nat>, now: real, k: Key)
    requires k in t
    ensures var u := Cancel(t, name, ids, now);
            k in u && u[k] == if Named(k, name, ids) && Before(t[k].state, Completed)
                              then t[k].(completedOn := Some(now), state := Cancelled) else t[k]
  {
  }

  // Without a job that had left `created`, every cancelled row comes back as it was.
  lemma CreatedJobsComeBack(t: Table, name: string, ids: set<nat>, now: real)
    requires forall k :: k in t ==> RowInv(t[k])
    requires NoneIs(t, name, ids, {Retry, Active, Cancelled})
    ensures ResumedRows(Cancel(t, name, ids, now), name, ids) == t
  {
    var back := ResumedRows(Cancel(t, name, ids, now), name, ids);
    forall k | k in t ensures k in back && back[k] == t[k] {
      CancelledRow(t, name, ids, now, k);
      assert RowInv(t[k]);
    }
  }

  // Otherwise some named row differs after a resume that goes through.
  lemma OthersComeBackChanged(t: Table, name: string, ids: set<nat>, now: real, k: Key)
    requires k in t && Named(k, name, ids) && t[k].state in {Retry, Active, Cancelled}
    ensures ResumedRows(Cancel(t, name, ids, now), name, ids) != t
  {
    var back := ResumedRows(Cancel(t, name, ids, now), name, ids);
    CancelledRow(t, name, ids, now, k);
    assert k in back && back[k].state == Created;
  }

  lemma CancelIsIdleIff(t: Table, name: string, ids: set<nat>, now: real)
    ensures Cancel(t, name, ids, now) == t <==> NoneIs(t, name, ids, {Created, Retry, Active})
  {
    var u := Cancel(t, name, ids, now);
    forall k | k in t ensures k in u && (u[k] == t[k] <==> !(Named(k, name, ids) && Before(t[k].state, Completed))) {
      CancelledRow(t, name, ids, now, k);
    }
  }

  // Resume undoes cancel exactly if no named job had left `created` or was cancelled before, or if cancel found
  // nothing to do and an index keeps the jobs cancelled before from coming back.
  lemma ResumeUndoesCancelIff(t: Table, name: string, ids: set<nat>, now: real)
    requires Unique(t) && forall k :: k in t ==> RowInv(t[k])
    ensures Resume(Cancel(t, name, ids, now), name, ids) == t
            <==> || NoneIs(t, name, ids, {Retry, Active, Cancelled})
                 || (NoneIs(t, name, ids, {Created, Retry, Active}) && !Unique(ResumedRows(t, name, ids)))
  {
    var back := ResumedRows(Cancel(t, name, ids, now), name, ids);
    CancelIsIdleIff(t, name, ids, now);
    if NoneIs(t, name, ids, {Retry, Active, Cancelled}) {
      CreatedJobsComeBack(t, name, ids, now);
    } else {
      var k :| k in t && Named(k, name, ids) && t[k].state in {Retry, Active, Cancelled};
      OthersComeBackChanged(t, name, ids, now, k);
      assert Resume(Cancel(t, name, ids, now), name, ids) == if Unique(back) then back else Cancel(t, name, ids, now);
    }
  }

  // ---------- Inserting ----------

  // What was offered once is in the table or in conflict with it.
  lemma {:induction false} OfferedOnce(t: Table, items: seq<Item>, queues: Queues, now: real, i: nat)
    requires i < |items| && items[i].name in queues
    ensures !CanInsert(Insert(t, items, queues, now), KeyOf(items[i]),
                       NewRow(queues[items[i].name], items[i].request, now))
  {
    if i < |items| - 1 {
      OfferedOnce(t, items[..|items| - 1], queues, now, i);
    }
  }

  lemma {:induction false} NothingToInsert(u: Table, items: seq<Item>, queues: Queues, now: real)
    requires forall i :: 0 <= i < |items| && items[i].name in queues
                         ==> !CanInsert(u, KeyOf(items[i]), NewRow(queues[items[i].name], items[i].request, now))
    ensures Insert(u, items, queues, now) == u
  {
    if items != [] {
      NothingToInsert(u, items[..|items| - 1], queues, now);
    }
  }

  // Sending a batch again changes nothing, whichever of its rows were skipped the first time.
  lemma InsertTwice(t: Table, items: seq<Item>, queues: Queues, now: real)
    ensures Insert(Insert(t, items, queues, now), items, queues, now) == Insert(t, items, queues, now)
  {
    forall i | 0 <= i < |items| && items[i].name in queues
      ensures !CanInsert(Insert(t, items, queues, now), KeyOf(items[i]),
                         NewRow(queues[items[i].name], items[i].request, now))
    {
      OfferedOnce(t, items, queues, now, i);
    }
    NothingToInsert(Insert(t, items, queues, now), items, queues, now);
  }

  // ---------- Claiming ----------

  // A claimed job is not a candidate of any later fetch while it stays claimed.
  lemma ClaimedIsNoCandidate(t: Table, claimed: set<Key>, name: string, o: Fetching.Options, now: real, later: real)
    requires claimed <= t.Keys
    ensures Fetching.Candidates(Fetching.ClaimRows(t, claimed, now), name, o, later) !! claimed
  {
    var u := Fetching.ClaimRows(t, claimed, now);
    forall k | k in claimed ensures k !in Fetching.Candidates(u, name, o, later) {
      assert u[k].state == Active;
    }
  }

  // Two fetches in a row never claim the same job.
  lemma FetchesAreDisjoint(t: Table, name: string, policy: Policy, o: Fetching.Options, now: real, source: set<Key>,
                           other: Fetching.Options, later: real, again: set<Key>)
    requires Fetching.IsSource(t, name, policy, o, now, source) && source <= t.Keys
    requires var u := Fetching.ClaimRows(t, Fetching.Claimed(t, name, o, source), now);
             Fetching.IsSource(u, name, policy, other, later, again) && again <= u.Keys
    ensures var u := Fetching.ClaimRows(t, Fetching.Claimed(t, name, o, source), now);
            Fetching.Claimed(t, name, o, source) !! Fetching.Claimed(u, name, other, again)
  {
    var claimed := Fetching.Claimed(t, name, o, source);
    var u := Fetching.ClaimRows(t, claimed, now);
    Fetching.SourceIsCandidates(u, name, policy, other, later, again);
    ClaimedIsNoCandidate(t, claimed, name, other, now, later);
  }

  // ---------- Editing and sweeping ----------

  // The payload that carries both edits; where both set a column the second one counts.
  function Merged(a: Edit, b: Edit): Edit {
    Edit(Coalesce(b.data, a.data), Coalesce(b.priority, a.priority), Coalesce(b.startAfter, a.startAfter),
         Coalesce(b.retentionSeconds, a.retentionSeconds), Coalesce(b.expireInSeconds, a.expireInSeconds),
         Coalesce(b.deleteAfterSeconds, a.deleteAfterSeconds), Coalesce(b.retryLimit, a.retryLimit),
         Coalesce(b.retryDelay, a.retryDelay), Coalesce(b.retryBackoff, a.retryBackoff),
         Coalesce(b.retryDelayMax, a.retryDelayMax), Coalesce(b.deadLetter, a.deadLetter),
         Coalesce(b.heartbeatSeconds, a.heartbeatSeconds), Coalesce(b.groupId, a.groupId),
         Coalesce(b.groupTier, a.groupTier))
  }

  // Two edits in a row are one edit with both payloads, whatever they say about start and retention.
  lemma EditsCompose(r: Row, a: Edit, b: Edit)
    ensures EditRow(EditRow(r, a), b) == EditRow(r, Merged(a, b))
  {
    var once, both := EditRow(EditRow(r, a), b), EditRow(r, Merged(a, b));
    assert once.startAfter == both.startAfter;
    assert once.terms == both.terms;
    assert once.keepUntil == both.keepUntil;
  }

  // An update changes nothing but its targets, whatever the edit, exactly if no other queued row of the physical
  // table has the id of a target.
  lemma UpdateIsConfinedIff(t: Table, queues: Queues, table: string, targets: set<Key>)
    ensures (forall e, k :: k in t && k !in targets ==> Update(t, queues, table, targets, e)[k] == t[k])
            <==> Touched(t, queues, table, targets) <= targets
  {
    if k :| k in Touched(t, queues, table, targets) && k !in targets {
      var e := Edit(None, Some(t[k].terms.priority + 1), None, None, None, None, None, None, None, None, None, None,
                    None, None);
      assert Update(t, queues, table, targets, e)[k] != t[k];
    }
  }

  // A second sweep at the same time finds nothing, and a later one only more.
  lemma SweepTwice(t: Table, names: set<string>, now: real, later: real)
    requires now <= later
    ensures Swept(Without(t, Swept(t, names, now)), names, now) == {}
    ensures Without(Without(t, Swept(t, names, now)), Swept(Without(t, Swept(t, names, now)), names, later))
            == Without(t, Swept(t, names, later))
  {
    var u := Without(t, Swept(t, names, now));
    assert Swept(t, names, now) <= Swept(t, names, later);
    assert Swept(u, names, later) == Swept(t, names, later) - Swept(t, names, now);
  }
}
