/**
 What failing conserves, in both implementations: which rows are left, which can be lost, how the two forms
 differ, and that the unique indexes hold.
 */
module Conservation {
  import opened Outcomes
  import opened JobTable
  import opened Failing

  // ---------- What the closed form gives ----------

  predicate DistinctIds(order: seq<Key>) {
    forall j, k :: j in order && k in order && j.id == k.id ==> j == k
  }

  lemma DistinctIdsLoseNothing(t: Table, order: seq<Key>, granted: set<Key>, p: Params)
    requires Known(t, order) && DistinctIds(order)
    ensures SharedIdLosses(t, order, granted, p) == {}
  {
    forall k | k in order && Refused(t, granted, p, k)
      ensures k.id !in OfferedIds(t, order, granted, p)
    {
      assert forall j :: j in order && j.id == k.id ==> j == k;
    }
  }

  // The start_after that the CTE gives to a job it fails terminally; the split keeps the old one.
  function CteTerminalStart(r: Row, p: Params, k: Key): real
    requires r.retryCount >= 0
  {
    if r.retryCount == r.terms.retryLimit then r.startAfter else RetryStart(r, p, k)
  }

  predicate Terminal(t: Table, order: seq<Key>, p: Params, k: Key) {
    k in order && k in t && !CanRetry(t[k], p)
  }

  function Copies(t: Table, copied: set<Key>, p: Params): set<Key>
    requires copied <= t.Keys
  {
    set k | k in copied :: DeadLetterKey(t[k], p, k)
  }

  // The jobs that the single statement loses because of their id, and their dead-letter copies.
  function LostToCte(t: Table, order: seq<Key>, p: Params): set<Key>
    requires Known(t, order)
  {
    SharedIdLosses(t, order, Granted(t, Elems(order), order, p), p)
  }

  // For every order of re-insertion the two forms agree on every row and column, dead-letter copies included,
  // except for the jobs that the single statement loses because of their id, and the start_after of jobs failed
  // with a counter off their limit.
  lemma SplitRefinesCte(t: Table, order: seq<Key>, p: Params, queues: Queues)
    requires Ready(t, Elems(order), order, p, queues)
    ensures CteFail(t, order, p, queues).Some? && LostToCte(t, order, p) <= t.Keys
    ensures var c := CteFail(t, order, p, queues).value;
            var s := SplitFail(t, Elems(order), order, p, queues);
            var lost := LostToCte(t, order, p);
            && s.Keys == c.Keys + lost + Copies(t, Dead(t, lost, queues), p) && c.Keys !! lost
            && forall k :: k in c ==>
                 c[k] == if Terminal(t, order, p, k) then s[k].(startAfter := CteTerminalStart(t[k], p, k)) else s[k]
  {
    var g, lost := Granted(t, Elems(order), order, p), LostToCte(t, order, p);
    CteFailMeetsOutcome(t, order, p, queues);
    var c := CteFail(t, order, p, queues).value;
    var s := SplitFail(t, Elems(order), order, p, queues);
    var v := Verdict(Elems(order), g, {}, Dead(t, Elems(order) - g, queues));
    var w := Verdict(Elems(order), g, lost, Dead(t, Elems(order) - g - lost, queues));
    assert Outcome(s, t, v, p, queues, false) by {
      if order != [] {
        assert Elems(order) - Elems(order) == {};
        SplitFailMeetsOutcome(t, Elems(order), order, p, queues);
      }
    }
    SameRows(c, s, t, order, v, w, p, queues);
    SameKeys(c, s, t, order, v, w, p, queues);
  }

  // Two outcomes of one selection that differ in the lost jobs only.
  ghost predicate DifferInLost(t: Table, order: seq<Key>, v: Verdict, w: Verdict, p: Params, queues: Queues) {
    && v.selected == w.selected == Elems(order) && v.granted == w.granted && v.lost == {}
    && w.lost <= Elems(order) - v.granted && Elems(order) <= t.Keys
    && v.copied == Dead(t, Elems(order) - v.granted, queues)
    && w.copied == Dead(t, Elems(order) - v.granted - w.lost, queues)
    && (forall k :: k in v.granted ==> k in t && CanRetry(t[k], p))
  }

  lemma SameRows(c: Table, s: Table, t: Table, order: seq<Key>, v: Verdict, w: Verdict, p: Params, queues: Queues)
    requires Ready(t, Elems(order), order, p, queues) && DifferInLost(t, order, v, w, p, queues)
    requires Outcome(s, t, v, p, queues, false) && Outcome(c, t, w, p, queues, true)
    ensures c.Keys <= s.Keys
    ensures forall k :: k in c ==>
              c[k] == if Terminal(t, order, p, k) then s[k].(startAfter := CteTerminalStart(t[k], p, k)) else s[k]
  {
    forall k | k in c
      ensures k in s
      ensures c[k] == if Terminal(t, order, p, k) then s[k].(startAfter := CteTerminalStart(t[k], p, k)) else s[k]
    {
      if k in t && k !in w.lost {
        assert c[k] == Fate(t[k], w, p, k, true) && s[k] == Fate(t[k], v, p, k, false);
      } else {
        assert IsCopy(t, w.copied, p, k);
        var j :| j in w.copied && j in t && k == DeadLetterKey(t[j], p, j);
        assert j in order && k !in t;
        assert Copied(c, t[j], p, j, queues) && Copied(s, t[j], p, j, queues);
      }
    }
  }

  lemma SameKeys(c: Table, s: Table, t: Table, order: seq<Key>, v: Verdict, w: Verdict, p: Params, queues: Queues)
    requires Ready(t, Elems(order), order, p, queues) && DifferInLost(t, order, v, w, p, queues)
    requires Outcome(s, t, v, p, queues, false) && Outcome(c, t, w, p, queues, true)
    ensures w.lost <= t.Keys && s.Keys == c.Keys + w.lost + Copies(t, Dead(t, w.lost, queues), p) && c.Keys !! w.lost
  {
    assert s.Keys == t.Keys - {} + Copies(t, v.copied, p) by {
      OutcomeKeys(s, t, order, Elems(order), v, p, queues, false);
    }
    assert c.Keys == t.Keys - w.lost + Copies(t, w.copied, p) by {
      OutcomeKeys(c, t, order, Elems(order), w, p, queues, true);
    }
    assert v.copied == w.copied + Dead(t, w.lost, queues);
    CopiesSplit(t, w.copied, Dead(t, w.lost, queues), p);
    CopiesAreOutside(t, order, w.copied, p, queues);
    KeysAdd(t.Keys, w.lost, Copies(t, w.copied, p), Copies(t, Dead(t, w.lost, queues), p));
  }

  lemma CopiesAreOutside(t: Table, order: seq<Key>, copied: set<Key>, p: Params, queues: Queues)
    requires Ready(t, Elems(order), order, p, queues)
    requires copied <= t.Keys && forall k :: k in copied ==> k in order && HasDeadLetter(t[k], queues)
    ensures Copies(t, copied, p) !! t.Keys
  {
  }

  lemma KeysAdd(all: set<Key>, lost: set<Key>, a: set<Key>, b: set<Key>)
    requires lost <= all && a !! all
    ensures all - {} + (a + b) == (all - lost + a) + lost + b
    ensures all - lost + a !! lost
  {
  }

  lemma CopiesSplit(t: Table, a: set<Key>, b: set<Key>, p: Params)
    requires a <= t.Keys && b <= t.Keys
    ensures Copies(t, a + b, p) == Copies(t, a, p) + Copies(t, b, p)
  {
    forall k | k in a ensures DeadLetterKey(t[k], p, k) in Copies(t, a + b, p) {
      assert k in a + b;
    }
    forall k | k in b ensures DeadLetterKey(t[k], p, k) in Copies(t, a + b, p) {
      assert k in a + b;
    }
  }

  lemma {:induction false} CopiesAreAsMany(t: Table, copied: set<Key>, p: Params)
    requires copied <= t.Keys
    requires forall j, k :: j in copied && k in copied && j != k ==>
               DeadLetterKey(t[j], p, j) != DeadLetterKey(t[k], p, k)
    ensures |Copies(t, copied, p)| == |copied|
  {
    if copied != {} {
      var k :| k in copied;
      CopiesAreAsMany(t, copied - {k}, p);
      assert Copies(t, copied, p) == Copies(t, copied - {k}, p) + {DeadLetterKey(t[k], p, k)};
    }
  }

  lemma OutcomeKeys(t': Table, t: Table, order: seq<Key>, deleted: set<Key>, v: Verdict, p: Params,
                    queues: Queues, cte: bool)
    requires Ready(t, deleted, order, p, queues) && Outcome(t', t, v, p, queues, cte)
    requires v.copied <= Elems(order)
    ensures v.copied <= t.Keys
    ensures t'.Keys == (t.Keys - v.lost) + Copies(t, v.copied, p)
  {
    assert v.copied <= t.Keys;
    forall d
      ensures d in t'.Keys <==> d in (t.Keys - v.lost) + Copies(t, v.copied, p)
    {
      if d in Copies(t, v.copied, p) {
        var k :| k in v.copied && d == DeadLetterKey(t[k], p, k);
        assert Copied(t', t[k], p, k, queues);
      }
      if d in t' && IsCopy(t, v.copied, p, d) {
        assert d in Copies(t, v.copied, p);
      }
    }
  }

  // Conservation: the rows left are the old ones less the lost ones, and one new row for each copy.
  lemma OutcomeConserves(t': Table, t: Table, order: seq<Key>, deleted: set<Key>, v: Verdict, p: Params,
                      queues: Queues, cte: bool)
    requires Ready(t, deleted, order, p, queues) && Outcome(t', t, v, p, queues, cte)
    requires v.lost <= t.Keys && v.copied <= Elems(order)
    ensures v.copied <= t.Keys
    ensures t'.Keys == (t.Keys - v.lost) + Copies(t, v.copied, p)
    ensures |t'.Keys| == |t.Keys| - |v.lost| + |v.copied|
    ensures t.Keys <= t'.Keys <==> v.lost == {}
  {
    OutcomeKeys(t', t, order, deleted, v, p, queues, cte);
    forall k | k in v.copied ensures k in order && HasDeadLetter(t[k], queues) {
      assert Copied(t', t[k], p, k, queues);
    }
    CopiesAreAsMany(t, v.copied, p);
    forall d | d in Copies(t, v.copied, p) ensures d !in t {
      var k :| k in v.copied && d == DeadLetterKey(t[k], p, k);
      assert k in order;
    }
    KeyCount(t.Keys, v.lost, Copies(t, v.copied, p));
  }

  lemma KeyCount(all: set<Key>, lost: set<Key>, added: set<Key>)
    requires lost <= all && added !! all
    ensures |(all - lost) + added| == |all| - |lost| + |added|
    ensures all <= (all - lost) + added <==> lost == {}
  {
    assert |all - lost| == |all| - |lost|;
    assert (all - lost) !! added;
    if k :| k in lost {
      assert k in all && k !in (all - lost) + added;
    }
  }

  // ---------- Both forms keep the unique indexes ----------

  lemma CopyKeepsUnique(t: Table, d: Key, r: Row, p: Params, k: Key, queues: Queues)
    requires Unique(t) && HasDeadLetter(r, queues)
    ensures Unique(t[d := CopyOf(r, p, k, queues)])
  {
  }

  lemma {:induction false} ReinsertKeepsUnique(cur: Table, was: Table, order: seq<Key>, p: Params, queues: Queues)
    requires Known(was, order) && Unique(cur)
    ensures Unique(Reinsert(cur, was, order, p, queues))
  {
    if order != [] {
      var k := order[|order| - 1];
      ReinsertKeepsUnique(cur, was, order[..|order| - 1], p, queues);
      var u := Reinsert(cur, was, order[..|order| - 1], p, queues);
      InsertIgnoreKeepsUnique(u, k, RetryRow(was[k], p, k));
      InsertIgnoreKeepsUnique(u, k, FailedRow(was[k], p, k));
      if HasDeadLetter(was[k], queues) {
        CopyKeepsUnique(InsertIgnore(u, k, FailedRow(was[k], p, k)), DeadLetterKey(was[k], p, k), was[k], p, k, queues);
      }
    }
  }

  lemma SplitFailKeepsUnique(t: Table, deleted: set<Key>, order: seq<Key>, p: Params, queues: Queues)
    requires Known(t, order) && Unique(t)
    ensures Unique(SplitFail(t, deleted, order, p, queues))
  {
    NarrowingKeepsUnique(t, Without(t, deleted));
    ReinsertKeepsUnique(Without(t, deleted), t, order, p, queues);
  }

  lemma {:induction false} OfferKeepsUnique(cur: Table, was: Table, order: seq<Key>, p: Params)
    requires Known(was, order) && Unique(cur)
    ensures Unique(Offer(cur, was, order, p))
  {
    if order != [] {
      OfferKeepsUnique(cur, was, order[..|order| - 1], p);
    }
  }

  lemma {:induction false} InsertRestKeepsUnique(cur: Table, was: Table, order: seq<Key>, returned: set<nat>, p: Params)
    requires Known(was, order) && Unique(cur)
    ensures InsertRest(cur, was, order, returned, p).Some? ==> Unique(InsertRest(cur, was, order, returned, p).value)
  {
    if order != [] {
      InsertRestKeepsUnique(cur, was, order[..|order| - 1], returned, p);
    }
  }

  lemma {:induction false} CopyDeadKeepsUnique(cur: Table, was: Table, results: Table, order: seq<Key>,
                      p: Params, queues: Queues)
    requires Known(was, order) && Unique(cur)
    ensures Unique(CopyDead(cur, was, results, order, p, queues))
  {
    if order != [] {
      var k := order[|order| - 1];
      CopyDeadKeepsUnique(cur, was, results, order[..|order| - 1], p, queues);
      if HasDeadLetter(was[k], queues) {
        CopyKeepsUnique(CopyDead(cur, was, results, order[..|order| - 1], p, queues), DeadLetterKey(was[k], p, k),
                        was[k], p, k, queues);
      }
    }
  }

  lemma CteFailKeepsUnique(t: Table, order: seq<Key>, p: Params, queues: Queues)
    requires Known(t, order) && Unique(t)
    ensures CteFail(t, order, p, queues).Some? ==> Unique(CteFail(t, order, p, queues).value)
  {
    var selected := set k | k in order;
    NarrowingKeepsUnique(t, Without(t, selected));
    OfferKeepsUnique(Without(t, selected), t, order, p);
    var offered := Offer(Without(t, selected), t, order, p);
    var returned := set k | k in selected && k in offered :: k.id;
    InsertRestKeepsUnique(offered, t, order, returned, p);
    if InsertRest(offered, t, order, returned, p).Some? {
      var results := InsertRest(offered, t, order, returned, p).value;
      CopyDeadKeepsUnique(results, t, results, order, p, queues);
    }
  }

  // ---------- The entry points ----------

  // A split fail() keeps every row exactly when nothing is selected or the batch names no
  // finished job; a mixed batch deletes its finished rows for good.
  lemma FailSplitConservesIff(t: Table, name: string, ids: set<nat>, order: seq<Key>, p: Params, queues: Queues)
    requires Ready(t, NamedRows(t, name, ids), order, p, queues)
    requires Elems(order) == SelectedById(t, name, ids)
    ensures t.Keys <= FailSplit(t, name, ids, order, p, queues).Keys
            <==> order == [] || forall k :: k in t && k.name == name && k.id in ids ==> Before(t[k].state, Completed)
  {
    if order != [] {
      var deleted := NamedRows(t, name, ids);
      var g := Granted(t, deleted, order, p);
      SplitFailMeetsOutcome(t, deleted, order, p, queues);
      var v := Verdict(Elems(order), g, deleted - Elems(order), Dead(t, Elems(order) - g, queues));
      OutcomeConserves(FailSplit(t, name, ids, order, p, queues), t, order, deleted, v, p, queues, false);
      if k :| k in v.lost {
        assert k in t && k.name == name && k.id in ids && !Before(t[k].state, Completed);
      } else {
        forall k | k in t && k.name == name && k.id in ids ensures Before(t[k].state, Completed) {
          assert k in deleted;
        }
      }
    }
  }

  // The two tables are the same, but for the start_after of jobs that failed terminally.
  ghost predicate AgreeUpToStart(c: Table, s: Table, t: Table, order: seq<Key>, p: Params)
    requires forall k :: k in t ==> t[k].retryCount >= 0
  {
    && c.Keys == s.Keys
    && forall k :: k in c ==>
         c[k] == if Terminal(t, order, p, k) then s[k].(startAfter := CteTerminalStart(t[k], p, k)) else s[k]
  }

  // Within one queue the ids tell the jobs apart.
  lemma OneQueueLosesNothing(t: Table, name: string, ids: set<nat>, order: seq<Key>, p: Params)
    requires Known(t, order) && Elems(order) == SelectedById(t, name, ids)
    ensures LostToCte(t, order, p) == {}
  {
    forall j, k | j in order && k in order && j.id == k.id ensures j == k {
      assert j in SelectedById(t, name, ids) && k in SelectedById(t, name, ids);
    }
    DistinctIdsLoseNothing(t, order, Granted(t, Elems(order), order, p), p);
  }

  // On one queue fail() has the same result in both forms exactly when nothing is selected or no named job is
  // finished.
  lemma FailFormsAgreeIff(t: Table, name: string, ids: set<nat>, order: seq<Key>, p: Params, queues: Queues)
    requires Ready(t, NamedRows(t, name, ids), order, p, queues)
    requires Elems(order) == SelectedById(t, name, ids)
    ensures CteFail(t, order, p, queues).Some?
    ensures AgreeUpToStart(CteFail(t, order, p, queues).value, FailSplit(t, name, ids, order, p, queues), t, order, p)
            <==> order == [] || forall k :: k in t && k.name == name && k.id in ids ==> Before(t[k].state, Completed)
  {
    SplitRefinesCte(t, order, p, queues);
    OneQueueLosesNothing(t, name, ids, order, p);
    var c, s := CteFail(t, order, p, queues).value, SplitFail(t, Elems(order), order, p, queues);
    assert Copies(t, Dead(t, {}, queues), p) == {};
    assert AgreeUpToStart(c, s, t, order, p);
    FailSplitConservesIff(t, name, ids, order, p, queues);
    assert t.Keys <= c.Keys by { CteKeepsRest(c, s, t, order, p, queues); }
    if order == [] || forall k :: k in t && k.name == name && k.id in ids ==> Before(t[k].state, Completed) {
      assert order != [] ==> NamedRows(t, name, ids) == Elems(order);
    }
  }

  lemma CteKeepsRest(c: Table, s: Table, t: Table, order: seq<Key>, p: Params, queues: Queues)
    requires Ready(t, Elems(order), order, p, queues)
    requires s == SplitFail(t, Elems(order), order, p, queues) && c.Keys == s.Keys
    ensures t.Keys <= c.Keys
  {
    if order != [] {
      SplitFailMeetsOutcome(t, Elems(order), order, p, queues);
    }
  }

  // Split expiry keeps every row exactly when no other row of the physical table has a selected id.
  lemma ExpireSplitConservesIff(t: Table, table: string, order: seq<Key>, p: Params, queues: Queues)
    requires Ready(t, RowsWithIds(t, queues, table, IdsOf(Elems(order))), order, p, queues)
    ensures t.Keys <= ExpireSplit(t, table, order, p, queues).Keys
            <==> forall k :: k in RowsWithIds(t, queues, table, IdsOf(Elems(order))) ==> k in order
  {
    if order != [] {
      var deleted := RowsWithIds(t, queues, table, IdsOf(Elems(order)));
      var g := Granted(t, deleted, order, p);
      SplitFailMeetsOutcome(t, deleted, order, p, queues);
      var v := Verdict(Elems(order), g, deleted - Elems(order), Dead(t, Elems(order) - g, queues));
      OutcomeConserves(ExpireSplit(t, table, order, p, queues), t, order, deleted, v, p, queues, false);
      if k :| k in v.lost {
        assert k in deleted && k !in order;
      }
    }
  }

  // The CTE keeps every row exactly when no refused job shares its id with another failed job
  // that was offered successfully; ids that are unique across queues suffice.
  lemma CteConservesIff(t: Table, order: seq<Key>, p: Params, queues: Queues)
    requires Ready(t, Elems(order), order, p, queues)
    ensures var g := Granted(t, Elems(order), order, p);
            && CteFail(t, order, p, queues).Some?
            && (t.Keys <= CteFail(t, order, p, queues).value.Keys
                <==> !exists j, k :: j in order && k in order && j.id == k.id
                                     && Refused(t, g, p, k) && !Refused(t, g, p, j))
  {
    var g := Granted(t, Elems(order), order, p);
    var lost := SharedIdLosses(t, order, g, p);
    CteFailMeetsOutcome(t, order, p, queues);
    var v := Verdict(Elems(order), g, lost, Dead(t, Elems(order) - g - lost, queues));
    OutcomeConserves(CteFail(t, order, p, queues).value, t, order, Elems(order), v, p, queues, true);
    if k :| k in lost {
      var j :| j in order && !Refused(t, g, p, j) && j.id == k.id;
    } else {
      forall j, k | j in order && k in order && j.id == k.id && Refused(t, g, p, k)
        ensures Refused(t, g, p, j)
      {
        assert !Refused(t, g, p, j) ==> j.id in OfferedIds(t, order, g, p);
        assert k !in lost;
      }
    }
  }
}
