/**
 When the single failing statement can lose a job, told from the table and the selection alone. The
 database re-inserts the selected jobs in an order of its own; here every order counts.
 */
module Losses {
  import opened Outcomes
  import opened JobTable
  import opened Failing
  import opened Conservation

  // What Ready asks of a selection, whatever the order of its jobs.
  ghost predicate Selection(t: Table, sel: set<Key>, p: Params, queues: Queues) {
    && Unique(t)
    && (forall k :: k in t ==> t[k].retryCount >= 0)
    && sel <= t.Keys
    && (forall k :: k in sel ==> Before(t[k].state, Completed))
    && (forall k :: k in sel && HasDeadLetter(t[k], queues) ==> DeadLetterKey(t[k], p, k) !in t)
    && (forall j, k :: j in sel && k in sel && j != k && HasDeadLetter(t[j], queues) && HasDeadLetter(t[k], queues)
          ==> DeadLetterKey(t[j], p, j) != DeadLetterKey(t[k], p, k))
  }

  predicate IsOrderOf(order: seq<Key>, sel: set<Key>) {
    Distinct(order) && Elems(order) == sel
  }

  ghost predicate KeepsAll(t: Table, order: seq<Key>, p: Params, queues: Queues) {
    && Known(t, order) && CteFail(t, order, p, queues).Some?
    && t.Keys <= CteFail(t, order, p, queues).value.Keys
  }

  // Two jobs of a stately queue that would wait for a retry under the same key.
  predicate SameRetrySlot(t: Table, j: Key, k: Key)
    requires j in t && k in t
  {
    && j != k && j.name == k.name && t[j].policy == Some(Stately) && t[k].policy == Some(Stately)
    && KeyText(t[j]) == KeyText(t[k])
  }

  // A job that is not selected already waits for a retry in the job's slot.
  predicate HeldByStaying(t: Table, sel: set<Key>, k: Key)
    requires k in t
  {
    exists j :: j in t && SameRetrySlot(t, j, k) && j !in sel && t[j].state == Retry
  }

  predicate Contested(t: Table, sel: set<Key>, p: Params, k: Key)
    requires k in t && sel <= t.Keys
  {
    exists c :: c in sel && SameRetrySlot(t, c, k) && CanRetry(t[c], p)
  }

  predicate MayBeRefused(t: Table, sel: set<Key>, p: Params, k: Key)
    requires k in t && sel <= t.Keys
  {
    CanRetry(t[k], p) && (HeldByStaying(t, sel, k) || Contested(t, sel, p, k))
  }

  predicate MayBeReturned(t: Table, sel: set<Key>, p: Params, k: Key)
    requires k in t
  {
    !CanRetry(t[k], p) || !HeldByStaying(t, sel, k)
  }

  // ---------- What one order grants ----------

  // Whether a job is granted its retry is settled when its turn comes.
  lemma {:induction false} GrantedAt(t: Table, sel: set<Key>, order: seq<Key>, p: Params, i: nat)
    requires Known(t, order) && Distinct(order) && i < |order|
    ensures order[i] in Granted(t, sel, order, p)
            <==> CanRetry(t[order[i]], p) && !RetryTaken(t, sel, Granted(t, sel, order[..i], p), order[i])
  {
    var n := |order| - 1;
    if i == n {
      assert order[n] !in order[..n];
    } else {
      GrantedAt(t, sel, order[..n], p, i);
      assert order[..n][..i] == order[..i];
      assert order[i] != order[n];
    }
  }

  lemma TakenIsHeldOrContested(t: Table, sel: set<Key>, granted: set<Key>, p: Params, k: Key)
    requires sel <= t.Keys && k in sel
    requires forall j :: j in granted ==> j in sel && CanRetry(t[j], p)
    ensures RetryTaken(t, sel, granted, k) ==> HeldByStaying(t, sel, k) || Contested(t, sel, p, k)
    ensures HeldByStaying(t, sel, k) ==> RetryTaken(t, sel, granted, k)
  {
    if RetryTaken(t, sel, granted, k) {
      var j :| j in t && j.name == k.name && j != k && t[j].policy == Some(Stately)
               && KeyText(t[j]) == KeyText(t[k])
               && (j in granted || (j !in sel && t[j].state == Retry));
      assert SameRetrySlot(t, j, k);
    }
    if HeldByStaying(t, sel, k) {
      var j :| j in t && SameRetrySlot(t, j, k) && j !in sel && t[j].state == Retry;
    }
  }

  // The verdict of one order stays within what may happen.
  lemma VerdictIsPossible(t: Table, sel: set<Key>, order: seq<Key>, p: Params, k: Key)
    requires Known(t, order) && IsOrderOf(order, sel) && k in sel
    ensures sel <= t.Keys
    ensures var g := Granted(t, sel, order, p);
            && (Refused(t, g, p, k) ==> MayBeRefused(t, sel, p, k))
            && (!Refused(t, g, p, k) ==> MayBeReturned(t, sel, p, k))
  {
    forall j | j in sel ensures j in t {
      assert j in order;
    }
    var i :| 0 <= i < |order| && order[i] == k;
    GrantedAt(t, sel, order, p, i);
    forall j | j in Granted(t, sel, order[..i], p) ensures j in sel && CanRetry(t[j], p) {
      assert j in order[..i];
    }
    TakenIsHeldOrContested(t, sel, Granted(t, sel, order[..i], p), p, k);
  }

  // ---------- An order that loses a job ----------

  lemma {:induction false} SomeOrder(ks: set<Key>) returns (order: seq<Key>)
    ensures IsOrderOf(order, ks)
  {
    order := [];
    if ks != {} {
      var k :| k in ks;
      var rest := SomeOrder(ks - {k});
      order := rest + [k];
      assert k !in Elems(rest);
      assert Elems(order) == Elems(rest) + {k};
    }
  }

  lemma OrderStartingWith(first: seq<Key>, ks: set<Key>) returns (order: seq<Key>)
    requires Distinct(first) && Elems(first) <= ks
    ensures IsOrderOf(order, ks) && first <= order
  {
    var rest := SomeOrder(ks - Elems(first));
    order := first + rest;
    forall i, j | 0 <= i < j < |order| ensures order[i] != order[j] {
      if i < |first| <= j {
        assert order[i] in Elems(first) && order[j] in Elems(rest);
      }
    }
    assert Elems(order) == Elems(first) + Elems(rest);
  }

  lemma GrantedFirst(t: Table, sel: set<Key>, order: seq<Key>, p: Params)
    requires Known(t, order) && Distinct(order) && 0 < |order|
    requires !HeldByStaying(t, sel, order[0]) && CanRetry(t[order[0]], p)
    ensures order[0] in Granted(t, sel, order, p)
  {
    GrantedAt(t, sel, order, p, 0);
    assert order[..0] == [];
    var k := order[0];
    forall j | j in t && j !in sel && t[j].state == Retry ensures !SameRetrySlot(t, j, k) {
    }
  }

  // A job whose slot is held is refused in every order.
  lemma HeldIsRefused(t: Table, sel: set<Key>, order: seq<Key>, p: Params, k: Key)
    requires Known(t, order) && IsOrderOf(order, sel) && k in sel && k in t && HeldByStaying(t, sel, k)
    ensures k !in Granted(t, sel, order, p)
  {
    var i :| 0 <= i < |order| && order[i] == k;
    GrantedAt(t, sel, order, p, i);
    var j :| j in t && SameRetrySlot(t, j, k) && j !in sel && t[j].state == Retry;
  }

  // A job whose contester comes right before it is refused, if only jobs of other queues come earlier.
  lemma ContestedIsRefused(t: Table, sel: set<Key>, order: seq<Key>, p: Params, j: Key, c: Key, k: Key)
    requires Known(t, order) && IsOrderOf(order, sel) && [j, c, k] <= order && j.name != k.name
    requires c in t && k in t && SameRetrySlot(t, c, k) && CanRetry(t[c], p) && !HeldByStaying(t, sel, k)
    ensures k !in Granted(t, sel, order, p)
  {
    assert order[1] == c && order[2] == k;
    assert order[..1] == [j] && order[..2] == [j, c];
    GrantedAt(t, sel, order, p, 2);
    GrantedAt(t, sel, [j, c], p, 1);
    assert [j, c][..1] == [j];
    assert !RetryTaken(t, sel, Granted(t, sel, [j], p), c) by {
      ContesterIsFree(t, sel, Granted(t, sel, [j], p), j, c, k);
    }
  }

  lemma ContesterIsFree(t: Table, sel: set<Key>, granted: set<Key>, j: Key, c: Key, k: Key)
    requires c in t && k in t && k in sel && SameRetrySlot(t, c, k) && !HeldByStaying(t, sel, k)
    requires granted <= {j} && j.name != k.name
    ensures !RetryTaken(t, sel, granted, c)
  {
    forall h | h in t && h !in sel && t[h].state == Retry ensures !SameRetrySlot(t, h, c) {
      assert !SameRetrySlot(t, h, k);
    }
  }

  lemma LosingOrder(t: Table, sel: set<Key>, p: Params, queues: Queues, j: Key, k: Key) returns (order: seq<Key>)
    requires Selection(t, sel, p, queues) && j in sel && k in sel && j != k && j.id == k.id
    requires MayBeRefused(t, sel, p, k) && MayBeReturned(t, sel, p, j)
    ensures Known(t, order) && IsOrderOf(order, sel)
    ensures Refused(t, Granted(t, sel, order, p), p, k) && !Refused(t, Granted(t, sel, order, p), p, j)
  {
    if HeldByStaying(t, sel, k) {
      order := OrderStartingWith([j, k], sel);
      AllKnown(t, sel, order, p, queues);
      HeldIsRefused(t, sel, order, p, k);
    } else {
      var c :| c in sel && SameRetrySlot(t, c, k) && CanRetry(t[c], p);
      order := OrderStartingWith([j, c, k], sel);
      AllKnown(t, sel, order, p, queues);
      ContestedIsRefused(t, sel, order, p, j, c, k);
    }
    assert order[0] == j;
    if CanRetry(t[j], p) {
      GrantedFirst(t, sel, order, p);
    }
  }

  lemma AllKnown(t: Table, sel: set<Key>, order: seq<Key>, p: Params, queues: Queues)
    requires Selection(t, sel, p, queues) && Elems(order) == sel
    ensures Known(t, order)
  {
    forall k | k in order ensures k in t {
      assert k in Elems(order);
    }
  }

  lemma OrderIsReady(t: Table, sel: set<Key>, order: seq<Key>, p: Params, queues: Queues)
    requires Selection(t, sel, p, queues) && IsOrderOf(order, sel)
    ensures Ready(t, Elems(order), order, p, queues)
  {
    forall k | k in order ensures k in sel {
      assert k in Elems(order);
    }
  }

  // ---------- The theorem ----------

  // A pair of selected jobs under one id, of which one may be refused while the other comes back.
  predicate Endangers(t: Table, sel: set<Key>, p: Params, j: Key, k: Key)
    requires sel <= t.Keys
  {
    j in sel && k in sel && j != k && j.id == k.id && MayBeRefused(t, sel, p, k) && MayBeReturned(t, sel, p, j)
  }

  lemma OrderKeepsAll(t: Table, sel: set<Key>, order: seq<Key>, p: Params, queues: Queues)
    requires Selection(t, sel, p, queues) && IsOrderOf(order, sel)
    requires forall j, k :: !Endangers(t, sel, p, j, k)
    ensures KeepsAll(t, order, p, queues)
  {
    AllKnown(t, sel, order, p, queues);
    OrderIsReady(t, sel, order, p, queues);
    CteConservesIff(t, order, p, queues);
    forall j, k | j in order && k in order && j.id == k.id && Refused(t, Granted(t, sel, order, p), p, k)
      ensures Refused(t, Granted(t, sel, order, p), p, j)
    {
      assert j in Elems(order) && k in Elems(order);
      VerdictIsPossible(t, sel, order, p, j);
      VerdictIsPossible(t, sel, order, p, k);
      assert !Endangers(t, sel, p, j, k);
    }
  }

  lemma OrderLoses(t: Table, sel: set<Key>, order: seq<Key>, p: Params, queues: Queues, j: Key, k: Key)
    requires Selection(t, sel, p, queues) && Known(t, order) && IsOrderOf(order, sel)
    requires j in sel && k in sel && j.id == k.id
    requires Refused(t, Granted(t, sel, order, p), p, k) && !Refused(t, Granted(t, sel, order, p), p, j)
    ensures !KeepsAll(t, order, p, queues)
  {
    OrderIsReady(t, sel, order, p, queues);
    CteConservesIff(t, order, p, queues);
    assert j in Elems(order) && k in Elems(order);
  }

  // The single statement loses no job in any order of re-insertion exactly if no two selected jobs share an
  // id such that one has attempts left and a retry slot that a staying job holds or another selected job
  // contests, and the other one has no attempts left or a slot that no staying job holds.
  lemma CteNeverLosesIff(t: Table, sel: set<Key>, p: Params, queues: Queues)
    requires Selection(t, sel, p, queues)
    ensures (forall order :: IsOrderOf(order, sel) ==> KeepsAll(t, order, p, queues))
            <==> forall j, k :: !Endangers(t, sel, p, j, k)
  {
    if forall j, k :: !Endangers(t, sel, p, j, k) {
      forall order | IsOrderOf(order, sel) ensures KeepsAll(t, order, p, queues) {
        OrderKeepsAll(t, sel, order, p, queues);
      }
    } else {
      var j, k :| Endangers(t, sel, p, j, k);
      var order := LosingOrder(t, sel, p, queues, j, k);
      OrderLoses(t, sel, order, p, queues, j, k);
    }
  }
}
