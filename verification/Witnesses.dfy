/**
 Small tables on which the code loses a job or trips over its own index: one for each property that
 holds under a condition only.
 */
module Witnesses {
  import opened Outcomes
  import opened JobTable
  import opened Statements
  import opened Lifecycle
  import opened Failing
  import opened Losses
  import Fetching
  import JobStore
  import Redrives

  // A job with its first attempt ahead, running, or behind it.
  function Job(policy: Policy, state: JobState, key: Option<string>): Row {
    var begun := if state == Created then None else Some(0.0);
    Row(Terms(0, None, 900, 0, 2, 0, false, None, None, None, None, None), 0.0, 1000.0, 0.0, key, None,
        Some(policy), state, 0, begun, if Before(state, Completed) then None else Some(1.0), begun, None, None,
        false, false, 0)
  }

  function QueueOf(policy: Policy): Queue {
    Queue(policy, 2, 0, false, None, 900, 1000, 0, None, None, "job")
  }

  // Past the expiry of the jobs that began at 0.
  const LATE := 1000.0

  function NoOutputs(): Params {
    Params(LATE, map[], map[], false, map[])
  }

  // A running and a finished job, both named in one split fail().
  lemma MixedBatchLosesTheFinished()
    ensures var live, finished := Key("q", 1), Key("q", 2);
            var t := map[live := Job(Standard, Active, None), finished := Job(Standard, Completed, None)];
            var queues := map["q" := QueueOf(Standard)];
            && Ready(t, NamedRows(t, "q", {1, 2}), [live], NoOutputs(), queues)
            && Elems([live]) == SelectedById(t, "q", {1, 2})
            && FailSplit(t, "q", {1, 2}, [live], NoOutputs(), queues).Keys == {live}
  {
    var live, finished := Key("q", 1), Key("q", 2);
    var t := map[live := Job(Standard, Active, None), finished := Job(Standard, Completed, None)];
    var queues := map["q" := QueueOf(Standard)];
    assert NamedRows(t, "q", {1, 2}) == {live, finished};
    assert SelectedById(t, "q", {1, 2}) == {live};
    LosesTheOther(t, {live, finished}, live, queues);
  }

  // Two queues of one physical table hold a job under the same id; one of the two is running.
  function LateAndOther(): (t: Table)
    ensures t.Keys == {Key("a", 1), Key("b", 1)}
  {
    map[Key("a", 1) := Job(Standard, Active, None), Key("b", 1) := Job(Standard, Created, None)]
  }

  function TwoStandard(): Queues {
    map["a" := QueueOf(Standard), "b" := QueueOf(Standard)]
  }

  lemma OneIsLate()
    ensures TimedOut(LateAndOther(), {"a", "b"}, LATE) == {Key("a", 1)}
  {
  }

  lemma BothHaveTheId()
    ensures RowsWithIds(LateAndOther(), TwoStandard(), "job", IdsOf(Elems([Key("a", 1)]))) == {Key("a", 1), Key("b", 1)}
  {
    assert IdsOf(Elems([Key("a", 1)])) == {1} by { assert Elems([Key("a", 1)]) == {Key("a", 1)}; }
  }

  lemma LateIsReady()
    ensures Ready(LateAndOther(), {Key("a", 1), Key("b", 1)}, [Key("a", 1)], NoOutputs(), TwoStandard())
  {
  }

  // The running one times out, and its expiry removes the other job as well.
  lemma ExpiryLosesTheOther()
    ensures Elems([Key("a", 1)]) == TimedOut(LateAndOther(), {"a", "b"}, LATE)
    ensures Ready(LateAndOther(), RowsWithIds(LateAndOther(), TwoStandard(), "job", IdsOf(Elems([Key("a", 1)]))),
                  [Key("a", 1)], NoOutputs(), TwoStandard())
    ensures ExpireSplit(LateAndOther(), "job", [Key("a", 1)], NoOutputs(), TwoStandard()).Keys == {Key("a", 1)}
  {
    OneIsLate();
    BothHaveTheId();
    LateIsReady();
    assert Elems([Key("a", 1)]) == {Key("a", 1)};
    LosesTheOther(LateAndOther(), {Key("a", 1), Key("b", 1)}, Key("a", 1), TwoStandard());
  }

  // Re-inserting one job of two deleted ones leaves one.
  lemma LosesTheOther(t: Table, deleted: set<Key>, k: Key, queues: Queues)
    requires t.Keys == deleted && k in t && t[k] == Job(Standard, Active, None)
    ensures Known(t, [k]) && SplitFail(t, deleted, [k], NoOutputs(), queues).Keys == {k}
  {
    var cur := Without(t, deleted);
    assert cur == map[];
    var none: seq<Key> := [];
    assert [k][..0] == none;
    assert Reinsert(cur, t, none, NoOutputs(), queues) == cur;
    assert Reinsert(cur, t, [k], NoOutputs(), queues) == ReinsertOne(cur, k, t[k], NoOutputs(), queues);
  }

  // A stately queue has a job waiting for a retry and a running one under the same key; a job of another queue
  // has the id of the running one.
  function SharedId(): (t: Table)
    ensures t.Keys == {Key("s", 7), Key("s", 1), Key("p", 1)}
  {
    map[Key("s", 7) := Job(Stately, Retry, None), Key("s", 1) := Job(Stately, Active, None),
        Key("p", 1) := Job(Standard, Active, None)]
  }

  function StatelyAndStandard(): Queues {
    map["s" := QueueOf(Stately), "p" := QueueOf(Standard)]
  }

  lemma SharedIdIsUnique()
    ensures Unique(SharedId())
  {
    var t := SharedId();
    forall j, k | j in t && k in t && j != k && j.name == k.name
      ensures !Collide(t[j], t[k])
    {
      assert t[j].state != t[k].state && t[j].policy == t[k].policy == Some(Stately);
    }
  }

  lemma SharedIdIsSelection()
    ensures Selection(SharedId(), {Key("s", 1), Key("p", 1)}, NoOutputs(), StatelyAndStandard())
  {
    SharedIdIsUnique();
    forall k | k in SharedId()
      ensures SharedId()[k].retryCount == 0 && !HasDeadLetter(SharedId()[k], StatelyAndStandard())
    {
      SharedIdRow(k);
    }
    SharedIdRuns();
  }

  lemma SharedIdRuns()
    ensures SharedId()[Key("s", 1)].state == SharedId()[Key("p", 1)].state == Active
  {
  }

  lemma SharedIdTimedOut()
    ensures TimedOut(SharedId(), {"s", "p"}, LATE) == {Key("s", 1), Key("p", 1)}
  {
  }

  lemma SharedIdRow(k: Key)
    requires k in SharedId()
    ensures SharedId()[k].retryCount == 0 && SharedId()[k].terms.deadLetter.None?
  {
  }

  // If the single statement fails both running jobs, which have timed out, the stately one is lost.
  lemma SharedIdLosesARefusedJob()
    ensures TimedOut(SharedId(), {"s", "p"}, LATE) == {Key("s", 1), Key("p", 1)}
    ensures Selection(SharedId(), {Key("s", 1), Key("p", 1)}, NoOutputs(), StatelyAndStandard())
    ensures IsOrderOf([Key("p", 1), Key("s", 1)], {Key("s", 1), Key("p", 1)})
    ensures !KeepsAll(SharedId(), [Key("p", 1), Key("s", 1)], NoOutputs(), StatelyAndStandard())
  {
    var t, p, refused, other := SharedId(), NoOutputs(), Key("s", 1), Key("p", 1);
    var sel, order := {refused, other}, [other, refused];
    SharedIdIsSelection();
    SharedIdTimedOut();
    assert order[0] == other && order[1] == refused && IsOrderOf(order, sel);
    assert SameRetrySlot(t, Key("s", 7), refused) && HeldByStaying(t, sel, refused);
    HeldIsRefused(t, sel, order, p, refused);
    assert !HeldByStaying(t, sel, other);
    GrantedFirst(t, sel, order, p);
    OrderLoses(t, sel, order, p, StatelyAndStandard(), other, refused);
  }

  // A singleton queue holds a job without a key and one with the empty key.
  function KeylessAndEmpty(): (t: Table)
    ensures t.Keys == {Key("g", 1), Key("g", 2)}
  {
    map[Key("g", 1) := Job(Singleton, Created, None), Key("g", 2) := Job(Singleton, Created, Some(""))]
  }

  function TwoAtATime(): Fetching.Options {
    Fetching.Options(2, false, false, false, [], [], None, None, None)
  }

  lemma BothAreFetched()
    ensures Fetching.IsSource(KeylessAndEmpty(), "g", Singleton, TwoAtATime(), 0.0, KeylessAndEmpty().Keys)
  {
    var t, o, j, k := KeylessAndEmpty(), TwoAtATime(), Key("g", 1), Key("g", 2);
    assert Fetching.Candidates(t, "g", o, 0.0) == {j, k};
    assert Fetching.IsNext(t, o, 2, {j, k}, [j, k]);
    assert Elems([j, k]) == {j, k};
    assert Fetching.IsRankOne(t, Elems([j, k]), {j, k});
  }

  // A worker that fetches two jobs at a time trips the index of the queue.
  lemma EmptyKeyTripsTheIndex()
    ensures var t, o := KeylessAndEmpty(), TwoAtATime();
            && Unique(t) && Fetching.FollowsPolicy(t, "g", Singleton) && Fetching.IgnoresActiveKeys(t, "g", o)
            && Fetching.IsSource(t, "g", Singleton, o, 0.0, t.Keys)
            && !Unique(Fetching.ClaimRows(t, t.Keys, 0.0))
  {
    BothAreFetched();
    NoneIsActive();
    BothWouldBeActive();
  }

  lemma NoneIsActive()
    ensures var t, o := KeylessAndEmpty(), TwoAtATime();
            Unique(t) && Fetching.FollowsPolicy(t, "g", Singleton) && Fetching.IgnoresActiveKeys(t, "g", o)
  {
    var t := KeylessAndEmpty();
    assert forall k :: k in t ==> t[k].state == Created && t[k].policy == Some(Singleton) && t[k].singletonOn.None?;
  }

  lemma BothWouldBeActive()
    ensures !Unique(Fetching.ClaimRows(KeylessAndEmpty(), KeylessAndEmpty().Keys, 0.0))
  {
    var t := KeylessAndEmpty();
    var u := Fetching.ClaimRows(t, t.Keys, 0.0);
    assert Collide(u[Key("g", 1)], u[Key("g", 2)]);
  }

  // ---------- Statements that find their rows by id ----------

  // A dead-letter queue and another queue share a physical table, and a job of each has the id 1.
  function DeadAndOther(): (t: Table)
    ensures t.Keys == {Key("dead", 1), Key("other", 1)}
  {
    map[Key("dead", 1) := Job(Standard, Created, None), Key("other", 1) := Job(Standard, Created, None)]
  }

  function DeadQueues(): Queues {
    map["dead" := QueueOf(Standard), "other" := QueueOf(Standard), "home" := QueueOf(Short)]
  }

  lemma OldestOfOne()
    ensures JobStore.AreOldest(DeadAndOther(), DeadQueues(), "dead", Some("home"), None, 10, [Key("dead", 1)])
    ensures Redrives.CanBeRedriven(DeadAndOther(), DeadQueues(), "job", [Key("dead", 1)], Some("home"),
                                   map[Key("dead", 1) := 5])
  {
    assert Redrivable(DeadAndOther(), DeadQueues(), "dead", Some("home"), None, [Key("dead", 1)][0]);
  }

  // Redriving the dead-letter job removes the job of the other queue as well.
  lemma RedriveDropsTheOther()
    ensures JobStore.AreOldest(DeadAndOther(), DeadQueues(), "dead", Some("home"), None, 10, [Key("dead", 1)])
    ensures Redrives.CanBeRedriven(DeadAndOther(), DeadQueues(), "job", [Key("dead", 1)], Some("home"),
                                   map[Key("dead", 1) := 5])
    ensures Redrive(DeadAndOther(), "job", [Key("dead", 1)], Some("home"), map[Key("dead", 1) := 5], DeadQueues(),
                    LATE).Keys
            == {Key("home", 5)}
  {
    OldestOfOne();
    var t, k := DeadAndOther(), Key("dead", 1);
    var none: seq<Key>, ids := [], map[k := 5];
    assert Elems([k]) == {k} && IdsOf({k}) == {1};
    assert DeletedBy(t, DeadQueues(), "job", [k]) == {k, Key("other", 1)};
    assert Without(t, {k, Key("other", 1)}) == map[];
    assert [k][..0] == none;
    assert Recreate(map[], t, none, Some("home"), ids, DeadQueues(), LATE) == map[];
    assert Recreate(map[], t, [k], Some("home"), ids, DeadQueues(), LATE)
        == RedriveOne(map[], t[k], Some("home"), 5, DeadQueues(), LATE);
  }

  // An update of the job of one queue edits the job of the other.
  lemma UpdateHitsTheOther(e: Edit)
    requires e.priority == Some(7)
    ensures IsTargets(DeadAndOther(), "dead", Some(1), "", Newest, {Key("dead", 1)})
    ensures Update(DeadAndOther(), DeadQueues(), "job", {Key("dead", 1)}, e)[Key("other", 1)].terms.priority == 7
  {
    assert IdsOf({Key("dead", 1)}) == {1} by { assert Key("dead", 1) in {Key("dead", 1)}; }
    assert Key("other", 1) in Touched(DeadAndOther(), DeadQueues(), "job", {Key("dead", 1)});
  }

  // ---------- Two dead-letter jobs of one key ----------

  // Their home takes one waiting job per key.
  function TwoOfOneKey(): (t: Table)
    ensures t.Keys == {Key("dead", 1), Key("dead", 2)}
  {
    map[Key("dead", 1) := Job(Standard, Created, Some("a")), Key("dead", 2) := Job(Standard, Created, Some("a"))]
  }

  lemma OldestOfTwo()
    ensures JobStore.AreOldest(TwoOfOneKey(), DeadQueues(), "dead", Some("home"), None, 10,
                               [Key("dead", 1), Key("dead", 2)])
  {
    var order := [Key("dead", 1), Key("dead", 2)];
    assert order[0] in order && order[1] in order;
    assert Redrivable(TwoOfOneKey(), DeadQueues(), "dead", Some("home"), None, order[0]);
    assert Redrivable(TwoOfOneKey(), DeadQueues(), "dead", Some("home"), None, order[1]);
  }

  lemma TwoCanBeRedriven()
    ensures Redrives.CanBeRedriven(TwoOfOneKey(), DeadQueues(), "job", [Key("dead", 1), Key("dead", 2)], Some("home"),
                                   map[Key("dead", 1) := 5, Key("dead", 2) := 6])
  {
  }

  lemma BothAreDeleted()
    ensures var gone := DeletedBy(TwoOfOneKey(), DeadQueues(), "job", [Key("dead", 1), Key("dead", 2)]);
            Without(TwoOfOneKey(), gone) == map[]
  {
    var j, k := Key("dead", 1), Key("dead", 2);
    assert Elems([j, k]) == {j, k} && IdsOf({j, k}) == {1, 2};
    assert DeletedBy(TwoOfOneKey(), DeadQueues(), "job", [j, k]) == {j, k};
  }

  lemma OneComesHome(t: Table, j: Key, k: Key, ids: map<Key, nat>)
    requires t == TwoOfOneKey() && j == Key("dead", 1) && k == Key("dead", 2) && ids == map[j := 5, k := 6]
    ensures Recreate(map[], t, [j, k], Some("home"), ids, DeadQueues(), LATE).Keys == {Key("home", 5)}
  {
    var none: seq<Key>, queues := [], DeadQueues();
    var row := RedriveRow(queues["home"], t[j], LATE);
    assert [j][..0] == none && [j, k][..1] == [j];
    assert Recreate(map[], t, none, Some("home"), ids, queues, LATE) == map[];
    assert Recreate(map[], t, [j], Some("home"), ids, queues, LATE) == map[Key("home", 5) := row];
    assert Collide(row, RedriveRow(queues["home"], t[k], LATE));
    assert Recreate(map[], t, [j, k], Some("home"), ids, queues, LATE) == map[Key("home", 5) := row];
  }

  // The second one is dropped.
  lemma RedriveDropsTheSecond()
    ensures JobStore.AreOldest(TwoOfOneKey(), DeadQueues(), "dead", Some("home"), None, 10,
                               [Key("dead", 1), Key("dead", 2)])
    ensures Redrives.CanBeRedriven(TwoOfOneKey(), DeadQueues(), "job", [Key("dead", 1), Key("dead", 2)], Some("home"),
                                   map[Key("dead", 1) := 5, Key("dead", 2) := 6])
    ensures Redrive(TwoOfOneKey(), "job", [Key("dead", 1), Key("dead", 2)], Some("home"),
                    map[Key("dead", 1) := 5, Key("dead", 2) := 6], DeadQueues(), LATE).Keys
            == {Key("home", 5)}
  {
    OldestOfTwo();
    TwoCanBeRedriven();
    BothAreDeleted();
    OneComesHome(TwoOfOneKey(), Key("dead", 1), Key("dead", 2), map[Key("dead", 1) := 5, Key("dead", 2) := 6]);
  }

  // ---------- Cancel and resume ----------

  // A running job is cancelled and resumed: it waits again, as if it had never begun but for its clocks.
  lemma ResumedJobWaitsAgain()
    ensures var k := Key("q", 1);
            var t := map[k := Job(Standard, Active, None)];
            && Unique(t) && RowInv(t[k])
            && Resume(Cancel(t, "q", {1}, LATE), "q", {1}) == map[k := t[k].(state := Created)]
  {
    var k := Key("q", 1);
    var t := map[k := Job(Standard, Active, None)];
    var back := ResumedRows(Cancel(t, "q", {1}, LATE), "q", {1});
    assert back == map[k := t[k].(state := Created)];
  }
}
