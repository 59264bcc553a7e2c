/**
 When a batch fetch with group limits may trip over its own index. Its rank-one rows are chosen one for each key,
 and a chosen row takes a place in its group; both rows of a pair must find one.
 */
module GroupedFetch {
  import opened Outcomes
  import opened JobTable
  import opened Fetching

  // Row x, if chosen, is ranked no later than r in the group of r.
  predicate CountsFor(t: Table, x: Key, r: Key)
    requires x in t && r in t
  {
    t[r].terms.groupId.Some? && t[x].terms.groupId == t[r].terms.groupId && x.id <= r.id
  }

  // The places left for other rows if r is to pass together with `other`. Without a group none is needed.
  function Room(t: Table, name: string, limits: GroupLimits, r: Key, other: Key): int
    requires r in t && other in t
  {
    if t[r].terms.groupId.None? then 0
    else LimitFor(limits, t[r]) - |ActiveIn(t, name, t[r].terms.groupId.value)| - 1
         - if CountsFor(t, other, r) then 1 else 0
  }

  // The keys of the rows, apart from those of a pair.
  function OtherKeys(t: Table, next: set<Key>): set<Option<string>>
    requires next <= t.Keys
  {
    (set x | x in next :: t[x].singletonKey) - {None, Some("")}
  }

  // The keys of which every row counts for r.
  function Forced(t: Table, next: set<Key>, r: Key): set<Option<string>>
    requires next <= t.Keys && r in t
  {
    set key | key in OtherKeys(t, next) && forall x :: x in next && t[x].singletonKey == key ==> CountsFor(t, x, r)
  }

  // The keys of which every row counts for one of the two.
  function Contended(t: Table, next: set<Key>, j: Key, k: Key): set<Option<string>>
    requires next <= t.Keys && j in t && k in t
  {
    set key | key in OtherKeys(t, next)
              && forall x :: x in next && t[x].singletonKey == key ==> CountsFor(t, x, j) || CountsFor(t, x, k)
  }

  // There is room for the rows that cannot be avoided, for each of the two and for both together.
  predicate BothMayPass(t: Table, name: string, limits: GroupLimits, next: set<Key>, j: Key, k: Key)
    requires next <= t.Keys && j in t && k in t
  {
    && |Forced(t, next, j)| <= Room(t, name, limits, j, k)
    && |Forced(t, next, k)| <= Room(t, name, limits, k, j)
    && |Contended(t, next, j, k)| + |Forced(t, next, j) * Forced(t, next, k)|
       <= Room(t, name, limits, j, k) + Room(t, name, limits, k, j)
  }

  // ---------- What one choice charges ----------

  ghost predicate DistinctKeys(t: Table, picks: set<Key>)
    requires picks <= t.Keys
  {
    forall x, y :: x in picks && y in picks && t[x].singletonKey == t[y].singletonKey ==> x == y
  }

  function Counting(t: Table, picks: set<Key>, r: Key): set<Key>
    requires picks <= t.Keys && r in t
  {
    set x | x in picks && CountsFor(t, x, r)
  }

  function KeysOf(t: Table, rows: set<Key>): set<Option<string>>
    requires rows <= t.Keys
  {
    set x | x in rows :: t[x].singletonKey
  }

  // The keys whose chosen rows take places that count for r.
  function Charged(t: Table, picks: set<Key>, j: Key, k: Key, r: Key): set<Option<string>>
    requires picks <= t.Keys && r in t
  {
    KeysOf(t, Counting(t, picks - {j, k}, r))
  }

  lemma {:induction false} KeysAreAsMany(t: Table, rows: set<Key>)
    requires rows <= t.Keys && DistinctKeys(t, rows)
    ensures |KeysOf(t, rows)| == |rows|
  {
    if x :| x in rows {
      KeysAreAsMany(t, rows - {x});
      assert KeysOf(t, rows) == KeysOf(t, rows - {x}) + {t[x].singletonKey};
    }
  }

  lemma PeersAre(t: Table, picks: set<Key>, r: Key, other: Key)
    requires picks <= t.Keys && r in picks && other in picks && r != other && t[r].terms.groupId.Some?
    ensures |RankPeers(t, picks, r)|
            == |Counting(t, picks - {r, other}, r)| + 1 + if CountsFor(t, other, r) then 1 else 0
  {
    var rest := Counting(t, picks - {r, other}, r);
    if CountsFor(t, other, r) {
      assert RankPeers(t, picks, r) == rest + {r, other} && rest !! {r, other};
      assert |rest + {r, other}| == |rest| + |{r, other}|;
    } else {
      assert RankPeers(t, picks, r) == rest + {r};
    }
  }

  lemma ChargedAre(t: Table, picks: set<Key>, r: Key, other: Key)
    requires picks <= t.Keys && DistinctKeys(t, picks) && r in t
    ensures |Charged(t, picks, r, other, r)| == |Counting(t, picks - {r, other}, r)|
    ensures t[r].terms.groupId.None? ==> |Charged(t, picks, r, other, r)| == 0
  {
    KeysAreAsMany(t, Counting(t, picks - {r, other}, r));
    if t[r].terms.groupId.None? {
      assert Counting(t, picks - {r, other}, r) == {};
    }
  }

  // A row of the pair passes exactly if what is charged to it fits its room.
  lemma PassesIff(t: Table, name: string, limits: GroupLimits, picks: set<Key>, r: Key, other: Key)
    requires picks <= t.Keys && DistinctKeys(t, picks) && r in picks && other in picks && r != other
    ensures PassesByCount(t, name, limits, picks, r)
            <==> |Charged(t, picks, r, other, r)| <= Room(t, name, limits, r, other)
  {
    ChargedAre(t, picks, r, other);
    if t[r].terms.groupId.Some? {
      PeersAre(t, picks, r, other);
    }
  }

  lemma ChargedIsSymmetric(t: Table, picks: set<Key>, j: Key, k: Key, r: Key)
    requires picks <= t.Keys && r in t
    ensures Charged(t, picks, j, k, r) == Charged(t, picks, k, j, r)
  {
    assert {j, k} == {k, j};
  }

  // ---------- The bound is necessary ----------

  lemma ChosenCounts(t: Table, next: set<Key>, picks: set<Key>, j: Key, k: Key, r: Key, key: Option<string>)
    requires next <= t.Keys && IsRankOne(t, next, picks) && r in t
    requires j in t && k in t && t[j].singletonKey == None && t[k].singletonKey == Some("")
    requires key in Forced(t, next, r)
    ensures key in Charged(t, picks, j, k, r)
  {
    var y :| y in next && t[y].singletonKey == key;
    var x :| x in picks && t[x].singletonKey == t[y].singletonKey;
    assert x in Counting(t, picks - {j, k}, r);
  }

  lemma ContendedIsCharged(t: Table, next: set<Key>, picks: set<Key>, j: Key, k: Key, key: Option<string>)
    requires next <= t.Keys && IsRankOne(t, next, picks)
    requires j in t && k in t && t[j].singletonKey == None && t[k].singletonKey == Some("")
    requires key in Contended(t, next, j, k)
    ensures key in Charged(t, picks, j, k, j) + Charged(t, picks, j, k, k)
  {
    var y :| y in next && t[y].singletonKey == key;
    var x :| x in picks && t[x].singletonKey == t[y].singletonKey;
    assert x in Counting(t, picks - {j, k}, j) || x in Counting(t, picks - {j, k}, k);
  }

  lemma Sizes(f: set<Option<string>>, g: set<Option<string>>, all: set<Option<string>>,
              a: set<Option<string>>, b: set<Option<string>>)
    requires f <= a && g <= b && all <= a + b
    ensures |f| <= |a| && |g| <= |b| && |all| + |f * g| <= |a| + |b|
  {
    SubsetSize(f, a);
    SubsetSize(g, b);
    SubsetSize(all, a + b);
    SubsetSize(f * g, a * b);
    assert |a + b| + |a * b| == |a| + |b|;
  }

  lemma PassingIsBounded(t: Table, name: string, limits: GroupLimits, next: set<Key>, picks: set<Key>, j: Key, k: Key)
    requires next <= t.Keys && IsRankOne(t, next, picks) && j in picks && k in picks && EmptyKeyPair(t, j, k)
    requires PassesByCount(t, name, limits, picks, j) && PassesByCount(t, name, limits, picks, k)
    ensures BothMayPass(t, name, limits, next, j, k)
  {
    PassesIff(t, name, limits, picks, j, k);
    PassesIff(t, name, limits, picks, k, j);
    ChargedIsSymmetric(t, picks, j, k, k);
    forall key | key in Forced(t, next, j) ensures key in Charged(t, picks, j, k, j) {
      ChosenCounts(t, next, picks, j, k, j, key);
    }
    forall key | key in Forced(t, next, k) ensures key in Charged(t, picks, j, k, k) {
      ChosenCounts(t, next, picks, j, k, k, key);
    }
    forall key | key in Contended(t, next, j, k)
      ensures key in Charged(t, picks, j, k, j) + Charged(t, picks, j, k, k)
    {
      ContendedIsCharged(t, next, picks, j, k, key);
    }
    Sizes(Forced(t, next, j), Forced(t, next, k), Contended(t, next, j, k),
          Charged(t, picks, j, k, j), Charged(t, picks, j, k, k));
  }

  // ---------- The bound is sufficient ----------

  // A row that counts for j only if its key may be charged to j, and for k likewise.
  predicate Suits(t: Table, x: Key, j: Key, k: Key, a: set<Option<string>>, b: set<Option<string>>)
    requires x in t && j in t && k in t
  {
    (CountsFor(t, x, j) ==> t[x].singletonKey in a) && (CountsFor(t, x, k) ==> t[x].singletonKey in b)
  }

  ghost predicate HasSuiting(t: Table, next: set<Key>, key: Option<string>, j: Key, k: Key,
                             a: set<Option<string>>, b: set<Option<string>>)
    requires next <= t.Keys && j in t && k in t
  {
    exists x :: x in next && t[x].singletonKey == key && Suits(t, x, j, k, a, b)
  }

  ghost predicate AllHaveSuiting(t: Table, next: set<Key>, j: Key, k: Key,
                                 a: set<Option<string>>, b: set<Option<string>>)
    requires next <= t.Keys && j in t && k in t
  {
    forall key {:trigger HasSuiting(t, next, key, j, k, a, b)} ::
      key in OtherKeys(t, next) ==> HasSuiting(t, next, key, j, k, a, b)
  }

  lemma SuitingFor(t: Table, next: set<Key>, chosen: set<Key>, j: Key, k: Key,
                   a: set<Option<string>>, b: set<Option<string>>, y: Key) returns (x: Key)
    requires chosen <= next <= t.Keys && j in chosen && k in chosen && y in next
    requires t[j].singletonKey == None && t[k].singletonKey == Some("")
    requires forall z :: z in chosen ==> t[z].singletonKey != t[y].singletonKey
    requires AllHaveSuiting(t, next, j, k, a, b)
    ensures x in next && t[x].singletonKey == t[y].singletonKey && Suits(t, x, j, k, a, b)
  {
    assert t[y].singletonKey in OtherKeys(t, next);
    assert HasSuiting(t, next, t[y].singletonKey, j, k, a, b);
    x :| x in next && t[x].singletonKey == t[y].singletonKey && Suits(t, x, j, k, a, b);
  }

  lemma {:induction false} PicksSuiting(t: Table, next: set<Key>, chosen: set<Key>, j: Key, k: Key,
                                        a: set<Option<string>>, b: set<Option<string>>) returns (picks: set<Key>)
    requires chosen <= next <= t.Keys && j in chosen && k in chosen && DistinctKeys(t, chosen)
    requires t[j].singletonKey == None && t[k].singletonKey == Some("")
    requires AllHaveSuiting(t, next, j, k, a, b)
    requires forall x :: x in chosen - {j, k} ==> Suits(t, x, j, k, a, b)
    ensures chosen <= picks && IsRankOne(t, next, picks)
    ensures forall x :: x in picks - {j, k} ==> Suits(t, x, j, k, a, b)
    decreases next - chosen
  {
    if y :| y in next && forall x :: x in chosen ==> t[x].singletonKey != t[y].singletonKey {
      var x := SuitingFor(t, next, chosen, j, k, a, b, y);
      picks := PicksSuiting(t, next, chosen + {x}, j, k, a, b);
    } else {
      picks := chosen;
    }
  }

  lemma {:induction false} SubsetOfSize<T>(s: set<T>, n: nat) returns (r: set<T>)
    requires n <= |s|
    ensures r <= s && |r| == n
  {
    if n == 0 {
      r := {};
    } else {
      var x :| x in s;
      var rest := SubsetOfSize(s - {x}, n - 1);
      r := rest + {x};
    }
  }

  // The contended keys are shared out between the two.
  lemma Shares(f: set<Option<string>>, g: set<Option<string>>, all: set<Option<string>>, m: int, n: int)
    returns (a: set<Option<string>>, b: set<Option<string>>)
    requires f <= all && g <= all && |f| <= m && |g| <= n && |all| + |f * g| <= m + n
    ensures f <= a && g <= b && a + b == all && a * b == f * g && |a| <= m && |b| <= n
  {
    var free := all - f - g;
    assert |f + g| + |f * g| == |f| + |g|;
    assert all == f + g + free && |all| == |f + g| + |free|;
    var mine := SubsetOfSize(free, Min(|free|, m - |f|));
    a, b := f + mine, g + (free - mine);
    assert |a| == |f| + |mine|;
    assert |b| == |g| + |free - mine| && |free - mine| == |free| - |mine|;
  }

  // Whoever is charged, every other key has a row to choose.
  lemma EveryKeySuits(t: Table, next: set<Key>, j: Key, k: Key, a: set<Option<string>>, b: set<Option<string>>,
                      key: Option<string>)
    requires next <= t.Keys && j in t && k in t && key in OtherKeys(t, next)
    requires Forced(t, next, j) <= a && Forced(t, next, k) <= b && a + b == Contended(t, next, j, k)
    requires a * b == Forced(t, next, j) * Forced(t, next, k)
    ensures HasSuiting(t, next, key, j, k, a, b)
  {
    var y :| y in next && t[y].singletonKey == key;
    if key !in Contended(t, next, j, k) {
      var x :| x in next && t[x].singletonKey == key && !CountsFor(t, x, j) && !CountsFor(t, x, k);
      assert Suits(t, x, j, k, a, b);
    } else if key in a && key in b {
      assert Suits(t, y, j, k, a, b);
    } else if key in a {
      var x :| x in next && t[x].singletonKey == key && !CountsFor(t, x, k);
      assert Suits(t, x, j, k, a, b);
    } else {
      var x :| x in next && t[x].singletonKey == key && !CountsFor(t, x, j);
      assert Suits(t, x, j, k, a, b);
    }
  }

  lemma ForcedIsContended(t: Table, next: set<Key>, j: Key, k: Key)
    requires next <= t.Keys && j in t && k in t
    ensures Forced(t, next, j) <= Contended(t, next, j, k) && Forced(t, next, k) <= Contended(t, next, j, k)
  {
  }

  lemma ChargedIsWithin(t: Table, picks: set<Key>, j: Key, k: Key, a: set<Option<string>>, b: set<Option<string>>)
    requires picks <= t.Keys && j in t && k in t
    requires forall x :: x in picks - {j, k} ==> Suits(t, x, j, k, a, b)
    ensures Charged(t, picks, j, k, j) <= a && Charged(t, picks, j, k, k) <= b
  {
  }

  lemma ChoiceThatPasses(t: Table, name: string, limits: GroupLimits, next: set<Key>, j: Key, k: Key)
    returns (picks: set<Key>)
    requires next <= t.Keys && j in next && k in next && EmptyKeyPair(t, j, k)
    requires BothMayPass(t, name, limits, next, j, k)
    ensures IsRankOne(t, next, picks) && j in picks && k in picks
    ensures PassesByCount(t, name, limits, picks, j) && PassesByCount(t, name, limits, picks, k)
  {
    ForcedIsContended(t, next, j, k);
    var a, b := Shares(Forced(t, next, j), Forced(t, next, k), Contended(t, next, j, k),
                       Room(t, name, limits, j, k), Room(t, name, limits, k, j));
    forall key | key in OtherKeys(t, next) ensures HasSuiting(t, next, key, j, k, a, b) {
      EveryKeySuits(t, next, j, k, a, b, key);
    }
    picks := PicksSuiting(t, next, {j, k}, j, k, a, b);
    ChargedIsWithin(t, picks, j, k, a, b);
    SubsetSize(Charged(t, picks, j, k, j), a);
    SubsetSize(Charged(t, picks, j, k, k), b);
    ChargedIsSymmetric(t, picks, j, k, k);
    PassesIff(t, name, limits, picks, j, k);
    PassesIff(t, name, limits, picks, k, j);
  }

  // ---------- The fetch ----------

  // For a candidate, both forms of the group filter count the same.
  lemma ClaimedIff(t: Table, name: string, o: Options, picks: set<Key>, r: Key)
    requires picks <= t.Keys && r in picks && o.groups.Some? && Open(t, name, o, t[r])
    ensures r in Claimed(t, name, o, picks) <==> PassesByCount(t, name, o.groups.value, picks, r)
  {
    if UsesProbe(o.groups.value) && t[r].terms.groupId.Some? {
      assert ActiveIn(t, name, t[r].terms.groupId.value) == {};
    }
  }

  ghost predicate HoldsPassingPair(t: Table, name: string, limits: GroupLimits, next: set<Key>)
    requires next <= t.Keys
  {
    exists j, k :: j in next && k in next && EmptyKeyPair(t, j, k) && BothMayPass(t, name, limits, next, j, k)
  }

  lemma SourceIsRankOne(t: Table, name: string, policy: Policy, o: Options, now: real, next: seq<Key>,
                        source: set<Key>)
    requires IsNext(t, o, o.limit, Candidates(t, name, o, now), next) && IsSource(t, name, policy, o, now, source)
    requires RanksSingletons(policy, o)
    ensures IsRankOne(t, Elems(next), source)
  {
    var its: seq<Key> :| IsNext(t, o, o.limit, Candidates(t, name, o, now), its) && IsRankOne(t, Elems(its), source);
    NextIsDetermined(t, o, o.limit, Candidates(t, name, o, now), its, next);
  }

  ghost predicate Trips(t: Table, name: string, policy: Policy, o: Options, now: real, source: set<Key>) {
    && IsSource(t, name, policy, o, now, source) && source <= t.Keys
    && !Unique(ClaimRows(t, Claimed(t, name, o, source), now))
  }

  lemma TrippingPairPasses(t: Table, name: string, policy: Policy, o: Options, now: real, next: seq<Key>,
                           source: set<Key>)
    requires Unique(t) && FollowsPolicy(t, name, policy) && IgnoresActiveKeys(t, name, o) && o.groups.Some?
    requires IsNext(t, o, o.limit, Candidates(t, name, o, now), next) && Trips(t, name, policy, o, now, source)
    ensures HoldsPassingPair(t, name, o.groups.value, Elems(next))
  {
    var claimed := Claimed(t, name, o, source);
    assert HoldsEmptyKeyPair(t, claimed) by { BatchFetchIsValidIff(t, name, policy, o, now, source); }
    var j, k :| j in claimed && k in claimed && EmptyKeyPair(t, j, k);
    assert source <= Elems(next) by { SourceIsWithinNext(t, name, policy, o, now, next, source); }
    assert j in Elems(next) && k in Elems(next);
    assert RanksSingletons(policy, o) by { PairIsRanked(t, name, policy, o, now, next); }
    SourceIsRankOne(t, name, policy, o, now, next, source);
    ClaimedIff(t, name, o, source, j);
    ClaimedIff(t, name, o, source, k);
    PassingIsBounded(t, name, o.groups.value, Elems(next), source, j, k);
  }

  lemma ChoiceTrips(t: Table, name: string, policy: Policy, o: Options, now: real, next: seq<Key>, source: set<Key>,
                    j: Key, k: Key)
    requires Unique(t) && FollowsPolicy(t, name, policy) && IgnoresActiveKeys(t, name, o) && o.groups.Some?
    requires IsNext(t, o, o.limit, Candidates(t, name, o, now), next) && IsRankOne(t, Elems(next), source)
    requires j in source && k in source && EmptyKeyPair(t, j, k)
    requires PassesByCount(t, name, o.groups.value, source, j) && PassesByCount(t, name, o.groups.value, source, k)
    ensures Trips(t, name, policy, o, now, source)
  {
    assert RanksSingletons(policy, o) by {
      assert HoldsEmptyKeyPair(t, Elems(next));
      PairIsRanked(t, name, policy, o, now, next);
    }
    assert IsSource(t, name, policy, o, now, source);
    assert HoldsEmptyKeyPair(t, Claimed(t, name, o, source)) by {
      assert j in Elems(next) && k in Elems(next);
      ClaimedIff(t, name, o, source, j);
      ClaimedIff(t, name, o, source, k);
    }
    BatchFetchIsValidIff(t, name, policy, o, now, source);
  }

  lemma PassingPairTrips(t: Table, name: string, policy: Policy, o: Options, now: real, next: seq<Key>)
    returns (source: set<Key>)
    requires Unique(t) && FollowsPolicy(t, name, policy) && IgnoresActiveKeys(t, name, o) && o.groups.Some?
    requires IsNext(t, o, o.limit, Candidates(t, name, o, now), next)
    requires HoldsPassingPair(t, name, o.groups.value, Elems(next))
    ensures Trips(t, name, policy, o, now, source)
  {
    var j, k :| j in Elems(next) && k in Elems(next) && EmptyKeyPair(t, j, k)
                && BothMayPass(t, name, o.groups.value, Elems(next), j, k);
    source := ChoiceThatPasses(t, name, o.groups.value, Elems(next), j, k);
    ChoiceTrips(t, name, policy, o, now, next, source, j, k);
  }

  // With group limits some ranking trips an index exactly if the rows up to the limit hold a keyless one and one
  // with the empty key for which the groups have room.
  lemma GroupedFetchMayTripIff(t: Table, name: string, policy: Policy, o: Options, now: real, next: seq<Key>)
    requires Unique(t) && FollowsPolicy(t, name, policy) && IgnoresActiveKeys(t, name, o) && o.groups.Some?
    requires IsNext(t, o, o.limit, Candidates(t, name, o, now), next)
    ensures (exists source :: Trips(t, name, policy, o, now, source))
            <==> HoldsPassingPair(t, name, o.groups.value, Elems(next))
  {
    if HoldsPassingPair(t, name, o.groups.value, Elems(next)) {
      var source := PassingPairTrips(t, name, policy, o, now, next);
    }
    if source :| Trips(t, name, policy, o, now, source) {
      TrippingPairPasses(t, name, policy, o, now, next, source);
    }
  }

  // What a caller can check before a fetch, with or without group limits.
  ghost predicate MayTrip(t: Table, name: string, o: Options, next: set<Key>)
    requires next <= t.Keys
  {
    match o.groups
    case None => HoldsEmptyKeyPair(t, next)
    case Some(limits) => HoldsPassingPair(t, name, limits, next)
  }

  lemma UngroupedTrips(t: Table, name: string, policy: Policy, o: Options, now: real, source: set<Key>)
    requires o.groups.None?
    ensures Trips(t, name, policy, o, now, source)
            <==> IsSource(t, name, policy, o, now, source) && !Unique(ClaimRows(t, source, now))
  {
    if IsSource(t, name, policy, o, now, source) {
      assert source <= t.Keys by { SourceIsCandidates(t, name, policy, o, now, source); }
    }
  }

  lemma PairTrips(t: Table, name: string, policy: Policy, o: Options, now: real, next: seq<Key>)
    returns (source: set<Key>)
    requires Unique(t) && FollowsPolicy(t, name, policy) && IgnoresActiveKeys(t, name, o) && o.groups.None?
    requires IsNext(t, o, o.limit, Candidates(t, name, o, now), next) && HoldsEmptyKeyPair(t, Elems(next))
    ensures Trips(t, name, policy, o, now, source)
  {
    source := PickPair(t, o, next);
    PairIsClaimed(t, name, policy, o, now, next, source);
    UngroupedTrips(t, name, policy, o, now, source);
  }

  lemma UngroupedFetchMayTripIff(t: Table, name: string, policy: Policy, o: Options, now: real, next: seq<Key>)
    requires Unique(t) && FollowsPolicy(t, name, policy) && IgnoresActiveKeys(t, name, o) && o.groups.None?
    requires IsNext(t, o, o.limit, Candidates(t, name, o, now), next)
    ensures (exists source :: Trips(t, name, policy, o, now, source)) <==> HoldsEmptyKeyPair(t, Elems(next))
  {
    if HoldsEmptyKeyPair(t, Elems(next)) {
      var source := PairTrips(t, name, policy, o, now, next);
    } else if source :| Trips(t, name, policy, o, now, source) {
      TripsOnlyOnEmptyKeyPair(t, name, policy, o, now, next, source);
    }
  }

  lemma FetchMayTripIff(t: Table, name: string, policy: Policy, o: Options, now: real, next: seq<Key>)
    requires Unique(t) && FollowsPolicy(t, name, policy) && IgnoresActiveKeys(t, name, o)
    requires IsNext(t, o, o.limit, Candidates(t, name, o, now), next)
    ensures (exists source :: Trips(t, name, policy, o, now, source)) <==> MayTrip(t, name, o, Elems(next))
  {
    if o.groups.Some? {
      GroupedFetchMayTripIff(t, name, policy, o, now, next);
    } else {
      UngroupedFetchMayTripIff(t, name, policy, o, now, next);
    }
  }
}
