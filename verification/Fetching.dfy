/**
 Claiming jobs: filter, order, LIMIT, singleton ranking, group ranking, group filter, claim.
 The stages are pure functions over the table; where the query leaves an order open (which job of
 a singleton partition is ranked first), every choice is allowed.
 */
module Fetching {
  import opened Outcomes
  import opened JobTable

  datatype GroupLimits = GroupLimits(default: nat, tiers: map<string, nat>)

  datatype Options = Options(
    limit: nat,
    priority: bool,
    orderByCreatedOn: bool,
    ignoreStartAfter: bool,
    ignoreSingletons: seq<Option<string>>,
    ignoreGroups: seq<string>,
    groups: Option<GroupLimits>,
    minPriority: Option<int>,
    maxPriority: Option<int>)

  function ActiveIn(t: Table, name: string, g: string): set<Key> {
    set k | k in t && k.name == name && t[k].state == Active && t[k].terms.groupId == Some(g)
  }

  function LimitFor(limits: GroupLimits, r: Row): nat {
    if r.terms.groupTier.Some? && r.terms.groupTier.value in limits.tiers then limits.tiers[r.terms.groupTier.value]
    else limits.default
  }

  // The WHERE clause up to the group filter.
  predicate Fetchable(name: string, o: Options, now: real, k: Key, r: Row) {
    && k.name == name
    && Before(r.state, Active)
    && !r.blocked
    && (o.ignoreStartAfter || r.startAfter <= now)
    && (forall x :: x in o.ignoreSingletons ==> x.GetOr("") != KeyText(r))
    && (r.terms.groupId.Some? ==> r.terms.groupId.value !in o.ignoreGroups)
    && (o.minPriority.Some? ==> o.minPriority.value <= r.terms.priority)
    && (o.maxPriority.Some? ==> r.terms.priority <= o.maxPriority.value)
  }

  // The limit-1 form is used when the default is 1 and there are no tiers.
  predicate UsesProbe(limits: GroupLimits) {
    limits.default == 1 && limits.tiers == map[]
  }

  // General group filter: the active count of the group is below the row's limit.
  predicate OpenByCount(t: Table, name: string, limits: GroupLimits, r: Row) {
    r.terms.groupId.Some? ==> |ActiveIn(t, name, r.terms.groupId.value)| < LimitFor(limits, r)
  }

  // Limit-1 group filter: no active row of the group exists.
  predicate OpenByProbe(t: Table, name: string, r: Row) {
    r.terms.groupId.Some? ==>
      !exists k :: k in t && k.name == name && t[k].state == Active && t[k].terms.groupId == r.terms.groupId
  }

  predicate Open(t: Table, name: string, o: Options, r: Row) {
    match o.groups
    case None => true
    case Some(limits) => if UsesProbe(limits) then OpenByProbe(t, name, r) else OpenByCount(t, name, limits, r)
  }

  function Candidates(t: Table, name: string, o: Options, now: real): set<Key> {
    set k | k in t && Fetchable(name, o, now, k, t[k]) && Open(t, name, o, t[k])
  }

  // ORDER BY priority DESC, created_on, id, with the first two optional.
  predicate Precedes(t: Table, o: Options, j: Key, k: Key)
    requires j in t && k in t
  {
    if o.priority && t[j].terms.priority != t[k].terms.priority then t[j].terms.priority > t[k].terms.priority
    else if o.orderByCreatedOn && t[j].createdOn != t[k].createdOn then t[j].createdOn < t[k].createdOn
    else j.id < k.id
  }

  // `next`: the first `limit` candidates in that order.
  ghost predicate IsNext(t: Table, o: Options, limit: nat, candidates: set<Key>, next: seq<Key>)
    requires candidates <= t.Keys
  {
    && (forall k :: k in next ==> k in candidates)
    && (forall i, j :: 0 <= i < j < |next| ==> Precedes(t, o, next[i], next[j]))
    && |next| <= limit
    && (forall k :: k in candidates && k !in next ==>
          |next| == limit && forall j :: j in next ==> Precedes(t, o, j, k))
  }

  predicate RanksSingletons(policy: Policy, o: Options) {
    o.limit > 1 && (policy == Singleton || policy == Stately)
  }

  // row_number() = 1 over partitions by the raw singleton key, in no particular order.
  ghost predicate IsRankOne(t: Table, next: set<Key>, picks: set<Key>)
    requires next <= t.Keys
  {
    && picks <= next
    && (forall j, k :: j in picks && k in picks && t[j].singletonKey == t[k].singletonKey ==> j == k)
    && (forall k :: k in next ==> exists j :: j in picks && t[j].singletonKey == t[k].singletonKey)
  }

  // What the group stages see: the rows of `next`, or its rank-one rows.
  ghost predicate IsSource(t: Table, name: string, policy: Policy, o: Options, now: real, source: set<Key>) {
    exists next: seq<Key> ::
      && IsNext(t, o, o.limit, Candidates(t, name, o, now), next)
      && if RanksSingletons(policy, o) then IsRankOne(t, Elems(next), source) else source == Elems(next)
  }

  // ROW_NUMBER() OVER (PARTITION BY group_id ORDER BY id)
  function RankPeers(t: Table, source: set<Key>, k: Key): set<Key>
    requires source <= t.Keys && k in t
  {
    set j | j in source && t[j].terms.groupId == t[k].terms.groupId && j.id <= k.id
  }

  predicate PassesByCount(t: Table, name: string, limits: GroupLimits, source: set<Key>, k: Key)
    requires source <= t.Keys && k in t
  {
    t[k].terms.groupId.Some? ==>
      |ActiveIn(t, name, t[k].terms.groupId.value)| + |RankPeers(t, source, k)| <= LimitFor(limits, t[k])
  }

  predicate PassesByRank(t: Table, limits: GroupLimits, source: set<Key>, k: Key)
    requires source <= t.Keys && k in t
  {
    t[k].terms.groupId.Some? ==> |RankPeers(t, source, k)| <= LimitFor(limits, t[k])
  }

  function Claimed(t: Table, name: string, o: Options, source: set<Key>): set<Key>
    requires source <= t.Keys
  {
    match o.groups
    case None => source
    case Some(limits) =>
      if UsesProbe(limits) then set k | k in source && PassesByRank(t, limits, source, k)
      else set k | k in source && PassesByCount(t, name, limits, source, k)
  }

  function ClaimRow(r: Row, now: real): Row {
    r.(state := Active, startedOn := Some(now), heartbeatOn := Some(now),
       retryCount := if r.startedOn.Some? then r.retryCount + 1 else r.retryCount)
  }

  function ClaimRows(t: Table, claimed: set<Key>, now: real): Table {
    map k | k in t :: if k in claimed then ClaimRow(t[k], now) else t[k]
  }

  // ---------- A selection always exists ----------

  lemma PrecedesIsTotalOrder(t: Table, o: Options, i: Key, j: Key, k: Key)
    requires i in t && j in t && k in t
    ensures i.id != j.id ==> Precedes(t, o, i, j) || Precedes(t, o, j, i)
    ensures Precedes(t, o, i, j) && Precedes(t, o, j, k) ==> Precedes(t, o, i, k)
  {
  }

  lemma {:induction false} FirstExists(t: Table, o: Options, ks: set<Key>, name: string) returns (first: Key)
    requires ks != {} && ks <= t.Keys && forall k :: k in ks ==> k.name == name
    ensures first in ks && forall j :: j in ks && j != first ==> Precedes(t, o, first, j)
  {
    var x :| x in ks;
    if ks == {x} {
      first := x;
    } else {
      var y := FirstExists(t, o, ks - {x}, name);
      assert x.id != y.id;
      first := if Precedes(t, o, x, y) then x else y;
      forall j | j in ks && j != first
        ensures Precedes(t, o, first, j)
      {
        PrecedesIsTotalOrder(t, o, x, y, j);
      }
    }
  }

  // Some `next` meets the ORDER BY and LIMIT, whatever the table.
  lemma {:induction false} NextExists(t: Table, o: Options, limit: nat, ks: set<Key>, name: string)
    returns (next: seq<Key>)
    requires ks <= t.Keys && forall k :: k in ks ==> k.name == name
    ensures IsNext(t, o, limit, ks, next)
  {
    if limit == 0 || ks == {} {
      next := [];
    } else {
      var k := FirstExists(t, o, ks, name);
      var rest := NextExists(t, o, limit - 1, ks - {k}, name);
      next := [k] + rest;
      assert forall j :: j in next <==> j == k || j in rest;
      forall i, j | 0 <= i < j < |next|
        ensures Precedes(t, o, next[i], next[j])
      {
        assert next[j] == rest[j - 1] && rest[j - 1] in rest;
        if i > 0 {
          assert next[i] == rest[i - 1];
        }
      }
    }
  }

  // Any rows with different keys can be among the rank-one rows.
  lemma {:induction false} PicksExtend(t: Table, next: set<Key>, chosen: set<Key>) returns (picks: set<Key>)
    requires chosen <= next <= t.Keys
    requires forall j, k :: j in chosen && k in chosen && t[j].singletonKey == t[k].singletonKey ==> j == k
    ensures chosen <= picks && IsRankOne(t, next, picks)
    decreases next - chosen
  {
    if k :| k in next && forall j :: j in chosen ==> t[j].singletonKey != t[k].singletonKey {
      picks := PicksExtend(t, next, chosen + {k});
    } else {
      picks := chosen;
    }
  }

  // Every fetch has something to work on: a selection in order and within the limit, and its rank-one rows.
  lemma SourceExists(t: Table, name: string, policy: Policy, o: Options, now: real) returns (source: set<Key>)
    ensures IsSource(t, name, policy, o, now, source)
  {
    var next := NextExists(t, o, o.limit, Candidates(t, name, o, now), name);
    source := Elems(next);
    if RanksSingletons(policy, o) {
      source := PicksExtend(t, Elems(next), {});
    }
    assert IsNext(t, o, o.limit, Candidates(t, name, o, now), next);
  }

  lemma {:induction false} NextIsDistinct(t: Table, o: Options, next: seq<Key>)
    requires Elems(next) <= t.Keys
    requires forall i, j :: 0 <= i < j < |next| ==> Precedes(t, o, next[i], next[j])
    ensures |Elems(next)| == |next|
  {
    if next != [] {
      var n := |next| - 1;
      assert Elems(next) == Elems(next[..n]) + {next[n]};
      NextIsDistinct(t, o, next[..n]);
      forall i | 0 <= i < n ensures next[i] != next[n] {
        assert Precedes(t, o, next[i], next[n]);
      }
    }
  }

  lemma NextIsWithin(t: Table, o: Options, limit: nat, ks: set<Key>, a: seq<Key>, b: seq<Key>, k: Key)
    requires ks <= t.Keys && IsNext(t, o, limit, ks, a) && IsNext(t, o, limit, ks, b)
    requires k in a
    ensures k in b
  {
    if k !in b {
      assert k in Elems(a);
      NextIsDistinct(t, o, a);
      NextIsDistinct(t, o, b);
      forall j | j in Elems(b) ensures j in Elems(a) {
        assert Precedes(t, o, j, k);
      }
      SubsetSize(Elems(b), Elems(a));
    }
  }

  // ORDER BY and LIMIT leave no choice of rows.
  lemma NextIsDetermined(t: Table, o: Options, limit: nat, ks: set<Key>, a: seq<Key>, b: seq<Key>)
    requires ks <= t.Keys && IsNext(t, o, limit, ks, a) && IsNext(t, o, limit, ks, b)
    ensures Elems(a) == Elems(b)
  {
    forall k | k in Elems(a) || k in Elems(b) ensures k in Elems(a) && k in Elems(b) {
      if k in a {
        NextIsWithin(t, o, limit, ks, a, b, k);
      } else {
        NextIsWithin(t, o, limit, ks, b, a, k);
      }
    }
  }

  // ---------- Group concurrency ----------

  // No tier or default exceeds m.
  predicate CapsBy(limits: GroupLimits, m: nat) {
    limits.default <= m && forall tier :: tier in limits.tiers ==> limits.tiers[tier] <= m
  }

  lemma {:induction false} HighestId(ks: set<Key>) returns (top: Key)
    requires ks != {}
    ensures top in ks && forall j :: j in ks ==> j.id <= top.id
  {
    top :| top in ks;
    if ks != {top} {
      var y := HighestId(ks - {top});
      if top.id < y.id {
        top := y;
      }
    }
  }

  function InGroup(t: Table, ks: set<Key>, g: string): set<Key>
    requires ks <= t.Keys
  {
    set k | k in ks && t[k].terms.groupId == Some(g)
  }

  // The members of a group that are claimed: their number and the active count stay within the cap.
  lemma ClaimedInGroupFits(t: Table, name: string, o: Options, source: set<Key>, g: string, m: nat)
    requires source <= t.Keys && o.groups.Some? && CapsBy(o.groups.value, m)
    requires forall k :: k in source ==> Open(t, name, o, t[k])
    requires |ActiveIn(t, name, g)| <= m
    ensures |ActiveIn(t, name, g)| + |InGroup(t, Claimed(t, name, o, source), g)| <= m
  {
    var mine := InGroup(t, Claimed(t, name, o, source), g);
    if mine != {} {
      var k := HighestId(mine);
      SubsetSize(mine, RankPeers(t, source, k));
      if UsesProbe(o.groups.value) {
        assert OpenByProbe(t, name, t[k]);
        assert ActiveIn(t, name, g) == {};
      }
    }
  }

  lemma ActiveAfterClaim(t: Table, name: string, claimed: set<Key>, now: real, n: string, g: string)
    requires claimed <= t.Keys && forall k :: k in claimed ==> k.name == name && t[k].state != Active
    ensures |ActiveIn(ClaimRows(t, claimed, now), n, g)|
            == |ActiveIn(t, n, g)| + if n == name then |InGroup(t, claimed, g)| else 0
  {
    var mine := if n == name then InGroup(t, claimed, g) else {};
    assert ActiveIn(ClaimRows(t, claimed, now), n, g) == ActiveIn(t, n, g) + mine by {
      forall k | k in t
        ensures k in ActiveIn(ClaimRows(t, claimed, now), n, g) <==> k in ActiveIn(t, n, g) || k in mine
      {
        ActiveRowAfterClaim(t, claimed, now, n, g, k);
      }
    }
    assert ActiveIn(t, n, g) !! mine;
  }

  lemma ActiveRowAfterClaim(t: Table, claimed: set<Key>, now: real, n: string, g: string, k: Key)
    requires claimed <= t.Keys && k in t
    ensures k in ActiveIn(ClaimRows(t, claimed, now), n, g)
            <==> k.name == n && t[k].terms.groupId == Some(g) && (t[k].state == Active || k in claimed)
  {
  }

  // A fetch keeps the active jobs of every group within the cap (the maximum of the default and
  // the tier limits when tiers are mixed).
  lemma FetchKeepsGroupCap(t: Table, name: string, policy: Policy, o: Options, now: real, source: set<Key>,
                      g: string, m: nat)
    requires IsSource(t, name, policy, o, now, source)
    requires o.groups.Some? && CapsBy(o.groups.value, m) && |ActiveIn(t, name, g)| <= m
    ensures |ActiveIn(ClaimRows(t, Claimed(t, name, o, source), now), name, g)| <= m
  {
    SourceIsCandidates(t, name, policy, o, now, source);
    ClaimedInGroupFits(t, name, o, source, g, m);
    ActiveAfterClaim(t, name, Claimed(t, name, o, source), now, name, g);
  }

  lemma SourceIsCandidates(t: Table, name: string, policy: Policy, o: Options, now: real, source: set<Key>)
    requires IsSource(t, name, policy, o, now, source)
    ensures source <= Candidates(t, name, o, now) <= t.Keys
    ensures |source| <= o.limit
  {
    var next: seq<Key> :| IsNext(t, o, o.limit, Candidates(t, name, o, now), next)
                          && if RanksSingletons(policy, o) then IsRankOne(t, Elems(next), source)
                             else source == Elems(next);
    ElemsSize(next);
    SubsetSize(source, Elems(next));
  }

  lemma {:induction false} ElemsSize(s: seq<Key>)
    ensures |Elems(s)| <= |s|
  {
    if s != [] {
      ElemsSize(s[1..]);
      assert Elems(s) == Elems(s[1..]) + {s[0]};
    }
  }

  // Each fetch claims at most `limit` jobs, only eligible ones, and never drops an ungrouped one.
  lemma FetchIsBounded(t: Table, name: string, policy: Policy, o: Options, now: real, source: set<Key>)
    requires IsSource(t, name, policy, o, now, source)
    ensures var claimed := Claimed(t, name, o, source);
            && |claimed| <= o.limit
            && (forall k :: k in claimed ==> k in t && Fetchable(name, o, now, k, t[k]))
            && (forall k :: k in source && t[k].terms.groupId.None? ==> k in claimed)
  {
    SourceIsCandidates(t, name, policy, o, now, source);
    SubsetSize(Claimed(t, name, o, source), source);
  }

  // With one limit for everybody, a group is filled exactly as far as its limit allows.
  lemma FetchFillsGroups(t: Table, name: string, policy: Policy, o: Options, now: real, source: set<Key>, g: string)
    requires IsSource(t, name, policy, o, now, source)
    requires o.groups.Some? && o.groups.value.tiers == map[]
    requires |ActiveIn(t, name, g)| <= o.groups.value.default
    ensures var room := o.groups.value.default - |ActiveIn(t, name, g)|;
            var there := |InGroup(t, source, g)|;
            |InGroup(t, Claimed(t, name, o, source), g)| == if there < room then there else room
  {
    assert source <= Candidates(t, name, o, now) by { SourceIsCandidates(t, name, policy, o, now, source); }
    var room := o.groups.value.default - |ActiveIn(t, name, g)|;
    var mine := InGroup(t, source, g);
    forall k | k in mine
      ensures k in Claimed(t, name, o, source) <==> |UpTo(mine, k)| <= room
    {
      MemberPasses(t, name, o, now, source, g, k);
    }
    assert InGroup(t, Claimed(t, name, o, source), g) == set k | k in mine && |UpTo(mine, k)| <= room;
    assert |InGroup(t, Claimed(t, name, o, source), g)| == if |mine| < room then |mine| else room by {
      LowRanks(mine, room, name);
    }
  }

  lemma MemberPasses(t: Table, name: string, o: Options, now: real, source: set<Key>, g: string, k: Key)
    requires source <= Candidates(t, name, o, now) && k in InGroup(t, source, g)
    requires o.groups.Some? && o.groups.value.tiers == map[]
    ensures k in Claimed(t, name, o, source)
            <==> |UpTo(InGroup(t, source, g), k)| <= o.groups.value.default - |ActiveIn(t, name, g)|
  {
    assert RankPeers(t, source, k) == UpTo(InGroup(t, source, g), k);
    if UsesProbe(o.groups.value) {
      assert OpenByProbe(t, name, t[k]);
      assert ActiveIn(t, name, g) == {};
    }
  }

  function UpTo(ks: set<Key>, k: Key): set<Key> {
    set j | j in ks && j.id <= k.id
  }

  lemma {:induction false} LowRanks(ks: set<Key>, n: nat, name: string)
    requires forall k :: k in ks ==> k.name == name
    ensures |set k | k in ks && |UpTo(ks, k)| <= n| == if |ks| < n then |ks| else n
  {
    if ks == {} {
      assert (set k | k in ks && |UpTo(ks, k)| <= n) == {};
    } else {
      var top := HighestId(ks);
      var rest := ks - {top};
      LowRanks(rest, n, name);
      forall k | k in rest
        ensures UpTo(ks, k) == UpTo(rest, k)
      {
        assert k.id < top.id;
      }
      assert UpTo(ks, top) == ks;
      var low := set k | k in rest && |UpTo(rest, k)| <= n;
      assert (set k | k in ks && |UpTo(ks, k)| <= n) == if |ks| <= n then low + {top} else low;
    }
  }

  // ---------- The limit-1 form refines the general one ----------

  lemma ProbeIsCount(t: Table, name: string, limits: GroupLimits, r: Row)
    requires UsesProbe(limits)
    ensures OpenByProbe(t, name, r) <==> OpenByCount(t, name, limits, r)
  {
    if r.terms.groupId.Some? {
      var active := ActiveIn(t, name, r.terms.groupId.value);
      if OpenByProbe(t, name, r) {
        assert active == {};
      } else {
        var k :| k in t && k.name == name && t[k].state == Active && t[k].terms.groupId == r.terms.groupId;
        assert k in active;
      }
    }
  }

  // The probe, with its constant active count 0, selects the same candidates and claims the same
  // jobs as counting, for every table and batch size.
  lemma ProbeRefinesCounting(t: Table, name: string, policy: Policy, o: Options, now: real, source: set<Key>)
    requires o.groups.Some? && UsesProbe(o.groups.value) && IsSource(t, name, policy, o, now, source)
    ensures Candidates(t, name, o, now)
            == set k | k in t && Fetchable(name, o, now, k, t[k]) && OpenByCount(t, name, o.groups.value, t[k])
    ensures Claimed(t, name, o, source) == set k | k in source && PassesByCount(t, name, o.groups.value, source, k)
  {
    forall k | k in t
      ensures OpenByProbe(t, name, t[k]) <==> OpenByCount(t, name, o.groups.value, t[k])
    {
      ProbeIsCount(t, name, o.groups.value, t[k]);
    }
    SourceIsCandidates(t, name, policy, o, now, source);
    forall k | k in source
      ensures PassesByRank(t, o.groups.value, source, k) <==> PassesByCount(t, name, o.groups.value, source, k)
    {
      assert OpenByCount(t, name, o.groups.value, t[k]);
    }
  }

  // ---------- Policy indexes ----------

  predicate SameSlot(r: Row, s: Row) {
    && KeyText(r) == KeyText(s) && r.policy == s.policy
    && (r.policy == Some(Singleton) || r.policy == Some(Stately))
  }

  lemma CollisionAfterClaim(r: Row, s: Row, takeR: bool, takeS: bool, now: real)
    requires !Collide(r, s)
    requires (takeR ==> Before(r.state, Active)) && (takeS ==> Before(s.state, Active))
    ensures var r' := if takeR then ClaimRow(r, now) else r;
            var s' := if takeS then ClaimRow(s, now) else s;
            Collide(r', s') <==> SameSlot(r, s) && (takeR || takeS) && r'.state == Active && s'.state == Active
  {
  }

  // Two rows that a claim would put into one slot of the singleton or the stately index.
  ghost predicate Clash(t: Table, claimed: set<Key>, j: Key, k: Key)
    requires j in t && k in t
  {
    j != k && j.name == k.name && SameSlot(t[j], t[k]) && k in claimed && (j in claimed || t[j].state == Active)
  }

  // A claim breaks no unique index exactly when no claimed job of a singleton or stately queue
  // shares its coalesced key with an active job or with another claimed one.
  lemma ClaimIsValidIff(t: Table, claimed: set<Key>, now: real)
    requires Unique(t) && claimed <= t.Keys && forall k :: k in claimed ==> Before(t[k].state, Active)
    ensures Unique(ClaimRows(t, claimed, now)) <==> forall j, k :: j in t && k in t ==> !Clash(t, claimed, j, k)
  {
    var t' := ClaimRows(t, claimed, now);
    forall j, k | j in t && k in t && j != k && j.name == k.name
      ensures Collide(t'[j], t'[k]) <==> Clash(t, claimed, j, k) || Clash(t, claimed, k, j)
    {
      CollisionAfterClaim(t[j], t[k], j in claimed, k in claimed, now);
    }
  }

  // The cached list of active keys is complete for this queue; it is kept for these two policies only.
  predicate IgnoresActiveKeys(t: Table, name: string, o: Options) {
    forall k :: k in t && k.name == name && t[k].state == Active
                && (t[k].policy == Some(Singleton) || t[k].policy == Some(Stately)) ==>
      exists x :: x in o.ignoreSingletons && x.GetOr("") == KeyText(t[k])
  }

  predicate FollowsPolicy(t: Table, name: string, policy: Policy) {
    forall k :: k in t && k.name == name ==> t[k].policy == None || t[k].policy == Some(policy)
  }

  // A keyless job and a job whose key is the empty string: one index slot, two partitions.
  predicate EmptyKeyPair(t: Table, j: Key, k: Key)
    requires j in t && k in t
  {
    SameSlot(t[j], t[k]) && t[j].singletonKey == None && t[k].singletonKey == Some("")
  }

  ghost predicate HoldsEmptyKeyPair(t: Table, ks: set<Key>)
    requires ks <= t.Keys
  {
    exists j, k :: j in ks && k in ks && EmptyKeyPair(t, j, k)
  }

  lemma ClashIsEmptyKeyPair(t: Table, name: string, policy: Policy, o: Options, now: real, source: set<Key>, j: Key,
                            k: Key)
    requires FollowsPolicy(t, name, policy) && IgnoresActiveKeys(t, name, o)
    requires IsSource(t, name, policy, o, now, source)
    requires j in t && k in t && Clash(t, Claimed(t, name, o, source), j, k)
    ensures j in Claimed(t, name, o, source)
    ensures EmptyKeyPair(t, j, k) || EmptyKeyPair(t, k, j)
  {
    SourceIsCandidates(t, name, policy, o, now, source);
    assert k in source && Fetchable(name, o, now, k, t[k]);
    ClaimedKeysDiffer(t, name, policy, o, now, source, j, k);
  }

  // With a complete list, a batch fetch trips its own index exactly when it claims such a pair.
  lemma BatchFetchIsValidIff(t: Table, name: string, policy: Policy, o: Options, now: real, source: set<Key>)
    requires Unique(t) && FollowsPolicy(t, name, policy) && IgnoresActiveKeys(t, name, o)
    requires IsSource(t, name, policy, o, now, source)
    ensures var claimed := Claimed(t, name, o, source);
            claimed <= t.Keys
            && (Unique(ClaimRows(t, claimed, now)) <==> !HoldsEmptyKeyPair(t, claimed))
  {
    SourceIsCandidates(t, name, policy, o, now, source);
    var claimed := Claimed(t, name, o, source);
    ClaimIsValidIff(t, claimed, now);
    forall j, k | j in t && k in t && Clash(t, claimed, j, k)
      ensures j in claimed && (EmptyKeyPair(t, j, k) || EmptyKeyPair(t, k, j))
    {
      ClashIsEmptyKeyPair(t, name, policy, o, now, source, j, k);
    }
    forall j, k | j in claimed && k in claimed && EmptyKeyPair(t, j, k)
      ensures Clash(t, claimed, j, k)
    {
      assert Fetchable(name, o, now, j, t[j]) && Fetchable(name, o, now, k, t[k]);
    }
  }

  lemma ClaimedKeysDiffer(t: Table, name: string, policy: Policy, o: Options, now: real, source: set<Key>, j: Key,
                          k: Key)
    requires FollowsPolicy(t, name, policy) && IsSource(t, name, policy, o, now, source)
    requires j in t && k in source && j != k && k in t && j.name == name
    requires t[j].policy == Some(Singleton) || t[j].policy == Some(Stately)
    ensures j in source ==> t[j].singletonKey != t[k].singletonKey
  {
    SourceIsCandidates(t, name, policy, o, now, source);
    if j in source && !RanksSingletons(policy, o) {
      SubsetSize({j, k}, source);
    }
  }

  // So when no key is the empty string a fetch never trips an index.
  lemma BatchFetchNeverTrips(t: Table, name: string, policy: Policy, o: Options, now: real, source: set<Key>)
    requires Unique(t) && FollowsPolicy(t, name, policy) && IgnoresActiveKeys(t, name, o)
    requires IsSource(t, name, policy, o, now, source)
    requires forall k :: k in t && k.name == name ==> t[k].singletonKey != Some("")
    ensures Unique(ClaimRows(t, Claimed(t, name, o, source), now))
  {
    SourceIsCandidates(t, name, policy, o, now, source);
    BatchFetchIsValidIff(t, name, policy, o, now, source);
  }

  // ---------- What a caller can check before a batch fetch ----------

  // Whatever the options, an index is only ever in the way of a batch that holds such a pair.
  lemma TripsOnlyOnEmptyKeyPair(t: Table, name: string, policy: Policy, o: Options, now: real, next: seq<Key>,
                                source: set<Key>)
    requires Unique(t) && FollowsPolicy(t, name, policy) && IgnoresActiveKeys(t, name, o)
    requires IsNext(t, o, o.limit, Candidates(t, name, o, now), next) && IsSource(t, name, policy, o, now, source)
    requires source <= t.Keys && !Unique(ClaimRows(t, Claimed(t, name, o, source), now))
    ensures HoldsEmptyKeyPair(t, Elems(next))
  {
    assert HoldsEmptyKeyPair(t, Claimed(t, name, o, source)) by {
      BatchFetchIsValidIff(t, name, policy, o, now, source);
    }
    assert source <= Elems(next) by { SourceIsWithinNext(t, name, policy, o, now, next, source); }
    PairIsWithin(t, Claimed(t, name, o, source), Elems(next));
  }

  lemma PairIsWithin(t: Table, a: set<Key>, b: set<Key>)
    requires a <= b <= t.Keys && HoldsEmptyKeyPair(t, a)
    ensures HoldsEmptyKeyPair(t, b)
  {
    var j, k :| j in a && k in a && EmptyKeyPair(t, j, k);
    assert j in b && k in b;
  }

  lemma SourceIsWithinNext(t: Table, name: string, policy: Policy, o: Options, now: real, next: seq<Key>,
                           source: set<Key>)
    requires IsNext(t, o, o.limit, Candidates(t, name, o, now), next) && IsSource(t, name, policy, o, now, source)
    ensures source <= Elems(next)
  {
    var its: seq<Key> :| IsNext(t, o, o.limit, Candidates(t, name, o, now), its)
                         && if RanksSingletons(policy, o) then IsRankOne(t, Elems(its), source)
                            else source == Elems(its);
    NextIsDetermined(t, o, o.limit, Candidates(t, name, o, now), its, next);
  }

  lemma PickPair(t: Table, o: Options, next: seq<Key>) returns (picks: set<Key>)
    requires Elems(next) <= t.Keys && HoldsEmptyKeyPair(t, Elems(next))
    ensures IsRankOne(t, Elems(next), picks) && HoldsEmptyKeyPair(t, picks)
  {
    var j, k :| j in Elems(next) && k in Elems(next) && EmptyKeyPair(t, j, k);
    picks := PicksExtend(t, Elems(next), {j, k});
    assert j in picks && k in picks;
  }

  // Two rows of one slot are only fetched together in a batch that ranks them.
  lemma PairIsRanked(t: Table, name: string, policy: Policy, o: Options, now: real, next: seq<Key>)
    requires FollowsPolicy(t, name, policy) && IsNext(t, o, o.limit, Candidates(t, name, o, now), next)
    requires HoldsEmptyKeyPair(t, Elems(next))
    ensures RanksSingletons(policy, o)
  {
    var j, k :| j in Elems(next) && k in Elems(next) && EmptyKeyPair(t, j, k);
    NextIsDistinct(t, o, next);
    SubsetSize({j, k}, Elems(next));
  }

  lemma PairIsClaimed(t: Table, name: string, policy: Policy, o: Options, now: real, next: seq<Key>, picks: set<Key>)
    requires Unique(t) && FollowsPolicy(t, name, policy) && IgnoresActiveKeys(t, name, o)
    requires IsNext(t, o, o.limit, Candidates(t, name, o, now), next) && o.groups.None?
    requires IsRankOne(t, Elems(next), picks) && HoldsEmptyKeyPair(t, picks)
    ensures IsSource(t, name, policy, o, now, picks) && !Unique(ClaimRows(t, picks, now))
  {
    assert RanksSingletons(policy, o) by {
      PairIsWithin(t, picks, Elems(next));
      PairIsRanked(t, name, policy, o, now, next);
    }
    assert IsSource(t, name, policy, o, now, picks);
    BatchFetchIsValidIff(t, name, policy, o, now, picks);
  }
}
