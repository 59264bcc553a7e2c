/**
 What a fetch answers, column by column: which jobs it may take, which it takes first, how many of a group, and
 what a claim changes. Told from the rows, without the functions that select and rank them.
 */
module FetchedJobs {
  import opened Outcomes
  import opened JobTable
  import opened Fetching

  // ---------- Which jobs may be taken ----------

  predicate IsWaiting(r: Row) {
    r.state == Created || r.state == Retry
  }

  // The options leave the job in.
  predicate IsAskedFor(r: Row, o: Options, now: real) {
    && (!o.ignoreStartAfter ==> r.startAfter <= now)
    && (None in o.ignoreSingletons ==> r.singletonKey != None && r.singletonKey != Some(""))
    && (Some("") in o.ignoreSingletons ==> r.singletonKey != None && r.singletonKey != Some(""))
    && (r.singletonKey.Some? ==> r.singletonKey !in o.ignoreSingletons)
    && (r.terms.groupId.Some? ==> r.terms.groupId.value !in o.ignoreGroups)
    && (o.minPriority.Some? ==> r.terms.priority >= o.minPriority.value)
    && (o.maxPriority.Some? ==> r.terms.priority <= o.maxPriority.value)
  }

  // The limit of a job's group: that of its tier if there is one, else the default.
  function GroupLimit(limits: GroupLimits, r: Row): nat {
    match r.terms.groupTier
    case None => limits.default
    case Some(tier) => if tier in limits.tiers then limits.tiers[tier] else limits.default
  }

  // The running jobs of a group in a queue.
  function Running(t: Table, name: string, group: string): set<Key> {
    set k | k in t && k.name == name && t[k].state == Active && t[k].terms.groupId == Some(group)
  }

  predicate GroupHasRoom(t: Table, name: string, o: Options, r: Row) {
    o.groups.Some? && r.terms.groupId.Some? ==>
      |Running(t, name, r.terms.groupId.value)| < GroupLimit(o.groups.value, r)
  }

  lemma KeyIsIgnoredIff(r: Row, o: Options, now: real)
    ensures (forall x :: x in o.ignoreSingletons ==> x.GetOr("") != KeyText(r))
            <==> && (None in o.ignoreSingletons ==> r.singletonKey != None && r.singletonKey != Some(""))
                 && (Some("") in o.ignoreSingletons ==> r.singletonKey != None && r.singletonKey != Some(""))
                 && (r.singletonKey.Some? ==> r.singletonKey !in o.ignoreSingletons)
  {
  }

  // The candidates of a fetch are exactly the waiting, unblocked jobs of the queue that are asked for and whose
  // group has room.
  lemma CandidatesAre(t: Table, name: string, o: Options, now: real, k: Key)
    ensures k in Candidates(t, name, o, now)
            <==> && k in t && k.name == name && IsWaiting(t[k]) && !t[k].blocked
                 && IsAskedFor(t[k], o, now) && GroupHasRoom(t, name, o, t[k])
  {
    if k in t {
      KeyIsIgnoredIff(t[k], o, now);
      if o.groups.Some? {
        assert t[k].terms.groupId.Some? ==>
            Running(t, name, t[k].terms.groupId.value) == ActiveIn(t, name, t[k].terms.groupId.value);
        if UsesProbe(o.groups.value) {
          ProbeIsCount(t, name, o.groups.value, t[k]);
        }
      }
    }
  }

  // ---------- Which jobs are taken first ----------

  // The taken job k comes no later than j: it has no lower priority, among equals it is not younger, and among
  // those it has the smaller id. Priority and age count only if the options say so.
  predicate ComesFirst(t: Table, o: Options, k: Key, j: Key)
    requires j in t && k in t
  {
    var samePriority := o.priority ==> t[k].terms.priority == t[j].terms.priority;
    var sameAge := o.orderByCreatedOn ==> t[k].createdOn == t[j].createdOn;
    && (o.priority ==> t[k].terms.priority >= t[j].terms.priority)
    && (samePriority && o.orderByCreatedOn ==> t[k].createdOn <= t[j].createdOn)
    && (samePriority && sameAge ==> k.id < j.id)
  }

  lemma PrecedingComesFirst(t: Table, o: Options, k: Key, j: Key)
    requires j in t && k in t && Precedes(t, o, k, j)
    ensures ComesFirst(t, o, k, j)
  {
  }

  // A candidate is left out only if as many as asked for are taken, and all of them come before it.
  lemma LeftOutComesLater(t: Table, o: Options, limit: nat, ks: set<Key>, next: seq<Key>, j: Key)
    requires ks <= t.Keys && IsNext(t, o, limit, ks, next) && j in ks && j !in next
    ensures |Elems(next)| == limit && forall k :: k in next ==> k in t && ComesFirst(t, o, k, j)
  {
    NextIsDistinct(t, o, next);
    forall k | k in next ensures k in t && ComesFirst(t, o, k, j) {
      PrecedingComesFirst(t, o, k, j);
    }
  }

  predicate IsRanked(policy: Policy, o: Options) {
    o.limit > 1 && policy in {Singleton, Stately}
  }

  // Without ranking: what is selected comes first, and nothing is left out that there is room for.
  lemma PlainSourceComesFirst(t: Table, name: string, policy: Policy, o: Options, now: real, source: set<Key>, j: Key)
    requires IsSource(t, name, policy, o, now, source) && !IsRanked(policy, o)
    requires j in Candidates(t, name, o, now) && j !in source
    ensures |source| == o.limit && forall k :: k in source ==> k in t && ComesFirst(t, o, k, j)
  {
    var next: seq<Key> :| IsNext(t, o, o.limit, Candidates(t, name, o, now), next) && source == Elems(next);
    LeftOutComesLater(t, o, o.limit, Candidates(t, name, o, now), next, j);
  }

  // With ranking: at most one job of each key is selected, and a candidate whose key is not among those selected
  // comes after all of them.
  lemma RankedSourceComesFirst(t: Table, name: string, policy: Policy, o: Options, now: real, source: set<Key>)
    requires IsSource(t, name, policy, o, now, source) && IsRanked(policy, o)
    ensures source <= t.Keys
    ensures forall j, k :: j in source && k in source && t[j].singletonKey == t[k].singletonKey ==> j == k
    ensures forall j :: j in Candidates(t, name, o, now)
                        && (forall k :: k in source ==> t[k].singletonKey != t[j].singletonKey) ==>
                          forall k :: k in source ==> ComesFirst(t, o, k, j)
  {
    SourceIsCandidates(t, name, policy, o, now, source);
    var next: seq<Key> :| IsNext(t, o, o.limit, Candidates(t, name, o, now), next)
                          && IsRankOne(t, Elems(next), source);
    forall j | j in Candidates(t, name, o, now) && forall k :: k in source ==> t[k].singletonKey != t[j].singletonKey
      ensures forall k :: k in source ==> ComesFirst(t, o, k, j)
    {
      assert j !in Elems(next);
      LeftOutComesLater(t, o, o.limit, Candidates(t, name, o, now), next, j);
      assert source <= Elems(next);
    }
  }

  // ---------- How many of a group ----------

  // The selected jobs of the same group with an id up to that of r.
  function GroupPeers(t: Table, source: set<Key>, r: Key): set<Key>
    requires source <= t.Keys && r in t
  {
    set j | j in source && t[j].terms.groupId == t[r].terms.groupId && j.id <= r.id
  }

  // Of the selected jobs, those without a group are claimed, and of a group as many, by id, as its limit leaves.
  lemma ClaimedAre(t: Table, name: string, policy: Policy, o: Options, now: real, source: set<Key>, k: Key)
    requires IsSource(t, name, policy, o, now, source) && source <= t.Keys
    ensures k in Claimed(t, name, o, source)
            <==> && k in source
                 && (o.groups.Some? && t[k].terms.groupId.Some? ==>
                       |Running(t, name, t[k].terms.groupId.value)| + |GroupPeers(t, source, k)|
                       <= GroupLimit(o.groups.value, t[k]))
  {
    if k in source && o.groups.Some? && t[k].terms.groupId.Some? {
      assert Running(t, name, t[k].terms.groupId.value) == ActiveIn(t, name, t[k].terms.groupId.value);
      assert GroupPeers(t, source, k) == RankPeers(t, source, k);
      if UsesProbe(o.groups.value) {
        ProbeRefinesCounting(t, name, policy, o, now, source);
      }
    }
  }

  // ---------- What a claim changes ----------

  // The job is running since now; a job that had begun before has used another attempt.
  predicate IsClaimed(r: Row, s: Row, now: real) {
    && s.state == Active && s.startedOn == Some(now) && s.heartbeatOn == Some(now)
    && (r.startedOn.None? ==> s.retryCount == r.retryCount) && (r.startedOn.Some? ==> s.retryCount == r.retryCount + 1)
    && s == r.(state := s.state, startedOn := s.startedOn, heartbeatOn := s.heartbeatOn, retryCount := s.retryCount)
  }

  lemma ClaimRowIs(r: Row, now: real)
    ensures IsClaimed(r, ClaimRow(r, now), now)
  {
  }

  // ---------- The fetch ----------

  // The rows that a fetch answers, and the table it leaves.
  ghost predicate IsFetched(t: Table, t': Table, name: string, policy: Policy, o: Options, now: real, rows: set<Key>) {
    && rows <= t.Keys && t'.Keys == t.Keys && |rows| <= o.limit
    && (forall k :: k in rows ==>
          && k.name == name && IsWaiting(t[k]) && !t[k].blocked && IsAskedFor(t[k], o, now)
          && GroupHasRoom(t, name, o, t[k]) && IsClaimed(t[k], t'[k], now))
    && (forall k :: k in t && k !in rows ==> t'[k] == t[k])
  }

  // Without ranking and groups, whoever is left out while there is room comes later.
  ghost predicate TakesTheFirst(t: Table, name: string, o: Options, now: real, rows: set<Key>)
    requires rows <= t.Keys
  {
    forall j :: j in t && j !in rows && j.name == name && IsWaiting(t[j]) && !t[j].blocked
                && IsAskedFor(t[j], o, now) ==>
      |rows| == o.limit && forall k :: k in rows ==> ComesFirst(t, o, k, j)
  }

  lemma ClaimIsFetch(t: Table, name: string, policy: Policy, o: Options, now: real, source: set<Key>)
    requires IsSource(t, name, policy, o, now, source) && source <= t.Keys
    ensures IsFetched(t, ClaimRows(t, Claimed(t, name, o, source), now), name, policy, o, now,
                      Claimed(t, name, o, source))
    ensures !IsRanked(policy, o) && o.groups.None? ==> TakesTheFirst(t, name, o, now, Claimed(t, name, o, source))
  {
    var rows := Claimed(t, name, o, source);
    SourceIsCandidates(t, name, policy, o, now, source);
    SubsetSize(rows, source);
    forall k | k in rows
      ensures && k.name == name && IsWaiting(t[k]) && !t[k].blocked && IsAskedFor(t[k], o, now)
              && GroupHasRoom(t, name, o, t[k])
    {
      CandidatesAre(t, name, o, now, k);
    }
    if !IsRanked(policy, o) && o.groups.None? {
      forall j | j in t && j !in rows && j.name == name && IsWaiting(t[j]) && !t[j].blocked && IsAskedFor(t[j], o, now)
        ensures |rows| == o.limit && forall k :: k in rows ==> ComesFirst(t, o, k, j)
      {
        CandidatesAre(t, name, o, now, j);
        PlainSourceComesFirst(t, name, policy, o, now, source, j);
      }
    }
  }
}
