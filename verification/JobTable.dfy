/**
 The job table: its rows, the order of the job states, and the five partial unique indexes
 that the queue policies rest on. A table maps the primary key (name, id) to a row.
 Timestamps are seconds, as reals; a UUID is read as a natural number.
 */
module JobTable {
  import opened Outcomes

  // Declaration order is the order that relational state predicates use.
  datatype JobState = Created | Retry | Active | Completed | Cancelled | Failed

  function Rank(s: JobState): nat {
    match s
    case Created => 0
    case Retry => 1
    case Active => 2
    case Completed => 3
    case Cancelled => 4
    case Failed => 5
  }

  predicate Before(a: JobState, b: JobState) {
    Rank(a) < Rank(b)
  }

  datatype Policy = Standard | Short | Singleton | Stately | Exclusive

  datatype Key = Key(name: string, id: nat)

  type Json = string

  // The columns that update() may edit on a queued job, apart from its two dates.
  datatype Terms = Terms(
    priority: int,
    data: Option<Json>,
    expireSeconds: int,
    deletionSeconds: int,
    retryLimit: int,
    retryDelay: int,
    retryBackoff: bool,
    retryDelayMax: Option<int>,
    deadLetter: Option<string>,
    heartbeatSeconds: Option<int>,
    groupId: Option<string>,
    groupTier: Option<string>)

  // Where a dead-letter job came from.
  datatype Source = Source(name: string, id: nat, createdOn: real, retryCount: int)

  datatype Row = Row(
    terms: Terms,
    startAfter: real,
    keepUntil: real,
    createdOn: real,
    singletonKey: Option<string>,
    singletonOn: Option<real>,
    policy: Option<Policy>,
    state: JobState,
    retryCount: int,
    startedOn: Option<real>,
    completedOn: Option<real>,
    heartbeatOn: Option<real>,
    output: Option<Json>,
    source: Option<Source>,
    blocked: bool,
    blocking: bool,
    pending: int)

  type Table = map<Key, Row>

  datatype Queue = Queue(
    policy: Policy,
    retryLimit: int,
    retryDelay: int,
    retryBackoff: bool,
    retryDelayMax: Option<int>,
    expireSeconds: int,
    retentionSeconds: int,
    deletionSeconds: int,
    deadLetter: Option<string>,
    heartbeatSeconds: Option<int>,
    table: string)

  type Queues = map<string, Queue>

  // COALESCE(singleton_key, '')
  function KeyText(r: Row): string {
    r.singletonKey.GetOr("")
  }

  // Membership of the partial indexes job_i1, job_i2, job_i3, job_i4 and job_i6.
  predicate InShort(r: Row) {
    r.state == Created && r.policy == Some(Short)
  }

  predicate InSingleton(r: Row) {
    r.state == Active && r.policy == Some(Singleton)
  }

  predicate InStately(r: Row) {
    Rank(r.state) <= Rank(Active) && r.policy == Some(Stately)
  }

  predicate InThrottle(r: Row) {
    r.state != Cancelled && r.singletonOn.Some?
  }

  predicate InExclusive(r: Row) {
    Rank(r.state) <= Rank(Active) && r.policy == Some(Exclusive)
  }

  // Two rows of one queue that would take the same slot of some unique index.
  predicate Collide(r: Row, s: Row) {
    && KeyText(r) == KeyText(s)
    && (|| (InShort(r) && InShort(s))
        || (InSingleton(r) && InSingleton(s))
        || (InStately(r) && InStately(s) && r.state == s.state)
        || (InThrottle(r) && InThrottle(s) && r.singletonOn == s.singletonOn)
        || (InExclusive(r) && InExclusive(s)))
  }

  // All unique indexes hold. The primary key holds because a table is a map.
  predicate Unique(t: Table) {
    forall j, k :: j in t && k in t && j != k && j.name == k.name ==> !Collide(t[j], t[k])
  }

  // ON CONFLICT DO NOTHING inserts exactly when this holds.
  predicate CanInsert(t: Table, k: Key, r: Row) {
    k !in t && forall j :: j in t && j.name == k.name ==> !Collide(t[j], r)
  }

  function InsertIgnore(t: Table, k: Key, r: Row): Table {
    if CanInsert(t, k, r) then t[k := r] else t
  }

  // An UPDATE that breaks a unique index raises 23505 and leaves the table as it was.
  function Commit(t: Table, t': Table): Table {
    if Unique(t') then t' else t
  }

  lemma InsertIgnoreKeepsUnique(t: Table, k: Key, r: Row)
    requires Unique(t)
    ensures Unique(InsertIgnore(t, k, r))
  {
  }

  // ---------- What the indexes promise ----------

  predicate IsQueued(s: JobState) {
    s in {Created, Retry}
  }

  predicate IsUnfinished(s: JobState) {
    s in {Created, Retry, Active}
  }

  lemma BeforeIs(s: JobState)
    ensures Before(s, Active) <==> IsQueued(s)
    ensures Before(s, Completed) <==> IsUnfinished(s)
  {
  }

  // Two jobs with the same key, a missing one counting as empty, of which the policy allows only one.
  predicate Excludes(r: Row, s: Row) {
    && r.singletonKey.GetOr("") == s.singletonKey.GetOr("")
    && (|| (r.policy == s.policy == Some(Short) && r.state == s.state == Created)
        || (r.policy == s.policy == Some(Singleton) && r.state == s.state == Active)
        || (r.policy == s.policy == Some(Stately) && r.state == s.state && IsUnfinished(r.state))
        || (r.policy == s.policy == Some(Exclusive) && IsUnfinished(r.state) && IsUnfinished(s.state))
        || (r.singletonOn.Some? && r.singletonOn == s.singletonOn && r.state != Cancelled && s.state != Cancelled))
  }

  // The indexes hold exactly if each policy is kept in its queue, and each throttle slot is used once.
  lemma UniqueIff(t: Table)
    ensures Unique(t) <==> forall j, k :: j in t && k in t && j.name == k.name && Excludes(t[j], t[k]) ==> j == k
  {
    forall j, k | j in t && k in t ensures Collide(t[j], t[k]) <==> Excludes(t[j], t[k]) {
    }
  }

  // ON CONFLICT DO NOTHING inserts whatever leaves the primary key and all indexes valid.
  lemma CanInsertIff(t: Table, k: Key, r: Row)
    requires Unique(t)
    ensures CanInsert(t, k, r) <==> k !in t && Unique(t[k := r])
  {
    if k !in t && Unique(t[k := r]) {
      forall j | j in t && j.name == k.name ensures !Collide(t[j], r) {
        assert t[k := r][j] == t[j];
      }
    }
  }

  // s holds no index slot that r does not hold.
  predicate Narrower(s: Row, r: Row) {
    && s.singletonKey == r.singletonKey
    && (InShort(s) ==> InShort(r))
    && (InSingleton(s) ==> InSingleton(r))
    && (InStately(s) ==> InStately(r) && s.state == r.state)
    && (InThrottle(s) ==> InThrottle(r) && s.singletonOn == r.singletonOn)
    && (InExclusive(s) ==> InExclusive(r))
  }

  // A statement that only removes rows or gives up slots cannot break an index.
  lemma NarrowingKeepsUnique(t: Table, t': Table)
    requires Unique(t)
    requires forall k :: k in t' ==> k in t && Narrower(t'[k], t[k])
    ensures Unique(t')
  {
    forall j, k | j in t' && k in t' && j != k && j.name == k.name
      ensures !Collide(t'[j], t'[k])
    {
      assert !Collide(t[j], t[k]);
    }
  }

  function Without(t: Table, ks: set<Key>): Table {
    map k | k in t && k !in ks :: t[k]
  }
}
