/**
 The payload of a flow: insert rows with their counters and flags, and the dependency rows.
 */
module FlowBuilder {
  import opened Outcomes
  import opened JobTable
  import opened Resolution
  import opened Statements
  import opened Runs
  import opened FlowValidation

  // One job of the flow, with its other settings; the id is the caller's or a generated one.
  datatype Input = Input(job: FlowJob, request: Request)

  function JobsOf(inputs: seq<Input>): seq<FlowJob> {
    seq(|inputs|, i requires 0 <= i < |inputs| => inputs[i].job)
  }

  function KeyIn(input: Input): Key {
    Key(input.job.name, input.request.id)
  }

  function Deduplicated(refs: seq<string>): seq<string> {
    if refs == [] then []
    else
      var rest := Deduplicated(refs[..|refs| - 1]);
      if refs[|refs| - 1] in rest then rest else rest + [refs[|refs| - 1]]
  }

  lemma {:induction false} DeduplicatedIsTheSet(refs: seq<string>)
    ensures Distinct(Deduplicated(refs)) && Elems(Deduplicated(refs)) == Elems(refs)
  {
    if refs != [] {
      DeduplicatedIsTheSet(refs[..|refs| - 1]);
      assert refs == refs[..|refs| - 1] + [refs[|refs| - 1]];
      var rest, last := Deduplicated(refs[..|refs| - 1]), refs[|refs| - 1];
      assert last in rest <==> last in Elems(rest);
      assert Elems(rest + [last]) == Elems(rest) + {last};
    }
  }

  // ---------- What is to be built ----------

  // refToId and refToJob in one: the key of each ref.
  ghost predicate AreKeys(inputs: seq<Input>, keys: map<string, Key>) {
    && (forall i :: 0 <= i < |inputs| ==> inputs[i].job.ref in keys && keys[inputs[i].job.ref] == KeyIn(inputs[i]))
    && (forall r :: r in keys ==> exists i :: 0 <= i < |inputs| && inputs[i].job.ref == r)
    && KnownRefs(inputs, keys)
  }

  function ParentRefs(inputs: seq<Input>): set<string> {
    set i, r | 0 <= i < |inputs| && r in inputs[i].job.dependsOn :: r
  }

  predicate KnownRefs(inputs: seq<Input>, keys: map<string, Key>) {
    forall i, r :: 0 <= i < |inputs| && r in inputs[i].job.dependsOn ==> r in keys
  }

  function LinksOf(inputs: seq<Input>, keys: map<string, Key>): set<Dep>
    requires KnownRefs(inputs, keys)
  {
    set i, r | 0 <= i < |inputs| && r in inputs[i].job.dependsOn :: Dep(KeyIn(inputs[i]), keys[r])
  }

  function ItemFor(input: Input, parents: set<string>): Item {
    var n := |Deduplicated(input.job.dependsOn)|;
    Item(input.job.name, input.request.(blocked := n > 0, blocking := input.job.ref in parents, pending := n))
  }

  function ItemsFor(inputs: seq<Input>, parents: set<string>): seq<Item> {
    seq(|inputs|, i requires 0 <= i < |inputs| => ItemFor(inputs[i], parents))
  }

  function InQueue(inputs: seq<Input>, name: string): seq<Input> {
    if inputs == [] then []
    else
      var last := inputs[|inputs| - 1];
      InQueue(inputs[..|inputs| - 1], name) + if last.job.name == name then [last] else []
  }

  // One insert per queue, in the order in which the queues first occur.
  function Payload(inputs: seq<Input>, parents: set<string>, names: seq<string>): seq<Item> {
    if names == [] then []
    else Payload(inputs, parents, names[..|names| - 1]) + ItemsFor(InQueue(inputs, names[|names| - 1]), parents)
  }

  ghost predicate DistinctKeys(inputs: seq<Input>) {
    forall i, j :: 0 <= i < j < |inputs| ==> KeyIn(inputs[i]) != KeyIn(inputs[j])
  }

  // ---------- Grouping by queue loses nothing ----------

  lemma GroupOfOneMore(inputs: seq<Input>, x: Input, parents: set<string>, name: string)
    ensures ItemsFor(InQueue(inputs + [x], name), parents) ==
            ItemsFor(InQueue(inputs, name), parents) + if x.job.name == name then [ItemFor(x, parents)] else []
  {
    var longer := inputs + [x];
    assert longer[..|longer| - 1] == inputs;
    var group := InQueue(inputs, name);
    assert ItemsFor(group + [x], parents) == ItemsFor(group, parents) + [ItemFor(x, parents)];
    assert group + [] == group;
  }

  lemma {:induction false} PayloadOfOneMore(inputs: seq<Input>, x: Input, parents: set<string>, names: seq<string>)
    requires Distinct(names)
    ensures multiset(Payload(inputs + [x], parents, names)) ==
            multiset(Payload(inputs, parents, names))
            + if x.job.name in names then multiset{ItemFor(x, parents)} else multiset{}
  {
    if names != [] {
      var n, last := |names| - 1, names[|names| - 1];
      PayloadOfOneMore(inputs, x, parents, names[..n]);
      GroupOfOneMore(inputs, x, parents, last);
      LastOfNames(names, x.job.name);
      AddToBoth(Payload(inputs, parents, names[..n]), Payload(inputs + [x], parents, names[..n]),
                ItemsFor(InQueue(inputs, last), parents), ItemFor(x, parents),
                x.job.name in names[..n], x.job.name == last);
    }
  }

  lemma LastOfNames(names: seq<string>, name: string)
    requires Distinct(names) && names != []
    ensures var n := |names| - 1;
            && (name in names <==> name in names[..n] || name == names[n])
            && !(name in names[..n] && name == names[n])
  {
    assert names == names[..|names| - 1] + [names[|names| - 1]];
  }

  lemma AddToBoth(a: seq<Item>, b: seq<Item>, group: seq<Item>, x: Item, before: bool, last: bool)
    requires multiset(b) == multiset(a) + (if before then multiset{x} else multiset{}) && !(before && last)
    ensures multiset(b + (group + if last then [x] else [])) ==
            multiset(a + group) + if before || last then multiset{x} else multiset{}
  {
  }

  lemma {:induction false} PayloadIsAll(inputs: seq<Input>, parents: set<string>, names: seq<string>)
    requires Distinct(names) && forall i :: 0 <= i < |inputs| ==> inputs[i].job.name in names
    ensures multiset(Payload(inputs, parents, names)) == multiset(ItemsFor(inputs, parents))
  {
    if inputs == [] {
      NothingInQueues(parents, names);
    } else {
      var rest, x := inputs[..|inputs| - 1], inputs[|inputs| - 1];
      PayloadIsAll(rest, parents, names);
      PayloadOfOneMore(rest, x, parents, names);
      ItemsOfOneMore(inputs, rest, x, parents);
    }
  }

  lemma ItemsOfOneMore(inputs: seq<Input>, rest: seq<Input>, x: Input, parents: set<string>)
    requires inputs != [] && rest == inputs[..|inputs| - 1] && x == inputs[|inputs| - 1]
    ensures rest + [x] == inputs
    ensures multiset(ItemsFor(inputs, parents)) == multiset(ItemsFor(rest, parents)) + multiset{ItemFor(x, parents)}
  {
    assert ItemsFor(inputs, parents) == ItemsFor(rest, parents) + [ItemFor(x, parents)];
  }

  lemma {:induction false} NothingInQueues(parents: set<string>, names: seq<string>)
    ensures Payload([], parents, names) == []
  {
    if names != [] {
      NothingInQueues(parents, names[..|names| - 1]);
    }
  }

  // ---------- The counters agree with the dependency rows ----------

  lemma {:induction false} ImageSize(refs: set<string>, keys: map<string, Key>, image: set<Key>)
    requires refs <= keys.Keys && forall a, b :: a in refs && b in refs && a != b ==> keys[a] != keys[b]
    requires image == set a | a in refs :: keys[a]
    ensures |image| == |refs|
  {
    if refs == {} {
      assert image == {};
    } else {
      var a :| a in refs;
      ImageSize(refs - {a}, keys, image - {keys[a]});
    }
  }

  lemma KeysAreDistinct(inputs: seq<Input>, keys: map<string, Key>, a: string, b: string)
    requires AreKeys(inputs, keys) && DistinctKeys(inputs) && a in keys && b in keys && a != b
    ensures keys[a] != keys[b]
  {
    var i :| 0 <= i < |inputs| && inputs[i].job.ref == a;
    var j :| 0 <= j < |inputs| && inputs[j].job.ref == b;
    assert KeyIn(inputs[i]) == keys[a] && KeyIn(inputs[j]) == keys[b];
    if i < j {
      assert KeyIn(inputs[i]) != KeyIn(inputs[j]);
    } else {
      assert KeyIn(inputs[j]) != KeyIn(inputs[i]);
    }
  }

  lemma ParentsAreImage(inputs: seq<Input>, keys: map<string, Key>, i: nat)
    requires AreKeys(inputs, keys) && DistinctKeys(inputs) && i < |inputs|
    ensures ParentsOf(LinksOf(inputs, keys), KeyIn(inputs[i])) == set r | r in inputs[i].job.dependsOn :: keys[r]
  {
    var links, child, image := LinksOf(inputs, keys), KeyIn(inputs[i]), set r | r in inputs[i].job.dependsOn :: keys[r];
    forall p | p in ParentsOf(links, child) ensures p in image {
      var j, r :| 0 <= j < |inputs| && r in inputs[j].job.dependsOn && Dep(child, p) == Dep(KeyIn(inputs[j]), keys[r]);
      assert j == i;
    }
    forall p | p in image ensures p in ParentsOf(links, child) {
      var r :| r in inputs[i].job.dependsOn && keys[r] == p;
      assert Dep(child, p) in links;
    }
  }

  lemma CounterFits(inputs: seq<Input>, keys: map<string, Key>, i: nat)
    requires AreKeys(inputs, keys) && DistinctKeys(inputs) && i < |inputs|
    ensures |ParentsOf(LinksOf(inputs, keys), KeyIn(inputs[i]))| == |Deduplicated(inputs[i].job.dependsOn)|
  {
    var refs := Elems(inputs[i].job.dependsOn);
    ParentsAreImage(inputs, keys, i);
    DeduplicatedIsTheSet(inputs[i].job.dependsOn);
    SizeOfElems(Deduplicated(inputs[i].job.dependsOn));
    forall a, b | a in refs && b in refs && a != b ensures keys[a] != keys[b] {
      KeysAreDistinct(inputs, keys, a, b);
    }
    ImageSize(refs, keys, ParentsOf(LinksOf(inputs, keys), KeyIn(inputs[i])));
  }

  lemma FlagFits(inputs: seq<Input>, keys: map<string, Key>, i: nat)
    requires AreKeys(inputs, keys) && DistinctKeys(inputs) && i < |inputs|
    ensures inputs[i].job.ref in ParentRefs(inputs)
            <==> exists d :: d in LinksOf(inputs, keys) && d.parent == KeyIn(inputs[i])
  {
    var ref, links := inputs[i].job.ref, LinksOf(inputs, keys);
    if ref in ParentRefs(inputs) {
      var j :| 0 <= j < |inputs| && ref in inputs[j].job.dependsOn;
      assert Dep(KeyIn(inputs[j]), keys[ref]) in links;
    }
    if d :| d in links && d.parent == KeyIn(inputs[i]) {
      var j, r :| 0 <= j < |inputs| && r in inputs[j].job.dependsOn && d == Dep(KeyIn(inputs[j]), keys[r]);
      if r != ref {
        KeysAreDistinct(inputs, keys, r, ref);
      }
    }
  }

  ghost predicate ItemFits(item: Item, links: set<Dep>) {
    && item.request.pending == |ParentsOf(links, KeyOf(item))|
    && (item.request.blocked <==> item.request.pending > 0)
    && (item.request.blocking <==> exists d :: d in links && d.parent == KeyOf(item))
  }

  lemma ItemsFit(inputs: seq<Input>, keys: map<string, Key>, items: seq<Item>, i: nat)
    requires AreKeys(inputs, keys) && DistinctKeys(inputs) && i < |items|
    requires multiset(items) == multiset(ItemsFor(inputs, ParentRefs(inputs)))
    ensures ItemFits(items[i], LinksOf(inputs, keys))
  {
    var plain := ItemsFor(inputs, ParentRefs(inputs));
    assert items[i] in multiset(plain);
    var j :| 0 <= j < |plain| && plain[j] == items[i];
    CounterFits(inputs, keys, j);
    FlagFits(inputs, keys, j);
  }

  lemma LinkEndsAreThere(inputs: seq<Input>, keys: map<string, Key>, items: seq<Item>, d: Dep)
    requires AreKeys(inputs, keys) && d in LinksOf(inputs, keys)
    requires multiset(items) == multiset(ItemsFor(inputs, ParentRefs(inputs)))
    ensures exists i :: 0 <= i < |items| && KeyOf(items[i]) == d.child
    ensures exists i :: 0 <= i < |items| && KeyOf(items[i]) == d.parent
  {
    var j, r :| 0 <= j < |inputs| && r in inputs[j].job.dependsOn && d == Dep(KeyIn(inputs[j]), keys[r]);
    assert r in keys;
    var m :| 0 <= m < |inputs| && inputs[m].job.ref == r;
    ItemIsThere(inputs, items, j);
    ItemIsThere(inputs, items, m);
  }

  // The counters, the flags and the dependency rows of a flow agree.
  lemma FlowFits(inputs: seq<Input>, keys: map<string, Key>, items: seq<Item>)
    requires AreKeys(inputs, keys) && DistinctKeys(inputs)
    requires multiset(items) == multiset(ItemsFor(inputs, ParentRefs(inputs)))
    ensures LinksFit(items, LinksOf(inputs, keys))
  {
    var links := LinksOf(inputs, keys);
    forall i | 0 <= i < |items| ensures ItemFits(items[i], links) {
      ItemsFit(inputs, keys, items, i);
    }
    forall d | d in links
      ensures exists i :: 0 <= i < |items| && KeyOf(items[i]) == d.child
      ensures exists i :: 0 <= i < |items| && KeyOf(items[i]) == d.parent
    {
      LinkEndsAreThere(inputs, keys, items, d);
    }
  }

  lemma ItemIsThere(inputs: seq<Input>, items: seq<Item>, j: nat)
    requires j < |inputs| && multiset(items) == multiset(ItemsFor(inputs, ParentRefs(inputs)))
    ensures exists i :: 0 <= i < |items| && KeyOf(items[i]) == KeyIn(inputs[j])
  {
    var item := ItemFor(inputs[j], ParentRefs(inputs));
    assert ItemsFor(inputs, ParentRefs(inputs))[j] == item;
    assert item in multiset(items);
    var i :| 0 <= i < |items| && items[i] == item;
    assert KeyOf(items[i]) == KeyIn(inputs[j]);
  }

  // ---------- What each job asked for ----------

  ghost predicate HasDependents(inputs: seq<Input>, ref: string) {
    exists j :: 0 <= j < |inputs| && ref in inputs[j].job.dependsOn
  }

  // The item of a job: its own request under its queue, with its counter and its flags.
  ghost predicate IsItemOf(item: Item, inputs: seq<Input>, i: nat)
    requires i < |inputs|
  {
    var r, job := item.request, inputs[i].job;
    && item.name == job.name
    && r == inputs[i].request.(blocked := r.blocked, blocking := r.blocking, pending := r.pending)
    && r.pending == |Elems(job.dependsOn)| && (r.blocked <==> job.dependsOn != [])
    && (r.blocking <==> HasDependents(inputs, job.ref))
  }

  ghost predicate HoldsItemOf(items: seq<Item>, inputs: seq<Input>, i: nat)
    requires i < |inputs|
  {
    exists m :: 0 <= m < |items| && IsItemOf(items[m], inputs, i)
  }

  lemma ItemForIs(inputs: seq<Input>, i: nat)
    requires i < |inputs|
    ensures IsItemOf(ItemFor(inputs[i], ParentRefs(inputs)), inputs, i)
  {
    var ds := inputs[i].job.dependsOn;
    DeduplicatedIsTheSet(ds);
    SizeOfElems(Deduplicated(ds));
    if ds == [] {
      assert Elems(ds) == {};
    } else {
      assert ds[0] in Elems(ds);
    }
  }

  lemma EveryJobHasItsItem(inputs: seq<Input>, items: seq<Item>, i: nat)
    requires i < |inputs| && multiset(items) == multiset(ItemsFor(inputs, ParentRefs(inputs)))
    ensures |items| == |inputs| && HoldsItemOf(items, inputs, i)
  {
    var plain := ItemsFor(inputs, ParentRefs(inputs));
    assert |multiset(items)| == |items| && |multiset(plain)| == |plain|;
    assert plain[i] in multiset(items);
    var m :| 0 <= m < |items| && items[m] == plain[i];
    ItemForIs(inputs, i);
  }

  // ---------- Two jobs under one key never get in ----------

  lemma {:induction false} InsertedAreThere(t: Table, items: seq<Item>, queues: Queues, now: real, i: nat)
    requires InsertAll(t, items, queues, now).Some? && i < |items|
    ensures KeyOf(items[i]) in InsertAll(t, items, queues, now).value
  {
    if i < |items| - 1 {
      InsertedAreThere(t, items[..|items| - 1], queues, now, i);
    }
  }

  lemma {:induction false} InsertedAreDistinct(t: Table, items: seq<Item>, queues: Queues, now: real, i: nat, j: nat)
    requires InsertAll(t, items, queues, now).Some? && i < j < |items|
    ensures KeyOf(items[i]) != KeyOf(items[j])
  {
    if j < |items| - 1 {
      InsertedAreDistinct(t, items[..|items| - 1], queues, now, i, j);
    } else {
      InsertedAreThere(t, items[..|items| - 1], queues, now, i);
    }
  }

  lemma {:induction false} OccursTwice(items: seq<Item>, x: Item) returns (i: nat, j: nat)
    requires multiset(items)[x] >= 2
    ensures i < j < |items| && items[i] == x && items[j] == x
  {
    var n := |items| - 1;
    assert items == items[..n] + [items[n]];
    if items[n] == x {
      assert x in multiset(items[..n]);
      i :| 0 <= i < n && items[i] == x;
      j := n;
    } else {
      i, j := OccursTwice(items[..n], x);
    }
  }

  lemma TwiceInBoth(plain: seq<Item>, items: seq<Item>, i: nat, j: nat) returns (a: nat, b: nat)
    requires multiset(items) == multiset(plain) && i < j < |plain|
    ensures a < |items| && b < |items| && a != b && items[a] == plain[i] && items[b] == plain[j]
  {
    if plain[i] == plain[j] {
      assert plain == plain[..j] + [plain[j]] + plain[j + 1..];
      assert plain[i] == plain[..j][i];
      a, b := OccursTwice(items, plain[i]);
    } else {
      assert plain[i] in multiset(items) && plain[j] in multiset(items);
      a :| 0 <= a < |items| && items[a] == plain[i];
      b :| 0 <= b < |items| && items[b] == plain[j];
    }
  }

  lemma InsertedFlowFits(t: Table, inputs: seq<Input>, keys: map<string, Key>, items: seq<Item>, queues: Queues,
                         now: real)
    requires AreKeys(inputs, keys) && InsertAll(t, items, queues, now).Some?
    requires multiset(items) == multiset(ItemsFor(inputs, ParentRefs(inputs)))
    ensures LinksFit(items, LinksOf(inputs, keys))
  {
    forall i, j | 0 <= i < j < |inputs| ensures KeyIn(inputs[i]) != KeyIn(inputs[j]) {
      var plain := ItemsFor(inputs, ParentRefs(inputs));
      var a, b := TwiceInBoth(plain, items, i, j);
      InsertedAreDistinct(t, items, queues, now, if a < b then a else b, if a < b then b else a);
      assert KeyOf(plain[i]) == KeyIn(inputs[i]) && KeyOf(plain[j]) == KeyIn(inputs[j]);
    }
    FlowFits(inputs, keys, items);
  }

  // ---------- Building it ----------

  lemma RefsDiffer(inputs: seq<Input>, i: nat)
    requires WellFormed(JobsOf(inputs)) && i < |inputs|
    ensures forall j :: 0 <= j < i ==> inputs[j].job.ref != inputs[i].job.ref
  {
    forall j | 0 <= j < i ensures inputs[j].job.ref != inputs[i].job.ref {
      assert JobsOf(inputs)[j].ref != JobsOf(inputs)[i].ref;
    }
  }

  method CollectKeys(inputs: seq<Input>) returns (keys: map<string, Key>)
    requires WellFormed(JobsOf(inputs))
    ensures AreKeys(inputs, keys)
  {
    keys := map[];
    for i := 0 to |inputs|
      invariant forall j :: 0 <= j < i ==> inputs[j].job.ref in keys && keys[inputs[j].job.ref] == KeyIn(inputs[j])
      invariant forall r :: r in keys ==> exists j :: 0 <= j < i && inputs[j].job.ref == r
    {
      RefsDiffer(inputs, i);
      keys := keys[inputs[i].job.ref := KeyIn(inputs[i])];
    }
    forall i, r | 0 <= i < |inputs| && r in inputs[i].job.dependsOn ensures r in keys {
      DependenciesAreRefs(JobsOf(inputs), i);
      var job :| job in JobsOf(inputs) && job.ref == r;
      var j :| 0 <= j < |inputs| && JobsOf(inputs)[j] == job;
      assert inputs[j].job.ref == r;
    }
  }

  lemma ParentRefsStep(inputs: seq<Input>, i: nat)
    requires i < |inputs|
    ensures ParentRefs(inputs[..i + 1]) == ParentRefs(inputs[..i]) + Elems(inputs[i].job.dependsOn)
  {
    var shorter, longer := inputs[..i], inputs[..i + 1];
    forall r | r in ParentRefs(shorter) ensures r in ParentRefs(longer) {
      var j :| 0 <= j < i && r in shorter[j].job.dependsOn;
      assert longer[j] == shorter[j];
    }
    assert longer[i] == inputs[i];
  }

  function LinksInto(input: Input, refs: set<string>, keys: map<string, Key>): set<Dep>
    requires refs <= keys.Keys
  {
    set r | r in refs :: Dep(KeyIn(input), keys[r])
  }

  lemma LinksStep(inputs: seq<Input>, keys: map<string, Key>, i: nat)
    requires AreKeys(inputs, keys) && i < |inputs|
    ensures KnownRefs(inputs[..i + 1], keys) && KnownRefs(inputs[..i], keys)
    ensures Elems(inputs[i].job.dependsOn) <= keys.Keys
    ensures LinksOf(inputs[..i + 1], keys) ==
            LinksOf(inputs[..i], keys) + LinksInto(inputs[i], Elems(inputs[i].job.dependsOn), keys)
  {
    var shorter, longer := inputs[..i], inputs[..i + 1];
    assert longer[i] == inputs[i] && forall j :: 0 <= j < i ==> longer[j] == shorter[j];
    var more := LinksInto(inputs[i], Elems(inputs[i].job.dependsOn), keys);
    forall d | d in LinksOf(longer, keys) ensures d in LinksOf(shorter, keys) + more {
      var j, r :| 0 <= j < |longer| && r in longer[j].job.dependsOn && d == Dep(KeyIn(longer[j]), keys[r]);
      if j < i {
        assert r in shorter[j].job.dependsOn;
      }
    }
    NewLinksAreLinks(inputs, keys, i);
  }

  lemma NewLinksAreLinks(inputs: seq<Input>, keys: map<string, Key>, i: nat)
    requires i < |inputs| && KnownRefs(inputs[..i + 1], keys) && KnownRefs(inputs[..i], keys)
    requires Elems(inputs[i].job.dependsOn) <= keys.Keys
    ensures LinksOf(inputs[..i], keys) + LinksInto(inputs[i], Elems(inputs[i].job.dependsOn), keys)
            <= LinksOf(inputs[..i + 1], keys)
  {
    var shorter, longer := inputs[..i], inputs[..i + 1];
    forall d | d in LinksOf(shorter, keys) ensures d in LinksOf(longer, keys) {
      var j, r :| 0 <= j < |shorter| && r in shorter[j].job.dependsOn && d == Dep(KeyIn(shorter[j]), keys[r]);
      assert longer[j] == shorter[j] && r in longer[j].job.dependsOn;
    }
    forall d | d in LinksInto(inputs[i], Elems(inputs[i].job.dependsOn), keys) ensures d in LinksOf(longer, keys) {
      var r :| r in inputs[i].job.dependsOn && d == Dep(KeyIn(inputs[i]), keys[r]);
      assert longer[i] == inputs[i] && r in longer[i].job.dependsOn;
    }
  }

  // The number of distinct dependencies of each job, by its ref.
  ghost predicate AreCounts(inputs: seq<Input>, counts: map<string, nat>) {
    forall x :: x in inputs ==> x.job.ref in counts && counts[x.job.ref] == |Deduplicated(x.job.dependsOn)|
  }

  method CountDependencies(inputs: seq<Input>) returns (counts: map<string, nat>)
    requires WellFormed(JobsOf(inputs))
    ensures AreCounts(inputs, counts)
  {
    counts := map[];
    for i := 0 to |inputs|
      invariant AreCounts(inputs[..i], counts)
    {
      RefsDiffer(inputs, i);
      assert forall x :: x in inputs[..i] ==> x.job.ref != inputs[i].job.ref;
      assert inputs[..i + 1] == inputs[..i] + [inputs[i]];
      counts := counts[inputs[i].job.ref := |Deduplicated(inputs[i].job.dependsOn)|];
    }
    assert inputs[..|inputs|] == inputs;
  }

  // The parents and the dependency rows, each dependency once.
  method CollectLinks(inputs: seq<Input>, keys: map<string, Key>) returns (parents: set<string>, rows: set<Dep>)
    requires AreKeys(inputs, keys)
    ensures parents == ParentRefs(inputs) && rows == LinksOf(inputs, keys)
  {
    parents, rows := {}, {};
    for i := 0 to |inputs|
      invariant parents == ParentRefs(inputs[..i])
      invariant KnownRefs(inputs[..i], keys)
      invariant rows == LinksOf(inputs[..i], keys)
    {
      ParentRefsStep(inputs, i);
      LinksStep(inputs, keys, i);
      var dependsOn := Deduplicated(inputs[i].job.dependsOn);
      DeduplicatedIsTheSet(inputs[i].job.dependsOn);
      for k := 0 to |dependsOn|
        invariant parents == ParentRefs(inputs[..i]) + Elems(dependsOn[..k])
        invariant Elems(dependsOn[..k]) <= keys.Keys
        invariant rows == LinksOf(inputs[..i], keys) + LinksInto(inputs[i], Elems(dependsOn[..k]), keys)
      {
        NextElem(dependsOn, k, keys.Keys);
        parents := parents + {dependsOn[k]};
        rows := rows + {Dep(KeyIn(inputs[i]), keys[dependsOn[k]])};
      }
      WholePrefix(dependsOn);
    }
    assert inputs[..|inputs|] == inputs;
  }

  lemma NextElem(refs: seq<string>, k: nat, all: set<string>)
    requires k < |refs| && Elems(refs) <= all
    ensures Elems(refs[..k + 1]) == Elems(refs[..k]) + {refs[k]} && refs[k] in all
  {
    assert refs[..k + 1] == refs[..k] + [refs[k]];
    assert refs[k] in Elems(refs);
  }

  lemma InQueueStep(inputs: seq<Input>, i: nat, name: string)
    requires i < |inputs|
    ensures InQueue(inputs[..i + 1], name)
            == InQueue(inputs[..i], name) + if inputs[i].job.name == name then [inputs[i]] else []
  {
    assert inputs[..i + 1][..i] == inputs[..i];
  }

  // The jobs of each queue so far, and the queues as they first occur.
  ghost predicate Grouped(inputs: seq<Input>, names: seq<string>, groups: map<string, seq<Input>>) {
    && Distinct(names) && groups.Keys == Elems(names)
    && (forall x :: x in inputs ==> x.job.name in groups)
    && AreGroups(inputs, groups)
  }

  ghost predicate AreGroups(inputs: seq<Input>, groups: map<string, seq<Input>>) {
    && (forall name :: name !in groups ==> InQueue(inputs, name) == [])
    && (forall name :: name in groups ==> groups[name] == InQueue(inputs, name))
  }

  lemma GroupsOfOneMore(inputs: seq<Input>, i: nat, groups: map<string, seq<Input>>)
    requires i < |inputs| && AreGroups(inputs[..i], groups)
    ensures var name := inputs[i].job.name;
            var group := if name in groups then groups[name] else [];
            AreGroups(inputs[..i + 1], groups[name := group + [inputs[i]]])
  {
    var name := inputs[i].job.name;
    var group := if name in groups then groups[name] else [];
    var next := groups[name := group + [inputs[i]]];
    forall n
      ensures n !in next ==> InQueue(inputs[..i + 1], n) == []
      ensures n in next ==> next[n] == InQueue(inputs[..i + 1], n)
    {
      InQueueStep(inputs, i, n);
    }
  }

  lemma GroupOne(inputs: seq<Input>, i: nat, names: seq<string>, groups: map<string, seq<Input>>)
    requires i < |inputs| && Grouped(inputs[..i], names, groups)
    ensures var name := inputs[i].job.name;
            var group := if name in groups then groups[name] else [];
            Grouped(inputs[..i + 1], if name in groups then names else names + [name],
                    groups[name := group + [inputs[i]]])
  {
    NamesOfOneMore(names, groups.Keys, inputs[i].job.name);
    InputsOfOneMore(inputs, i);
    GroupsOfOneMore(inputs, i, groups);
  }

  lemma NamesOfOneMore(names: seq<string>, known: set<string>, name: string)
    requires Distinct(names) && Elems(names) == known
    ensures var longer := if name in known then names else names + [name];
            Distinct(longer) && Elems(longer) == known + {name}
  {
    if name !in known {
      assert name !in Elems(names);
      assert Elems(names + [name]) == Elems(names) + {name};
    }
  }

  lemma InputsOfOneMore(inputs: seq<Input>, i: nat)
    requires i < |inputs|
    ensures forall x :: x in inputs[..i + 1] ==> x in inputs[..i] || x == inputs[i]
  {
  }

  method GroupByQueue(inputs: seq<Input>) returns (names: seq<string>, groups: map<string, seq<Input>>)
    ensures Grouped(inputs, names, groups)
  {
    names, groups := [], map[];
    for i := 0 to |inputs|
      invariant Grouped(inputs[..i], names, groups)
    {
      var name := inputs[i].job.name;
      GroupOne(inputs, i, names, groups);
      var group := if name in groups then groups[name] else [];
      if name !in groups {
        names := names + [name];
      }
      groups := groups[name := group + [inputs[i]]];
    }
    assert inputs[..|inputs|] == inputs;
  }

  // The insert payload of one queue.
  method InsertPayload(group: seq<Input>, counts: map<string, nat>, parents: set<string>) returns (items: seq<Item>)
    requires AreCounts(group, counts)
    ensures items == ItemsFor(group, parents)
  {
    items := [];
    for i := 0 to |group|
      invariant |items| == i && forall j :: 0 <= j < i ==> items[j] == ItemFor(group[j], parents)
    {
      var job := group[i].job;
      assert group[i] in group;
      var n := counts[job.ref];
      items := items + [Item(job.name, group[i].request.(blocked := n > 0, blocking := job.ref in parents,
                                                         pending := n))];
    }
  }

  lemma {:induction false} InQueueIsPart(inputs: seq<Input>, name: string)
    ensures forall x :: x in InQueue(inputs, name) ==> x in inputs
  {
    if inputs != [] {
      InQueueIsPart(inputs[..|inputs| - 1], name);
    }
  }

  lemma PayloadStep(inputs: seq<Input>, parents: set<string>, names: seq<string>, i: nat)
    requires i < |names|
    ensures Payload(inputs, parents, names[..i + 1]) ==
            Payload(inputs, parents, names[..i]) + ItemsFor(InQueue(inputs, names[i]), parents)
  {
    assert names[..i + 1][..i] == names[..i];
  }

  // The insert payload and the dependency rows; whenever the insert goes through, they agree.
  method BuildFlow(inputs: seq<Input>) returns (items: seq<Item>, rows: set<Dep>, ghost keys: map<string, Key>)
    requires WellFormed(JobsOf(inputs))
    ensures AreKeys(inputs, keys) && rows == LinksOf(inputs, keys)
    ensures multiset(items) == multiset(ItemsFor(inputs, ParentRefs(inputs)))
    ensures |items| == |inputs| && forall i :: 0 <= i < |inputs| ==> HoldsItemOf(items, inputs, i)
    ensures forall t, queues, now :: InsertAll(t, items, queues, now).Some? ==> LinksFit(items, rows)
  {
    var known := CollectKeys(inputs);
    var counts := CountDependencies(inputs);
    var parents, links := CollectLinks(inputs, known);
    var names, groups := GroupByQueue(inputs);
    items := [];
    for i := 0 to |names|
      invariant items == Payload(inputs, parents, names[..i])
    {
      assert names[i] in Elems(names);
      PayloadStep(inputs, parents, names, i);
      InQueueIsPart(inputs, names[i]);
      var more := InsertPayload(groups[names[i]], counts, parents);
      items := items + more;
    }
    assert names[..|names|] == names;
    GroupsCoverAll(inputs, names, groups);
    assert multiset(items) == multiset(ItemsFor(inputs, parents)) by { PayloadIsAll(inputs, parents, names); }
    rows, keys := links, known;
    assert |items| == |inputs| by {
      var plain := ItemsFor(inputs, parents);
      assert |multiset(items)| == |items| && |multiset(plain)| == |plain|;
    }
    forall i | 0 <= i < |inputs| ensures HoldsItemOf(items, inputs, i) {
      EveryJobHasItsItem(inputs, items, i);
    }
    forall t, queues, now | InsertAll(t, items, queues, now).Some? ensures LinksFit(items, rows) {
      InsertedFlowFits(t, inputs, keys, items, queues, now);
    }
  }

  lemma GroupsCoverAll(inputs: seq<Input>, names: seq<string>, groups: map<string, seq<Input>>)
    requires Grouped(inputs, names, groups)
    ensures forall i :: 0 <= i < |inputs| ==> inputs[i].job.name in names
  {
    forall i | 0 <= i < |inputs| ensures inputs[i].job.name in names {
      assert inputs[i] in inputs && inputs[i].job.name in Elems(names);
    }
  }
}
