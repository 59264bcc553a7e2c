/**
 Validation of a flow: the structural checks, the topological sort over the dependency multigraph,
 and the depth-first search that names a cycle.
 */
module FlowValidation {
  import opened Outcomes

  datatype FlowJob = FlowJob(ref: string, name: string, dependsOn: seq<string>)

  datatype Error =
    | TooFewJobs
    | EmptyRef
    | DuplicateRef(ref: string)
    | InvalidName(ref: string)
    | NoDependencies
    | EmptyDependency(ref: string)
    | SelfDependency(ref: string)
    | UnknownDependency(ref: string, dep: string)
    | DependencyCycle(path: seq<string>)

  // ---------- What is checked ----------

  predicate NameChar(c: char) {
    'a' <= c <= 'z' || 'A' <= c <= 'Z' || '0' <= c <= '9' || c == '_' || c == '.' || c == '-' || c == '/'
  }

  predicate ValidName(name: string) {
    name != "" && forall c :: c in name ==> NameChar(c)
  }

  // Letters, digits and four more, by their ASCII codes.
  lemma NameCharIs(c: char)
    ensures var n := c as int;
            NameChar(c) <==> 65 <= n <= 90 || 97 <= n <= 122 || 48 <= n <= 57 || n in {45, 46, 47, 95}
  {
  }

  function Refs(jobs: seq<FlowJob>): set<string> {
    set j | j in jobs :: j.ref
  }

  ghost predicate WellFormed(jobs: seq<FlowJob>) {
    && |jobs| >= 2
    && (forall j :: j in jobs ==> j.ref != "" && ValidName(j.name))
    && (forall i, j :: 0 <= i < j < |jobs| ==> jobs[i].ref != jobs[j].ref)
    && (exists j :: j in jobs && j.dependsOn != [])
    && (forall j :: j in jobs ==> KnownDependencies(j, Refs(jobs)))
  }

  // The dependencies name other jobs of the flow.
  predicate KnownDependencies(job: FlowJob, refs: set<string>) {
    forall d :: d in job.dependsOn ==> d != "" && d != job.ref && d in refs
  }

  // An edge from a dependency to the job that waits for it.
  ghost predicate Edge(jobs: seq<FlowJob>, dep: string, ref: string) {
    exists j :: j in jobs && j.ref == ref && dep in j.dependsOn
  }

  // Consecutive edges that come back to the first ref.
  ghost predicate IsCycle(jobs: seq<FlowJob>, path: seq<string>) {
    && |path| >= 2 && path[0] == path[|path| - 1]
    && forall i :: 0 <= i < |path| - 1 ==> Edge(jobs, path[i], path[i + 1])
  }

  ghost predicate Acyclic(jobs: seq<FlowJob>) {
    !exists path :: IsCycle(jobs, path)
  }

  // ---------- The graph as the code builds it ----------

  type Graph = map<string, seq<string>>

  // `edges` lists, for each ref, its dependents, with repetitions; `deps` lists the dependencies.
  ghost predicate Transposed(edges: Graph, deps: Graph) {
    && edges.Keys == deps.Keys
    && (forall a, b :: a in edges && b in edges ==> multiset(edges[a])[b] == multiset(deps[b])[a])
    && (forall a, b :: a in edges && b in edges[a] ==> b in edges)
    && (forall a, b :: b in deps && a in deps[b] ==> a in deps)
  }

  lemma EdgesAreDeps(edges: Graph, deps: Graph, a: string, b: string)
    requires Transposed(edges, deps) && a in edges && b in edges
    ensures b in edges[a] <==> a in deps[b]
  {
    assert b in edges[a] <==> multiset(edges[a])[b] > 0;
    assert a in deps[b] <==> multiset(deps[b])[a] > 0;
  }

  lemma DistinctSize(s: seq<string>, all: set<string>)
    requires Distinct(s) && Elems(s) <= all
    ensures |Elems(s)| == |s| <= |all|
  {
    SizeOfElems(s);
    assert all == Elems(s) + (all - Elems(s));
  }

  // The number of dependencies that have not been visited, with repetitions.
  function Remaining(ds: seq<string>, visited: set<string>): nat {
    if ds == [] then 0
    else (if ds[0] in visited then 0 else 1) + Remaining(ds[1..], visited)
  }

  lemma {:induction false} RemainingAfter(ds: seq<string>, visited: set<string>, c: string)
    requires c !in visited
    ensures Remaining(ds, visited + {c}) + multiset(ds)[c] == Remaining(ds, visited)
  {
    if ds != [] {
      RemainingAfter(ds[1..], visited, c);
      assert ds == [ds[0]] + ds[1..];
    }
  }

  lemma {:induction false} NothingRemains(ds: seq<string>, visited: set<string>)
    ensures Remaining(ds, visited) == 0 <==> forall d :: d in ds ==> d in visited
  {
    if ds != [] {
      NothingRemains(ds[1..], visited);
      assert forall d :: d in ds <==> d == ds[0] || d in ds[1..];
    }
  }

  lemma {:induction false} AllRemain(ds: seq<string>)
    ensures Remaining(ds, {}) == |ds|
  {
    if ds != [] {
      AllRemain(ds[1..]);
    }
  }

  // ---------- Topological sort ----------

  // Every dependency of an ordered ref comes before it.
  ghost predicate Topological(deps: Graph, order: seq<string>) {
    forall i :: 0 <= i < |order| ==> order[i] in deps && forall d :: d in deps[order[i]] ==> d in order[..i]
  }

  // Between two visits: counters say what remains, and the refs at zero are visited or queued.
  ghost predicate Sorting(edges: Graph, deps: Graph, inDegree: map<string, nat>, order: seq<string>,
                          queue: seq<string>) {
    && Distinct(order)
    && Counted(edges, deps, inDegree, Elems(order), [], Elems(order), queue)
  }

  // The counters once the refs of `visited` have all been taken off and `lowered` has been taken off besides;
  // the refs at zero are those of `known` and of the queue.
  ghost predicate Counted(edges: Graph, deps: Graph, inDegree: map<string, nat>, visited: set<string>,
                          lowered: seq<string>, known: set<string>, queue: seq<string>) {
    && inDegree.Keys == edges.Keys == deps.Keys
    && Distinct(queue) && known + Elems(queue) <= edges.Keys && known !! Elems(queue)
    && (forall r :: r in edges ==> inDegree[r] + multiset(lowered)[r] == Remaining(deps[r], visited))
    && (forall r :: r in edges ==> (r in known || r in queue <==> inDegree[r] == 0))
  }

  ghost predicate MissesOne(deps: Graph, order: seq<string>, r: string)
    requires r in deps
  {
    exists d :: d in deps[r] && d !in order
  }

  // Every ref left out has a dependency that is left out too.
  ghost predicate LeftOutTogether(deps: Graph, order: seq<string>) {
    forall r {:trigger MissesOne(deps, order, r)} :: r in deps && r !in order ==> MissesOne(deps, order, r)
  }

  // Visits refs whose dependencies are all visited, until none is left.
  method TopologicalSort(edges: Graph, inDegrees: map<string, nat>, refs: seq<string>, ghost deps: Graph)
    returns (visited: nat, ghost order: seq<string>)
    requires Transposed(edges, deps) && Distinct(refs) && Elems(refs) == edges.Keys
    requires inDegrees.Keys == edges.Keys && forall r :: r in edges ==> inDegrees[r] == |deps[r]|
    ensures visited == |order| && Distinct(order) && Elems(order) <= edges.Keys
    ensures Topological(deps, order)
    ensures LeftOutTogether(deps, order)
    ensures visited <= |edges.Keys| && (visited == |edges.Keys| <==> HasOrder(deps))
  {
    var inDegree := inDegrees;
    var queue := Roots(inDegrees, refs);
    visited, order := 0, [];
    SortingStarts(edges, deps, inDegree, queue);
    while queue != []
      invariant visited == |order|
      invariant Sorting(edges, deps, inDegree, order, queue)
      invariant Topological(deps, order)
      decreases |edges.Keys| - |order|
    {
      ghost var next := order + [queue[0]];
      assert Topological(deps, next) by { VisitKeepsOrder(edges, deps, inDegree, order, queue); }
      inDegree, queue := Relax(edges, inDegree, queue, order, deps);
      assert |next| <= |edges.Keys| by { SortingFits(edges, deps, inDegree, next, queue); }
      visited, order := visited + 1, next;
    }
    SortingEnds(edges, deps, inDegree, order);
    VisitedAllIff(deps, order);
  }

  // All refs can be put in topological order.
  ghost predicate HasOrder(deps: Graph) {
    exists order: seq<string> :: Distinct(order) && Elems(order) == deps.Keys && Topological(deps, order)
  }

  // If there is an order of all refs, none can be left out with a dependency that is left out.
  lemma {:induction false} NothingIsLeftOut(deps: Graph, full: seq<string>, order: seq<string>, k: nat)
    requires Topological(deps, full) && k < |full|
    requires LeftOutTogether(deps, order)
    ensures full[k] in order
  {
    if full[k] !in order {
      assert MissesOne(deps, order, full[k]);
      var d :| d in deps[full[k]] && d !in order;
      assert d in full[..k];
      var j :| 0 <= j < k && full[j] == d;
      NothingIsLeftOut(deps, full, order, j);
    }
  }

  lemma OrderedAllAreVisited(deps: Graph, full: seq<string>, order: seq<string>)
    requires Topological(deps, full) && Elems(full) == deps.Keys
    requires LeftOutTogether(deps, order)
    ensures deps.Keys <= Elems(order)
  {
    forall r | r in deps ensures r in Elems(order) {
      assert r in Elems(full);
      var k :| 0 <= k < |full| && full[k] == r;
      NothingIsLeftOut(deps, full, order, k);
    }
  }

  lemma OrderedIsVisited(deps: Graph, order: seq<string>)
    requires Distinct(order) && Elems(order) <= deps.Keys
    requires LeftOutTogether(deps, order) && HasOrder(deps)
    ensures |order| == |deps.Keys|
  {
    var full: seq<string> :| Distinct(full) && Elems(full) == deps.Keys && Topological(deps, full);
    OrderedAllAreVisited(deps, full, order);
    assert Elems(order) == deps.Keys;
    DistinctSize(order, deps.Keys);
  }

  lemma VisitedIsOrdered(deps: Graph, order: seq<string>)
    requires Distinct(order) && Elems(order) <= deps.Keys && Topological(deps, order)
    requires |order| == |deps.Keys|
    ensures HasOrder(deps)
  {
    FullOrder(order, deps.Keys);
    assert Distinct(order) && Elems(order) == deps.Keys && Topological(deps, order);
  }

  lemma VisitedAllIff(deps: Graph, order: seq<string>)
    requires Distinct(order) && Elems(order) <= deps.Keys && Topological(deps, order)
    requires LeftOutTogether(deps, order)
    ensures |order| <= |deps.Keys| && (|order| == |deps.Keys| <==> HasOrder(deps))
  {
    assert |order| <= |deps.Keys| by { DistinctSize(order, deps.Keys); }
    if HasOrder(deps) {
      OrderedIsVisited(deps, order);
    }
    if |order| == |deps.Keys| {
      VisitedIsOrdered(deps, order);
    }
  }

  // The refs without dependencies, in the order of the jobs.
  method Roots(inDegree: map<string, nat>, refs: seq<string>) returns (queue: seq<string>)
    requires Distinct(refs) && Elems(refs) == inDegree.Keys
    ensures Distinct(queue)
    ensures forall r :: r in queue <==> r in inDegree && inDegree[r] == 0
  {
    queue := [];
    for i := 0 to |refs|
      invariant Distinct(queue)
      invariant forall r :: r in queue <==> r in refs[..i] && inDegree[r] == 0
    {
      assert refs[i] !in refs[..i];
      if inDegree[refs[i]] == 0 {
        queue := queue + [refs[i]];
      }
    }
    assert refs[..|refs|] == refs;
  }

  lemma SortingStarts(edges: Graph, deps: Graph, inDegree: map<string, nat>, queue: seq<string>)
    requires edges.Keys == deps.Keys == inDegree.Keys
    requires forall r :: r in edges ==> inDegree[r] == |deps[r]|
    requires Distinct(queue) && forall r :: r in queue <==> r in inDegree && inDegree[r] == 0
    ensures Sorting(edges, deps, inDegree, [], queue)
  {
    assert Elems<string>([]) == {};
    forall r | r in edges ensures inDegree[r] == Remaining(deps[r], {}) {
      AllRemain(deps[r]);
    }
  }

  lemma VisitKeepsOrder(edges: Graph, deps: Graph, inDegree: map<string, nat>, order: seq<string>, queue: seq<string>)
    requires Sorting(edges, deps, inDegree, order, queue) && Topological(deps, order) && queue != []
    ensures Topological(deps, order + [queue[0]])
  {
    var next := order + [queue[0]];
    assert queue[0] in Elems(queue);
    NothingRemains(deps[queue[0]], Elems(order));
    forall i | 0 <= i < |next|
      ensures next[i] in deps && forall d :: d in deps[next[i]] ==> d in next[..i]
    {
      if i < |order| {
        assert next[i] == order[i] && next[..i] == order[..i];
      } else {
        assert next[..i] == order;
      }
    }
  }

  lemma SortingFits(edges: Graph, deps: Graph, inDegree: map<string, nat>, order: seq<string>, queue: seq<string>)
    requires Sorting(edges, deps, inDegree, order, queue)
    ensures |order| <= |edges.Keys|
  {
    DistinctSize(order, edges.Keys);
  }

  lemma SortingEnds(edges: Graph, deps: Graph, inDegree: map<string, nat>, order: seq<string>)
    requires Sorting(edges, deps, inDegree, order, [])
    ensures Distinct(order) && Elems(order) <= edges.Keys
    ensures LeftOutTogether(deps, order)
  {
    forall r | r in edges && r !in order
      ensures MissesOne(deps, order, r)
    {
      assert r !in Elems(order);
      NothingRemains(deps[r], Elems(order));
    }
  }

  // A dependent that has not been taken off yet still counts the ref that is being visited.
  lemma ChildIsWaiting(edges: Graph, deps: Graph, inDegree: map<string, nat>, visited: set<string>, current: string,
                       i: nat, known: set<string>, queue: seq<string>)
    requires Transposed(edges, deps) && current in edges && current !in visited && i < |edges[current]|
    requires Counted(edges, deps, inDegree, visited, edges[current][..i], known, queue)
    ensures edges[current][i] in edges && inDegree[edges[current][i]] > 0
  {
    var children := edges[current];
    var child := children[i];
    assert child in edges[current];
    PrefixHoldsFewer(children, i);
    RemainingAfter(deps[child], visited, current);
  }

  lemma PrefixHoldsFewer(s: seq<string>, i: nat)
    requires i < |s|
    ensures multiset(s[..i])[s[i]] < multiset(s)[s[i]]
  {
    assert s == s[..i] + [s[i]] + s[i + 1..];
  }

  lemma LowerOne(edges: Graph, deps: Graph, inDegree: map<string, nat>, visited: set<string>, lowered: seq<string>,
                 child: string, known: set<string>, queue: seq<string>)
    requires Counted(edges, deps, inDegree, visited, lowered, known, queue)
    requires child in edges && inDegree[child] > 0
    ensures var less := inDegree[child := inDegree[child] - 1];
            Counted(edges, deps, less, visited, lowered + [child], known,
                    if less[child] == 0 then queue + [child] else queue)
  {
    assert child !in queue;
    var longer := queue + [child];
    assert Elems(longer) == Elems(queue) + {child};
  }

  lemma NextOfPrefix(s: seq<string>, i: nat)
    requires i < |s|
    ensures s[..i + 1] == s[..i] + [s[i]]
  {
  }

  // The body of the loop: takes the first ref of the queue and lowers its dependents.
  method Relax(edges: Graph, degrees: map<string, nat>, queue: seq<string>, ghost order: seq<string>, ghost deps: Graph)
    returns (inDegree: map<string, nat>, rest: seq<string>)
    requires Transposed(edges, deps) && queue != [] && Sorting(edges, deps, degrees, order, queue)
    ensures Sorting(edges, deps, inDegree, order + [queue[0]], rest)
  {
    inDegree := degrees;
    var current := queue[0];
    rest := queue[1..];
    VisitStarts(edges, deps, degrees, order, queue);
    ghost var visited := Elems(order);
    for i := 0 to |edges[current]|
      invariant Counted(edges, deps, inDegree, visited, edges[current][..i], visited + {current}, rest)
    {
      var child := edges[current][i];
      ChildIsWaiting(edges, deps, inDegree, visited, current, i, visited + {current}, rest);
      LowerOne(edges, deps, inDegree, visited, edges[current][..i], child, visited + {current}, rest);
      NextOfPrefix(edges[current], i);
      inDegree := inDegree[child := inDegree[child] - 1];
      if inDegree[child] == 0 {
        rest := rest + [child];
      }
    }
    VisitEnds(edges, deps, inDegree, order, current, rest);
  }

  lemma VisitStarts(edges: Graph, deps: Graph, inDegree: map<string, nat>, order: seq<string>, queue: seq<string>)
    requires queue != [] && Sorting(edges, deps, inDegree, order, queue)
    ensures queue[0] in edges && queue[0] !in order
    ensures Counted(edges, deps, inDegree, Elems(order), edges[queue[0]][..0], Elems(order) + {queue[0]}, queue[1..])
  {
    assert queue[0] in Elems(queue);
    assert edges[queue[0]][..0] == [];
    assert queue == [queue[0]] + queue[1..];
  }

  lemma VisitEnds(edges: Graph, deps: Graph, inDegree: map<string, nat>, order: seq<string>, current: string,
                  rest: seq<string>)
    requires Transposed(edges, deps) && current in edges && current !in order && Distinct(order)
    requires var children := edges[current];
             Counted(edges, deps, inDegree, Elems(order), children[..|children|], Elems(order) + {current}, rest)
    ensures Sorting(edges, deps, inDegree, order + [current], rest)
  {
    var children := edges[current];
    assert children[..|children|] == children;
    assert Elems(order + [current]) == Elems(order) + {current};
    forall r | r in edges
      ensures inDegree[r] == Remaining(deps[r], Elems(order) + {current})
    {
      RemainingAfter(deps[r], Elems(order), current);
      assert multiset(children)[r] == multiset(deps[r])[current];
    }
  }

  // ---------- Building the graph ----------

  function DependsOn(jobs: seq<FlowJob>, ref: string): seq<string> {
    if jobs == [] then []
    else if jobs[0].ref == ref then jobs[0].dependsOn
    else DependsOn(jobs[1..], ref)
  }

  function Deps(jobs: seq<FlowJob>): Graph {
    map r | r in Refs(jobs) :: DependsOn(jobs, r)
  }

  ghost predicate DistinctRefs(jobs: seq<FlowJob>) {
    forall i, j :: 0 <= i < j < |jobs| ==> jobs[i].ref != jobs[j].ref
  }

  lemma {:induction false} DependsOnIs(jobs: seq<FlowJob>, i: nat)
    requires DistinctRefs(jobs) && i < |jobs|
    ensures DependsOn(jobs, jobs[i].ref) == jobs[i].dependsOn
  {
    if i > 0 {
      assert jobs[i].ref == jobs[1..][i - 1].ref;
      DependsOnIs(jobs[1..], i - 1);
    }
  }

  lemma EdgeIsDep(jobs: seq<FlowJob>, dep: string, ref: string)
    requires DistinctRefs(jobs)
    ensures Edge(jobs, dep, ref) <==> ref in Deps(jobs) && dep in Deps(jobs)[ref]
  {
    forall i | 0 <= i < |jobs| ensures jobs[i].ref in Refs(jobs) && DependsOn(jobs, jobs[i].ref) == jobs[i].dependsOn {
      DependsOnIs(jobs, i);
    }
  }

  // The lists and the counters agree on the edges entered so far.
  ghost predicate Built(edges: Graph, inDegree: map<string, nat>, done: Graph) {
    && Transposed(edges, done) && inDegree.Keys == edges.Keys
    && forall r :: r in edges ==> inDegree[r] == |done[r]|
  }

  lemma AddEdge(edges: Graph, inDegree: map<string, nat>, done: Graph, ref: string, entered: seq<string>, dep: string)
    requires Built(edges, inDegree, done[ref := entered]) && dep in edges && ref in edges
    ensures Built(edges[dep := edges[dep] + [ref]], inDegree[ref := inDegree[ref] + 1], done[ref := entered + [dep]])
  {
    OneMoreEdge(edges, done[ref := entered], ref, dep);
    UpdateTwice(done, ref, entered, entered + [dep]);
    OneMoreCount(edges.Keys, inDegree, done[ref := entered], ref, dep);
  }

  lemma UpdateTwice(done: Graph, ref: string, first: seq<string>, second: seq<string>)
    ensures done[ref := first][ref := second] == done[ref := second]
  {
  }

  lemma OneMoreCount(refs: set<string>, inDegree: map<string, nat>, deps: Graph, ref: string, dep: string)
    requires inDegree.Keys == deps.Keys == refs && ref in refs
    requires forall r :: r in refs ==> inDegree[r] == |deps[r]|
    ensures var counted, later := inDegree[ref := inDegree[ref] + 1], deps[ref := deps[ref] + [dep]];
            counted.Keys == refs && forall r :: r in refs ==> counted[r] == |later[r]|
  {
  }

  lemma OneMoreEdge(edges: Graph, deps: Graph, ref: string, dep: string)
    requires Transposed(edges, deps) && dep in edges && ref in edges
    ensures Transposed(edges[dep := edges[dep] + [ref]], deps[ref := deps[ref] + [dep]])
  {
  }

  // Every ref starts without edges.
  method EmptyGraph(jobs: seq<FlowJob>) returns (edges: Graph, inDegree: map<string, nat>, refs: seq<string>)
    requires DistinctRefs(jobs)
    ensures edges.Keys == inDegree.Keys == Elems(refs) == Refs(jobs) && Distinct(refs) && |refs| == |jobs|
    ensures forall r :: r in edges ==> edges[r] == [] && inDegree[r] == 0
  {
    edges, inDegree, refs := map[], map[], [];
    for i := 0 to |jobs|
      invariant |refs| == i && forall k :: 0 <= k < i ==> refs[k] == jobs[k].ref
      invariant edges.Keys == inDegree.Keys == Elems(refs)
      invariant forall r :: r in edges ==> edges[r] == [] && inDegree[r] == 0
    {
      edges, inDegree := edges[jobs[i].ref := []], inDegree[jobs[i].ref := 0];
      refs := refs + [jobs[i].ref];
    }
    assert forall r :: r in Refs(jobs) ==> exists k :: 0 <= k < |jobs| && jobs[k].ref == r;
  }

  method BuildGraph(jobs: seq<FlowJob>) returns (edges: Graph, inDegree: map<string, nat>, refs: seq<string>)
    requires WellFormed(jobs)
    ensures Distinct(refs) && Elems(refs) == edges.Keys == Refs(jobs) && |refs| == |jobs|
    ensures Built(edges, inDegree, Deps(jobs))
  {
    edges, inDegree, refs := EmptyGraph(jobs);
    EmptyIsBuilt(jobs, edges, inDegree);
    for i := 0 to |jobs|
      invariant edges.Keys == Refs(jobs) && Built(edges, inDegree, DepsUpTo(jobs, i))
    {
      DependenciesAreRefs(jobs, i);
      DepsOfOneMore(jobs, i);
      edges, inDegree := AddEdges(jobs[i], edges, inDegree, DepsUpTo(jobs, i));
    }
    AllDepsRead(jobs);
  }

  lemma EmptyIsBuilt(jobs: seq<FlowJob>, edges: Graph, inDegree: map<string, nat>)
    requires edges.Keys == inDegree.Keys == Refs(jobs) && forall r :: r in edges ==> edges[r] == [] && inDegree[r] == 0
    ensures Built(edges, inDegree, DepsUpTo(jobs, 0))
  {
    forall r | r in Refs(jobs) ensures DepsUpTo(jobs, 0)[r] == [] {
      assert jobs[..0] == [];
    }
  }

  lemma AllDepsRead(jobs: seq<FlowJob>)
    ensures DepsUpTo(jobs, |jobs|) == Deps(jobs)
  {
    assert jobs[..|jobs|] == jobs;
  }

  // The dependencies once the first n jobs have been read.
  ghost function DepsUpTo(jobs: seq<FlowJob>, n: nat): Graph
    requires n <= |jobs|
  {
    map r | r in Refs(jobs) :: DependsOn(jobs[..n], r)
  }

  lemma {:induction false} DependsOnSnoc(jobs: seq<FlowJob>, job: FlowJob, ref: string)
    ensures DependsOn(jobs + [job], ref)
            == if ref !in Refs(jobs) && job.ref == ref then job.dependsOn else DependsOn(jobs, ref)
    ensures ref !in Refs(jobs) ==> DependsOn(jobs, ref) == []
  {
    if jobs != [] {
      assert (jobs + [job])[1..] == jobs[1..] + [job];
      DependsOnSnoc(jobs[1..], job, ref);
      assert jobs[0] in jobs && forall j :: j in jobs <==> j == jobs[0] || j in jobs[1..];
    }
  }

  lemma DepsOfOneMore(jobs: seq<FlowJob>, i: nat)
    requires DistinctRefs(jobs) && i < |jobs|
    ensures jobs[i].ref in Refs(jobs) && DepsUpTo(jobs, i)[jobs[i].ref] == []
    ensures DepsUpTo(jobs, i + 1) == DepsUpTo(jobs, i)[jobs[i].ref := jobs[i].dependsOn]
  {
    assert jobs[..i + 1] == jobs[..i] + [jobs[i]] && jobs[i] in jobs;
    assert jobs[i].ref !in Refs(jobs[..i]);
    forall r | r in Refs(jobs)
      ensures DepsUpTo(jobs, i + 1)[r] == if r == jobs[i].ref then jobs[i].dependsOn else DepsUpTo(jobs, i)[r]
    {
      DependsOnSnoc(jobs[..i], jobs[i], r);
    }
    DependsOnSnoc(jobs[..i], jobs[i], jobs[i].ref);
  }

  lemma DependenciesAreRefs(jobs: seq<FlowJob>, i: nat)
    requires WellFormed(jobs) && i < |jobs|
    ensures jobs[i].ref in Refs(jobs) && forall d :: d in jobs[i].dependsOn ==> d in Refs(jobs)
  {
    assert jobs[i] in jobs;
  }

  // One dependency, pushed on the list of the ref it names.
  method PushEdge(edges: Graph, inDegree: map<string, nat>, ref: string, dep: string, ghost done: Graph,
                  ghost entered: seq<string>)
    returns (edges': Graph, inDegree': map<string, nat>)
    requires Built(edges, inDegree, done[ref := entered]) && dep in edges && ref in edges
    ensures edges'.Keys == edges.Keys && Built(edges', inDegree', done[ref := entered + [dep]])
  {
    AddEdge(edges, inDegree, done, ref, entered, dep);
    edges' := edges[dep := edges[dep] + [ref]];
    inDegree' := inDegree[ref := inDegree[ref] + 1];
  }

  method AddEdges(job: FlowJob, edges0: Graph, inDegree0: map<string, nat>, ghost done: Graph)
    returns (edges: Graph, inDegree: map<string, nat>)
    requires job.ref in edges0 && forall d :: d in job.dependsOn ==> d in edges0
    requires Built(edges0, inDegree0, done) && done[job.ref] == []
    ensures edges.Keys == edges0.Keys && Built(edges, inDegree, done[job.ref := job.dependsOn])
  {
    edges, inDegree := edges0, inDegree0;
    var ref, deps := job.ref, job.dependsOn;
    NothingEntered(job, done);
    for k := 0 to |deps|
      invariant edges.Keys == edges0.Keys && Built(edges, inDegree, done[ref := deps[..k]])
    {
      NextOfPrefix(deps, k);
      edges, inDegree := PushEdge(edges, inDegree, ref, deps[k], done, deps[..k]);
    }
    WholePrefix(deps);
  }

  lemma NothingEntered(job: FlowJob, done: Graph)
    requires job.ref in done && done[job.ref] == []
    ensures done[job.ref := job.dependsOn[..0]] == done
  {
  }

  lemma WholePrefix(s: seq<string>)
    ensures s[..|s|] == s
  {
  }

  // ---------- Naming a cycle ----------

  ghost predicate Closed(edges: Graph) {
    forall a, b :: a in edges && b in edges[a] ==> b in edges
  }

  // Consecutive elements are edges.
  ghost predicate IsWalk(edges: Graph, path: seq<string>) {
    && (forall i :: 0 <= i < |path| ==> path[i] in edges)
    && (forall i :: 0 <= i < |path| - 1 ==> path[i + 1] in edges[path[i]])
  }

  // Every dependent of a finished ref was finished before it.
  ghost predicate Finished(edges: Graph, finish: seq<string>) {
    && Distinct(finish)
    && forall i :: 0 <= i < |finish| ==> finish[i] in edges && forall c :: c in edges[finish[i]] ==> c in finish[..i]
  }

  lemma FinishOne(edges: Graph, finish: seq<string>, ref: string)
    requires Finished(edges, finish) && ref in edges && ref !in finish
    requires forall c :: c in edges[ref] ==> c in finish
    ensures Finished(edges, finish + [ref])
  {
    var longer := finish + [ref];
    forall i | 0 <= i < |longer|
      ensures longer[i] in edges && forall c :: c in edges[longer[i]] ==> c in longer[..i]
    {
      if i < |finish| {
        assert longer[..i] == finish[..i];
      } else {
        assert longer[..i] == finish;
      }
    }
  }

  method IndexOf(path: seq<string>, ref: string) returns (start: nat)
    requires ref in path
    ensures start < |path| && path[start] == ref && ref !in path[..start]
  {
    start := 0;
    while path[start] != ref
      invariant start < |path| && ref !in path[..start] && ref in path[start..]
      decreases |path| - start
    {
      start := start + 1;
    }
  }

  class CycleFinder {
    const edges: Graph
    var visiting: set<string>
    var visited: set<string>
    var path: seq<string>
    // The visited refs in the order the search left them.
    ghost var finish: seq<string>

    ghost predicate Valid()
      reads this
    {
      && Closed(edges)
      && Distinct(path) && Elems(path) == visiting && IsWalk(edges, path)
      && Elems(finish) == visited && Finished(edges, finish) && visiting !! visited
    }

    constructor (edges: Graph)
      requires Closed(edges)
      ensures Valid() && this.edges == edges && path == []
    {
      this.edges := edges;
      visiting, visited, path, finish := {}, {}, [], [];
    }

    // Either a walk that returns to its first ref, or ref and all it reaches are finished.
    method Visit(ref: string) returns (cycle: Option<seq<string>>)
      requires Valid() && ref in edges && (path != [] ==> ref in edges[path[|path| - 1]])
      modifies this
      ensures cycle.None? ==> Valid() && path == old(path) && visiting == old(visiting)
      ensures cycle.None? ==> old(visited) <= visited && ref in visited
      ensures cycle.Some? ==>
                |cycle.value| >= 2 && cycle.value[0] == cycle.value[|cycle.value| - 1] && IsWalk(edges, cycle.value)
      decreases edges.Keys - visiting - visited
    {
      if ref in visiting {
        var start := IndexOf(path, ref);
        return Some(path[start..] + [ref]);
      }
      if ref in visited {
        return None;
      }
      ghost var unfinished := edges.Keys - visiting - visited;
      Enter(ref);
      var children := edges[ref];
      for i := 0 to |children|
        invariant Valid() && path == old(path) + [ref] && old(visited) <= visited && visiting == old(visiting) + {ref}
        invariant forall c :: c in children[..i] ==> c in visited
      {
        NextOfPrefix(children, i);
        assert ref in unfinished && ref !in edges.Keys - visiting - visited;
        cycle := Visit(children[i]);
        if cycle.Some? {
          return cycle;
        }
      }
      assert children[..|children|] == children;
      Leave(ref);
      cycle := None;
    }

    method Enter(ref: string)
      requires Valid() && ref in edges && (path != [] ==> ref in edges[path[|path| - 1]])
      requires ref !in visiting && ref !in visited
      modifies this
      ensures Valid() && path == old(path) + [ref] && visiting == old(visiting) + {ref}
      ensures visited == old(visited) && finish == old(finish)
    {
      visiting := visiting + {ref};
      path := path + [ref];
    }

    method Leave(ref: string)
      requires Valid() && path != [] && path[|path| - 1] == ref && forall c :: c in edges[ref] ==> c in visited
      modifies this
      ensures Valid() && path == old(path)[..|old(path)| - 1] && visiting == old(visiting) - {ref}
      ensures visited == old(visited) + {ref}
    {
      assert ref in Elems(path) && ref !in Elems(finish);
      assert path == path[..|path| - 1] + [ref];
      FinishOne(edges, finish, ref);
      path := path[..|path| - 1];
      visiting := visiting - {ref};
      visited := visited + {ref};
      finish := finish + [ref];
    }
  }

  // A cycle, or an order in which every ref comes after all its dependents.
  method FindDependencyCycle(edges: Graph, refs: seq<string>)
    returns (cycle: Option<seq<string>>, ghost finish: seq<string>)
    requires Closed(edges) && Elems(refs) == edges.Keys
    ensures cycle.None? ==> Finished(edges, finish) && Elems(finish) == edges.Keys
    ensures cycle.Some? ==>
              |cycle.value| >= 2 && cycle.value[0] == cycle.value[|cycle.value| - 1] && IsWalk(edges, cycle.value)
  {
    var finder := new CycleFinder(edges);
    cycle, finish := None, [];
    for i := 0 to |refs|
      invariant finder.Valid() && finder.path == [] && finder.edges == edges
      invariant forall r :: r in refs[..i] ==> r in finder.visited
    {
      assert refs[i] in Elems(refs);
      NextOfPrefix(refs, i);
      cycle := finder.Visit(refs[i]);
      if cycle.Some? {
        return;
      }
    }
    assert refs[..|refs|] == refs;
    cycle, finish := None, finder.finish;
    assert forall r :: r in edges ==> r in Elems(refs);
  }

  // ---------- Both searches agree ----------

  // A ref the sort left out has a dependency it left out; so does that one, later and later in `finish`.
  lemma {:induction false} NoneIsStuck(edges: Graph, deps: Graph, order: seq<string>, finish: seq<string>, k: nat)
    requires Transposed(edges, deps) && Finished(edges, finish) && Elems(finish) == edges.Keys && k < |finish|
    requires LeftOutTogether(deps, order)
    ensures finish[k] in order
    decreases |finish| - k
  {
    var r := finish[k];
    if r !in order {
      assert MissesOne(deps, order, r);
      var d :| d in deps[r] && d !in order;
      EdgesAreDeps(edges, deps, d, r);
      assert d in Elems(finish);
      var m :| 0 <= m < |finish| && finish[m] == d;
      assert r in finish[..m];
      NoneIsStuck(edges, deps, order, finish, m);
    }
  }

  function Position(order: seq<string>, ref: string): (at: nat)
    requires ref in order
    ensures at < |order| && order[at] == ref
  {
    if order[0] == ref then 0 else 1 + Position(order[1..], ref)
  }

  lemma {:induction false} PositionIsFirst(order: seq<string>, ref: string, i: nat)
    requires i <= |order| && ref in order[..i]
    ensures ref in order && Position(order, ref) < i
  {
    assert order == order[..i] + order[i..];
    if order[0] != ref {
      assert order[1..][..i - 1] == order[..i][1..];
      PositionIsFirst(order[1..], ref, i - 1);
    }
  }

  // Along any walk the positions in a complete topological order grow.
  lemma {:induction false} PositionsGrow(jobs: seq<FlowJob>, order: seq<string>, path: seq<string>, i: nat)
    requires DistinctRefs(jobs) && Topological(Deps(jobs), order) && Refs(jobs) <= Elems(order)
    requires i < |path| && path[0] in order && forall k :: 0 <= k < |path| - 1 ==> Edge(jobs, path[k], path[k + 1])
    ensures path[i] in order && Position(order, path[0]) + i <= Position(order, path[i])
  {
    if i > 0 {
      PositionsGrow(jobs, order, path, i - 1);
      assert Edge(jobs, path[i - 1], path[i - 1 + 1]);
      EdgeIsDep(jobs, path[i - 1], path[i]);
      assert path[i] in Elems(order);
      PositionIsFirst(order, path[i - 1], Position(order, path[i]));
    }
  }

  lemma OrderedIsAcyclic(jobs: seq<FlowJob>, order: seq<string>)
    requires WellFormed(jobs) && Topological(Deps(jobs), order) && Refs(jobs) <= Elems(order)
    ensures Acyclic(jobs)
  {
    forall path | IsCycle(jobs, path) ensures false {
      assert Edge(jobs, path[0], path[0 + 1]);
      EdgeIsDep(jobs, path[0], path[1]);
      assert path[0] in Elems(order);
      PositionsGrow(jobs, order, path, |path| - 1);
    }
  }

  lemma WalkIsCycle(jobs: seq<FlowJob>, edges: Graph, path: seq<string>)
    requires DistinctRefs(jobs) && Transposed(edges, Deps(jobs)) && IsWalk(edges, path)
    requires |path| >= 2 && path[0] == path[|path| - 1]
    ensures IsCycle(jobs, path)
  {
    forall i | 0 <= i < |path| - 1 ensures Edge(jobs, path[i], path[i + 1]) {
      EdgesAreDeps(edges, Deps(jobs), path[i], path[i + 1]);
      EdgeIsDep(jobs, path[i], path[i + 1]);
    }
  }

  lemma FullOrder(order: seq<string>, all: set<string>)
    requires Distinct(order) && Elems(order) <= all && |order| == |all|
    ensures Elems(order) == all
  {
    DistinctSize(order, all);
    assert all == Elems(order) + (all - Elems(order));
  }

  // ---------- The whole validation ----------

  // What each structural error claims about the flow.
  ghost predicate IsFault(jobs: seq<FlowJob>, error: Error) {
    match error
    case TooFewJobs => |jobs| < 2
    case EmptyRef => exists j :: j in jobs && j.ref == ""
    case DuplicateRef(ref) => exists i, k :: 0 <= i < k < |jobs| && jobs[i].ref == jobs[k].ref == ref
    case InvalidName(ref) => exists j :: j in jobs && j.ref == ref && !ValidName(j.name)
    case NoDependencies => forall j :: j in jobs ==> j.dependsOn == []
    case EmptyDependency(ref) => exists j :: j in jobs && j.ref == ref && "" in j.dependsOn
    case SelfDependency(ref) => exists j :: j in jobs && j.ref == ref && ref in j.dependsOn
    case UnknownDependency(ref, dep) =>
      dep !in Refs(jobs) && exists j :: j in jobs && j.ref == ref && dep in j.dependsOn
    case DependencyCycle(path) => WellFormed(jobs) && IsCycle(jobs, path)
  }

  method CheckRefs(jobs: seq<FlowJob>) returns (error: Option<Error>, refs: set<string>)
    ensures error.Some? ==> !error.value.DependencyCycle? && IsFault(jobs, error.value)
    ensures error.None? ==> refs == Refs(jobs) && DistinctRefs(jobs)
    ensures error.None? ==> forall j :: j in jobs ==> j.ref != "" && ValidName(j.name)
  {
    refs := {};
    for i := 0 to |jobs|
      invariant forall r :: r in refs <==> exists k :: 0 <= k < i && jobs[k].ref == r
      invariant forall j, k :: 0 <= j < k < i ==> jobs[j].ref != jobs[k].ref
      invariant forall k :: 0 <= k < i ==> jobs[k].ref != "" && ValidName(jobs[k].name)
    {
      var job := jobs[i];
      if job.ref == "" {
        return Some(EmptyRef), refs;
      }
      if job.ref in refs {
        return Some(DuplicateRef(job.ref)), refs;
      }
      refs := refs + {job.ref};
      if !ValidName(job.name) {
        return Some(InvalidName(job.ref)), refs;
      }
    }
    error := None;
    assert forall r :: r in Refs(jobs) ==> exists k :: 0 <= k < |jobs| && jobs[k].ref == r;
  }

  method CheckDependencies(jobs: seq<FlowJob>, refs: set<string>) returns (error: Option<Error>)
    requires refs == Refs(jobs)
    ensures error.Some? ==> !error.value.DependencyCycle? && IsFault(jobs, error.value)
    ensures error.None? ==> forall j :: j in jobs ==> KnownDependencies(j, refs)
  {
    for i := 0 to |jobs|
      invariant forall k :: 0 <= k < i ==> KnownDependencies(jobs[k], refs)
    {
      var job := jobs[i];
      for k := 0 to |job.dependsOn|
        invariant forall d :: d in job.dependsOn[..k] ==> d != "" && d != job.ref && d in refs
      {
        var dep := job.dependsOn[k];
        assert dep in job.dependsOn && job in jobs;
        if dep == "" {
          return Some(EmptyDependency(job.ref));
        }
        if dep == job.ref {
          return Some(SelfDependency(job.ref));
        }
        if dep !in refs {
          return Some(UnknownDependency(job.ref, dep));
        }
        NextOfPrefix(job.dependsOn, k);
      }
      WholePrefix(job.dependsOn);
    }
    error := None;
  }

  // A flow is accepted exactly when it is well formed and has no cycle; a reported cycle is real.
  method ValidateFlowJobs(jobs: seq<FlowJob>) returns (error: Option<Error>)
    ensures error.None? <==> WellFormed(jobs) && Acyclic(jobs)
    ensures error.Some? ==> IsFault(jobs, error.value)
    ensures (error.Some? && error.value.DependencyCycle?) <==> WellFormed(jobs) && !Acyclic(jobs)
  {
    if |jobs| < 2 {
      return Some(TooFewJobs);
    }
    var refs: set<string>;
    error, refs := CheckRefs(jobs);
    if error.Some? {
      FaultsAreReal(jobs, error.value);
      return;
    }
    if forall j :: j in jobs ==> j.dependsOn == [] {
      return Some(NoDependencies);
    }
    error := CheckDependencies(jobs, refs);
    if error.Some? {
      FaultsAreReal(jobs, error.value);
      return;
    }
    error := CheckCycles(jobs);
  }

  lemma FaultsAreReal(jobs: seq<FlowJob>, error: Error)
    requires IsFault(jobs, error) && !error.DependencyCycle?
    ensures !WellFormed(jobs)
  {
  }

  method CheckCycles(jobs: seq<FlowJob>) returns (error: Option<Error>)
    requires WellFormed(jobs)
    ensures error.None? <==> Acyclic(jobs)
    ensures error.Some? ==> error.value.DependencyCycle? && IsCycle(jobs, error.value.path)
  {
    var edges, inDegree, refs := BuildGraph(jobs);
    ghost var order;
    var visited;
    visited, order := TopologicalSort(edges, inDegree, refs, Deps(jobs));
    assert |edges.Keys| == |jobs| by { DistinctSize(refs, edges.Keys); }
    if visited != |jobs| {
      var cycle := NameCycle(jobs, edges, refs, order);
      return Some(DependencyCycle(cycle));
    }
    assert Elems(order) == Refs(jobs) by { FullOrder(order, edges.Keys); }
    OrderedIsAcyclic(jobs, order);
    error := None;
  }

  // The search for a cycle never comes back empty-handed when the sort has left refs out.
  method NameCycle(jobs: seq<FlowJob>, edges: Graph, refs: seq<string>, ghost order: seq<string>)
    returns (path: seq<string>)
    requires WellFormed(jobs) && Transposed(edges, Deps(jobs)) && Elems(refs) == edges.Keys
    requires Distinct(order) && Elems(order) <= edges.Keys && |order| != |edges.Keys|
    requires LeftOutTogether(Deps(jobs), order)
    ensures IsCycle(jobs, path)
  {
    var cycle;
    ghost var finish;
    cycle, finish := FindDependencyCycle(edges, refs);
    if cycle.None? {
      AllAreOrdered(edges, Deps(jobs), order, finish);
    }
    WalkIsCycle(jobs, edges, cycle.value);
    path := cycle.value;
  }

  // A search that ends without a cycle leaves nothing for the sort to miss.
  lemma AllAreOrdered(edges: Graph, deps: Graph, order: seq<string>, finish: seq<string>)
    requires Transposed(edges, deps) && Finished(edges, finish) && Elems(finish) == edges.Keys
    requires Distinct(order) && Elems(order) <= edges.Keys
    requires LeftOutTogether(deps, order)
    ensures |order| == |edges.Keys|
  {
    forall r | r in edges ensures r in Elems(order) {
      assert r in Elems(finish);
      var k :| 0 <= k < |finish| && finish[k] == r;
      NoneIsStuck(edges, deps, order, finish, k);
    }
    assert Elems(order) == edges.Keys;
    DistinctSize(order, edges.Keys);
  }
}
