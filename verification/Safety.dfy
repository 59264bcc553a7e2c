/**
 What holds over whole runs of the job table: flow safety, counter conservation, the retry
 budget, group concurrency, and safe maintenance.
 */
module Safety {
  import opened Outcomes
  import opened JobTable
  import opened Resolution
  import opened Statements
  import opened Lifecycle
  import opened Runs
  import Fetching

  ghost predicate StepAt(qs: seq<Queues>, ss: seq<State>, es: seq<Step>, i: nat)
    requires i < |es| && |qs| == |es| && |ss| == |es| + 1
  {
    Next(qs[i], ss[i], es[i], ss[i + 1])
  }

  // A run from the empty table. The queues' settings may change from step to step.
  ghost predicate IsRun(qs: seq<Queues>, ss: seq<State>, es: seq<Step>) {
    && |qs| == |es| && |ss| == |es| + 1 && Init(ss[0])
    && forall i :: 0 <= i < |es| ==> StepAt(qs, ss, es, i)
  }

  lemma StepInto(qs: seq<Queues>, ss: seq<State>, es: seq<Step>, i: nat)
    requires IsRun(qs, ss, es) && 0 < i <= |es|
    ensures Next(qs[i - 1], ss[i - 1], es[i - 1], ss[i])
  {
    assert StepAt(qs, ss, es, i - 1);
  }

  lemma {:induction false} RunKeepsInv(qs: seq<Queues>, ss: seq<State>, es: seq<Step>, i: nat)
    requires IsRun(qs, ss, es) && i <= |es|
    ensures Inv(ss[i])
  {
    if i == 0 {
      StartHasInv(ss[0]);
    } else {
      var s, e, s' := ss[i - 1], es[i - 1], ss[i];
      assert Inv(s) by { RunKeepsInv(qs, ss, es, i - 1); }
      assert Next(qs[i - 1], s, e, s') by { StepInto(qs, ss, es, i); }
      StepKeepsInv(qs[i - 1], s, e, s');
    }
  }

  lemma StartHasInv(s: State)
    requires Init(s)
    ensures Inv(s)
  {
  }

  // The job was in this table and had reached completed.
  predicate IsCompletedIn(s: State, k: Key) {
    k in s.jobs && s.jobs[k].state == Completed
  }

  lemma OnlyCompletionIsDone(queues: Queues, s: State, e: Step, s': State, k: Key)
    requires Next(queues, s, e, s') && k in s'.h.done && !IsCompletedIn(s', k)
    ensures k in s.h.done
  {
  }

  lemma {:induction false} DoneWasCompleted(qs: seq<Queues>, ss: seq<State>, es: seq<Step>, i: nat, k: Key)
    requires IsRun(qs, ss, es) && i <= |es| && k in ss[i].h.done
    ensures exists j :: 0 <= j <= i && IsCompletedIn(ss[j], k)
  {
    if k in ss[i].jobs && ss[i].jobs[k].state == Completed {
      assert IsCompletedIn(ss[i], k);
    } else {
      assert i > 0;
      assert k in ss[i - 1].h.done by {
        StepInto(qs, ss, es, i);
        OnlyCompletionIsDone(qs[i - 1], ss[i - 1], es[i - 1], ss[i], k);
      }
      DoneWasCompleted(qs, ss, es, i - 1, k);
    }
  }

  lemma {:induction false} DeclaredStays(qs: seq<Queues>, ss: seq<State>, es: seq<Step>, m: nat, i: nat, d: Dep)
    requires IsRun(qs, ss, es) && m <= i <= |es| && d in ss[m].h.declared
    ensures d in ss[i].h.declared
  {
    if m < i {
      DeclaredStays(qs, ss, es, m, i - 1, d);
      assert ss[i - 1].h.declared <= ss[i].h.declared by { StepInto(qs, ss, es, i); }
    }
  }

  // A job that becomes active was there, queued and not blocked.
  lemma OnlyQueuedJobsActivate(s: State, e: Step, s': State, k: Key)
    requires TableInv(s) && StepShape(s, e, s') && BecomesActive(s.jobs, s'.jobs, k)
    ensures e.DoFetch? && k in s.jobs && Before(s.jobs[k].state, Active) && !s.jobs[k].blocked
  {
    if k in s.jobs {
      RowStepFacts(e, s.jobs[k], s'.jobs[k]);
    }
  }

  lemma ActiveOnlyAfterDeclaredParents(qs: seq<Queues>, ss: seq<State>, es: seq<Step>, i: nat, k: Key, p: Key)
    requires IsRun(qs, ss, es) && i < |es| && BecomesActive(ss[i].jobs, ss[i + 1].jobs, k)
    requires Dep(k, p) in ss[i].h.declared
    ensures p in ss[i].h.done
  {
    var s := ss[i];
    assert k in s.jobs && !s.jobs[k].blocked && s.jobs[k].state != Completed by { ActivatedWasOpen(qs, ss, es, i, k); }
    assert HistoryInv(s) && LinkInv(s) by { RunKeepsInv(qs, ss, es, i); }
    OpenJobsHaveDoneParents(s, k, p);
  }

  lemma ActivatedWasOpen(qs: seq<Queues>, ss: seq<State>, es: seq<Step>, i: nat, k: Key)
    requires IsRun(qs, ss, es) && i < |es| && BecomesActive(ss[i].jobs, ss[i + 1].jobs, k)
    ensures k in ss[i].jobs && !ss[i].jobs[k].blocked && Before(ss[i].jobs[k].state, Active)
  {
    assert TableInv(ss[i]) by { RunKeepsInv(qs, ss, es, i); }
    assert StepShape(ss[i], es[i], ss[i + 1]) by { ShapeOfStep(qs, ss, es, i); }
    OnlyQueuedJobsActivate(ss[i], es[i], ss[i + 1], k);
  }

  lemma ShapeOfStep(qs: seq<Queues>, ss: seq<State>, es: seq<Step>, i: nat)
    requires IsRun(qs, ss, es) && i < |es|
    ensures StepShape(ss[i], es[i], ss[i + 1])
  {
    var s, e, s' := ss[i], es[i], ss[i + 1];
    assert Inv(s) by { RunKeepsInv(qs, ss, es, i); }
    assert Next(qs[i], s, e, s') by { StepInto(qs, ss, es, i + 1); }
    StepHasShape(qs[i], s, e, s');
  }

  lemma OpenJobsHaveDoneParents(s: State, k: Key, p: Key)
    requires HistoryInv(s) && LinkInv(s) && k in s.jobs && !s.jobs[k].blocked && s.jobs[k].state != Completed
    requires Dep(k, p) in s.h.declared
    ensures p in s.h.done
  {
    assert p in ParentsOf(s.h.declared, k);
    assert p !in Unresolved(s.h, k);
  }

  // A flow step put this job in the table with this parent.
  ghost predicate Declares(s: State, e: Step, s': State, k: Key, p: Key) {
    e.DoFlow? && Dep(k, p) in e.links && k in s'.jobs && k !in s.jobs
  }

  lemma FlowDeclares(queues: Queues, s: State, e: Step, s': State, k: Key, p: Key)
    requires Next(queues, s, e, s') && Declares(s, e, s', k, p)
    ensures Dep(k, p) in s'.h.declared
  {
  }

  lemma FlowDeclaresAt(qs: seq<Queues>, ss: seq<State>, es: seq<Step>, m: nat, k: Key, p: Key)
    requires IsRun(qs, ss, es) && m < |es| && Declares(ss[m], es[m], ss[m + 1], k, p)
    ensures Dep(k, p) in ss[m + 1].h.declared
  {
    var s, e, s' := ss[m], es[m], ss[m + 1];
    assert Next(qs[m], s, e, s') by { StepInto(qs, ss, es, m + 1); }
    FlowDeclares(qs[m], s, e, s', k, p);
  }

  lemma DeclarationIsRemembered(qs: seq<Queues>, ss: seq<State>, es: seq<Step>, m: nat, i: nat, k: Key, p: Key)
    requires IsRun(qs, ss, es) && m < i <= |es| && Declares(ss[m], es[m], ss[m + 1], k, p)
    ensures Dep(k, p) in ss[i].h.declared
  {
    FlowDeclaresAt(qs, ss, es, m, k, p);
    DeclaredStays(qs, ss, es, m + 1, i, Dep(k, p));
  }

  // Flow safety: in every run, a job becomes active only if each parent that a flow declared it
  // with had reached completed in some earlier state.
  lemma FlowSafety(qs: seq<Queues>, ss: seq<State>, es: seq<Step>, m: nat, i: nat, k: Key, p: Key)
    requires IsRun(qs, ss, es) && m < i < |es|
    requires Declares(ss[m], es[m], ss[m + 1], k, p)
    requires BecomesActive(ss[i].jobs, ss[i + 1].jobs, k)
    ensures exists j :: 0 <= j <= i && IsCompletedIn(ss[j], p)
  {
    DeclarationIsRemembered(qs, ss, es, m, i, k, p);
    ActiveOnlyAfterDeclaredParents(qs, ss, es, i, k, p);
    DoneWasCompleted(qs, ss, es, i, p);
  }

  // ---------- Ancestors ----------

  // Completed jobs have completed parents.
  ghost predicate ParentsFirst(s: State) {
    forall d :: d in s.h.declared && d.child in s.h.done ==> d.parent in s.h.done
  }

  lemma StepKeepsParentsFirst(s: State, e: Step, s': State)
    requires Inv(s) && ParentsFirst(s) && StepShape(s, e, s') && !Lifts(e)
    ensures ParentsFirst(s')
  {
    forall d | d in s'.h.declared && d.child in s'.h.done
      ensures d.parent in s'.h.done
    {
      NewDependenciesAreNotDone(s, e, s', d);
      if d.child !in s.h.done {
        NewlyCompleted(s, e, s', d.child);
        assert d.parent in ParentsOf(s.h.declared, d.child) && d.parent !in Unresolved(s.h, d.child);
      }
    }
  }

  lemma NewDependenciesAreNotDone(s: State, e: Step, s': State, d: Dep)
    requires HistoryInv(s) && StepShape(s, e, s')
    requires d in s'.h.declared && d.child in s'.h.done
    ensures d in s.h.declared
  {
  }

  lemma NewlyCompleted(s: State, e: Step, s': State, k: Key)
    requires TableInv(s) && HistoryInv(s) && StepShape(s, e, s') && !Lifts(e)
    requires k !in s.h.done && k in s'.h.done
    ensures k in s.jobs && s.jobs[k].state == Active && !s.jobs[k].blocked
  {
    if k in s.jobs {
      RowStepFacts(e, s.jobs[k], s'.jobs[k]);
    }
  }

  // A run in which complete() is never called with includeQueued.
  ghost predicate NeverSkipsQueue(es: seq<Step>) {
    forall i :: 0 <= i < |es| ==> !Lifts(es[i])
  }

  lemma {:induction false} RunKeepsParentsFirst(qs: seq<Queues>, ss: seq<State>, es: seq<Step>, i: nat)
    requires IsRun(qs, ss, es) && NeverSkipsQueue(es) && i <= |es|
    ensures ParentsFirst(ss[i])
  {
    if i > 0 {
      RunKeepsParentsFirst(qs, ss, es, i - 1);
      var s, e, s' := ss[i - 1], es[i - 1], ss[i];
      assert Inv(s) by { RunKeepsInv(qs, ss, es, i - 1); }
      assert Next(qs[i - 1], s, e, s') by { StepInto(qs, ss, es, i); }
      NextKeepsParentsFirst(qs[i - 1], s, e, s');
    }
  }

  lemma NextKeepsParentsFirst(queues: Queues, s: State, e: Step, s': State)
    requires Inv(s) && ParentsFirst(s) && Next(queues, s, e, s') && !Lifts(e)
    ensures ParentsFirst(s')
  {
    StepHasShape(queues, s, e, s');
    StepKeepsParentsFirst(s, e, s');
  }

  // A chain of declared dependencies, from a job up to one of its ancestors.
  ghost predicate IsChain(declared: set<Dep>, chain: seq<Key>) {
    forall i :: 0 <= i < |chain| - 1 ==> Dep(chain[i], chain[i + 1]) in declared
  }

  // If includeQueued is never used, every ancestor of a job that becomes active had completed.
  lemma {:induction false} AncestorSafety(qs: seq<Queues>, ss: seq<State>, es: seq<Step>, i: nat, chain: seq<Key>,
                                          n: nat)
    requires IsRun(qs, ss, es) && NeverSkipsQueue(es) && i < |es|
    requires IsChain(ss[i].h.declared, chain) && 0 < n < |chain|
    requires BecomesActive(ss[i].jobs, ss[i + 1].jobs, chain[0])
    ensures chain[n] in ss[i].h.done
    ensures exists j :: 0 <= j <= i && IsCompletedIn(ss[j], chain[n])
  {
    assert Dep(chain[n - 1], chain[n]) in ss[i].h.declared;
    if n == 1 {
      ActiveOnlyAfterDeclaredParents(qs, ss, es, i, chain[0], chain[1]);
    } else {
      AncestorSafety(qs, ss, es, i, chain, n - 1);
      RunKeepsParentsFirst(qs, ss, es, i);
    }
    DoneWasCompleted(qs, ss, es, i, chain[n]);
  }

  // ---------- Counters ----------

  // In every reachable state a job is blocked exactly while its counter is positive, and the
  // counter is the number of its declared parents not yet resolved.
  lemma CounterConservation(qs: seq<Queues>, ss: seq<State>, es: seq<Step>, i: nat, k: Key)
    requires IsRun(qs, ss, es) && i <= |es| && k in ss[i].jobs
    ensures ss[i].jobs[k].blocked <==> ss[i].jobs[k].pending > 0
    ensures ss[i].jobs[k].blocked ==> ss[i].jobs[k].pending == |Unresolved(ss[i].h, k)|
    ensures !ss[i].jobs[k].blocked && ss[i].jobs[k].state != Completed ==> Unresolved(ss[i].h, k) == {}
  {
    var s := ss[i];
    assert Inv(s) by { RunKeepsInv(qs, ss, es, i); }
    assert RowInv(s.jobs[k]);
  }

  // A resolve step never clamps a counter: it finds no more parents than are unresolved, so no
  // parent is counted twice.
  lemma ResolveNeverClamps(qs: seq<Queues>, ss: seq<State>, es: seq<Step>, i: nat, k: Key)
    requires IsRun(qs, ss, es) && i < |es| && es[i].DoResolve? && k in ss[i].jobs && ss[i].jobs[k].blocked
    ensures ss[i].jobs[k].pending - Hits(ss[i].deps, k, es[i].parents) >= 0
    ensures Hits(ss[i].deps, k, es[i].parents) == |Unresolved(ss[i].h, k) * es[i].parents|
  {
    var s, e, s' := ss[i], es[i], ss[i + 1];
    assert Inv(s) by { RunKeepsInv(qs, ss, es, i); }
    assert Next(qs[i], s, e, s') by { StepInto(qs, ss, es, i + 1); }
    ResolveIsExact(s, s', e.parents, k);
  }

  lemma ResolveIsExact(s: State, s': State, parents: set<Key>, k: Key)
    requires Inv(s) && IsResolution(s, s', parents) && k in s.jobs && s.jobs[k].blocked
    ensures s.jobs[k].pending - Hits(s.deps, k, parents) >= 0
    ensures Hits(s.deps, k, parents) == |Unresolved(s.h, k) * parents|
  {
    DependencyRowsAreThere(s, parents, k);
    CounterStaysExact(s.jobs[k], s.deps, k, Unresolved(s.h, k), parents);
  }

  // A declared parent of the job has not completed or is gone.
  ghost predicate HasOpenParent(s: State, k: Key) {
    exists p :: Dep(k, p) in s.h.declared && !IsCompletedIn(s, p)
  }

  // Once no completed parent is left to resolve, a job is blocked only by a parent that has not
  // completed or is gone.
  lemma NoChildIsStuck(s: State, k: Key)
    requires Inv(s) && k in s.jobs && s.jobs[k].blocked
    requires forall p :: p in s.jobs ==> !(s.jobs[p].blocking && s.jobs[p].state == Completed)
    ensures HasOpenParent(s, k)
  {
    assert RowInv(s.jobs[k]);
    assert |Unresolved(s.h, k)| > 0;
    var p :| p in Unresolved(s.h, k);
    var d :| d in s.h.declared && d.child == k && d.parent == p;
    assert d == Dep(k, p);
  }

  // ---------- Retry budget ----------

  // How often a job became active, and how often it was resumed, up to a state of the run.
  ghost function ClaimsUpTo(ss: seq<State>, i: nat, k: Key): nat
    requires i < |ss|
  {
    if i == 0 then 0
    else ClaimsUpTo(ss, i - 1, k) + if BecomesActive(ss[i - 1].jobs, ss[i].jobs, k) then 1 else 0
  }

  ghost function ResumesUpTo(ss: seq<State>, i: nat, k: Key): nat
    requires i < |ss|
  {
    if i == 0 then 0
    else ResumesUpTo(ss, i - 1, k) + if BecomesResumed(ss[i - 1].jobs, ss[i].jobs, k) then 1 else 0
  }

  lemma StepCounts(queues: Queues, s: State, e: Step, s': State, k: Key)
    requires Inv(s) && Inv(s') && Next(queues, s, e, s')
    ensures Count(s'.h.claims, k) == Count(s.h.claims, k) + if BecomesActive(s.jobs, s'.jobs, k) then 1 else 0
    ensures Count(s'.h.resumes, k) == Count(s.h.resumes, k) + if BecomesResumed(s.jobs, s'.jobs, k) then 1 else 0
  {
  }

  lemma {:induction false} HistoryCounts(qs: seq<Queues>, ss: seq<State>, es: seq<Step>, i: nat, k: Key)
    requires IsRun(qs, ss, es) && i <= |es|
    ensures Count(ss[i].h.claims, k) == ClaimsUpTo(ss, i, k)
    ensures Count(ss[i].h.resumes, k) == ResumesUpTo(ss, i, k)
  {
    if i == 0 {
    } else {
      HistoryCounts(qs, ss, es, i - 1, k);
      var s, e, s' := ss[i - 1], es[i - 1], ss[i];
      assert Inv(s) by { RunKeepsInv(qs, ss, es, i - 1); }
      assert Inv(s') by { RunKeepsInv(qs, ss, es, i); }
      assert Next(qs[i - 1], s, e, s') by { StepInto(qs, ss, es, i); }
      StepCounts(qs[i - 1], s, e, s', k);
    }
  }

  // The number of claims of a job can be read off its row.
  lemma ClaimsAreCounted(qs: seq<Queues>, ss: seq<State>, es: seq<Step>, i: nat, k: Key)
    requires IsRun(qs, ss, es) && i <= |es| && k in ss[i].jobs
    ensures ClaimsUpTo(ss, i, k) == if ss[i].jobs[k].startedOn.None? then 0 else ss[i].jobs[k].retryCount + 1
  {
    RunKeepsInv(qs, ss, es, i);
    HistoryCounts(qs, ss, es, i, k);
  }

  // No retry limit is negative, and no edit lowers one.
  ghost predicate KeepsLimits(t: Table, t': Table) {
    forall k :: k in t' ==> t'[k].terms.retryLimit >= if k in t then t[k].terms.retryLimit else 0
  }

  // The first n steps of the run keep the limits.
  ghost predicate KeepsLimitsUpTo(ss: seq<State>, n: nat)
    requires n < |ss|
  {
    n == 0 || (KeepsLimitsUpTo(ss, n - 1) && KeepsLimits(ss[n - 1].jobs, ss[n].jobs))
  }

  ghost predicate BudgetInv(s: State) {
    forall k :: k in s.jobs ==> WithinBudget(s.jobs[k], Count(s.h.resumes, k))
  }

  lemma StepKeepsBudget(s: State, e: Step, s': State)
    requires Inv(s) && BudgetInv(s) && StepShape(s, e, s') && KeepsLimits(s.jobs, s'.jobs)
    ensures BudgetInv(s')
  {
    forall k | k in s'.jobs
      ensures WithinBudget(s'.jobs[k], Count(s'.h.resumes, k))
    {
      RowKeepsBudget(s, e, s', k);
    }
  }

  lemma RowKeepsBudget(s: State, e: Step, s': State, k: Key)
    requires TableInv(s) && BudgetInv(s) && StepShape(s, e, s') && KeepsLimits(s.jobs, s'.jobs) && k in s'.jobs
    ensures WithinBudget(s'.jobs[k], Count(s'.h.resumes, k))
  {
    if k in s.jobs {
      assert RowStep(e, s.jobs[k], s'.jobs[k]);
      MovesKeepBudget(s.jobs[k], s'.jobs[k], Count(s.h.resumes, k));
    } else {
      assert NewRowInv(s'.jobs[k]);
    }
  }

  lemma BudgetStepOfRun(qs: seq<Queues>, ss: seq<State>, es: seq<Step>, i: nat)
    requires IsRun(qs, ss, es) && i < |es| && KeepsLimits(ss[i].jobs, ss[i + 1].jobs)
    ensures BudgetInv(ss[i]) ==> BudgetInv(ss[i + 1])
  {
    var s, e, s' := ss[i], es[i], ss[i + 1];
    if BudgetInv(s) {
      assert Inv(s) by { RunKeepsInv(qs, ss, es, i); }
      assert StepShape(s, e, s') by { ShapeOfStep(qs, ss, es, i); }
      StepKeepsBudget(s, e, s');
    }
  }

  lemma {:induction false} RunKeepsBudget(qs: seq<Queues>, ss: seq<State>, es: seq<Step>, i: nat)
    requires IsRun(qs, ss, es) && i <= |es|
    requires KeepsLimitsUpTo(ss, i)
    ensures BudgetInv(ss[i])
  {
    if i > 0 {
      RunKeepsBudget(qs, ss, es, i - 1);
      BudgetStepOfRun(qs, ss, es, i - 1);
    }
  }

  // Retry budget: in a run whose edits lower no limit, a job is claimed at most retry_limit + 1
  // times, plus once for every time that it was resumed. Manual retries raise retry_limit itself.
  lemma RetryBudget(qs: seq<Queues>, ss: seq<State>, es: seq<Step>, i: nat, k: Key)
    requires IsRun(qs, ss, es) && i <= |es| && k in ss[i].jobs
    requires KeepsLimitsUpTo(ss, i)
    ensures ClaimsUpTo(ss, i, k) <= ss[i].jobs[k].terms.retryLimit + 1 + ResumesUpTo(ss, i, k)
  {
    RunKeepsBudget(qs, ss, es, i);
    ClaimsAreCounted(qs, ss, es, i, k);
    HistoryCounts(qs, ss, es, i, k);
  }

  // ---------- Group concurrency ----------

  // Every fetch on this queue passes group limits that m caps.
  ghost predicate FetchesWithCap(es: seq<Step>, name: string, m: nat) {
    forall i :: 0 <= i < |es| && es[i].DoFetch? && es[i].name == name ==>
      es[i].options.groups.Some? && Fetching.CapsBy(es[i].options.groups.value, m)
  }

  lemma FetchTableKeepsGroupCap(t: Table, fetched: string, policy: Policy, o: Fetching.Options, source: set<Key>,
                                now: real, name: string, g: string, m: nat)
    requires Fetching.IsSource(t, fetched, policy, o, now, source)
    requires fetched == name ==> o.groups.Some? && Fetching.CapsBy(o.groups.value, m)
    requires |Fetching.ActiveIn(t, name, g)| <= m
    ensures source <= t.Keys
    ensures |Fetching.ActiveIn(FetchTable(t, fetched, o, source, now), name, g)| <= m
  {
    Fetching.SourceIsCandidates(t, fetched, policy, o, now, source);
    if fetched == name {
      Fetching.FetchKeepsGroupCap(t, name, policy, o, now, source, g, m);
    } else {
      Fetching.ActiveAfterClaim(t, fetched, Fetching.Claimed(t, fetched, o, source), now, name, g);
    }
  }

  lemma StepKeepsGroupCap(queues: Queues, s: State, e: Step, s': State, name: string, g: string, m: nat)
    requires Inv(s) && Next(queues, s, e, s')
    requires e.DoFetch? && e.name == name ==> e.options.groups.Some? && Fetching.CapsBy(e.options.groups.value, m)
    requires |Fetching.ActiveIn(s.jobs, name, g)| <= m
    ensures |Fetching.ActiveIn(s'.jobs, name, g)| <= m
  {
    if e.DoFetch? {
      FetchTableKeepsGroupCap(s.jobs, e.name, e.policy, e.options, e.source, e.now, name, g, m);
    } else {
      StepHasShape(queues, s, e, s');
      ActiveStaysCapped(s, e, s', name, g, m);
    }
  }

  lemma ActiveStaysCapped(s: State, e: Step, s': State, name: string, g: string, m: nat)
    requires TableInv(s) && StepShape(s, e, s') && !e.DoFetch?
    requires |Fetching.ActiveIn(s.jobs, name, g)| <= m
    ensures |Fetching.ActiveIn(s'.jobs, name, g)| <= m
  {
    OtherStepsActivateNothing(s, e, s', name, g);
    SubsetSize(Fetching.ActiveIn(s'.jobs, name, g), Fetching.ActiveIn(s.jobs, name, g));
  }

  lemma OtherStepsActivateNothing(s: State, e: Step, s': State, name: string, g: string)
    requires TableInv(s) && StepShape(s, e, s') && !e.DoFetch?
    ensures Fetching.ActiveIn(s'.jobs, name, g) <= Fetching.ActiveIn(s.jobs, name, g)
  {
    forall k | k in Fetching.ActiveIn(s'.jobs, name, g)
      ensures k in Fetching.ActiveIn(s.jobs, name, g)
    {
      if k in s.jobs {
        RowStepFacts(e, s.jobs[k], s'.jobs[k]);
      }
    }
  }

  lemma GroupStepOfRun(qs: seq<Queues>, ss: seq<State>, es: seq<Step>, i: nat, name: string, g: string, m: nat)
    requires IsRun(qs, ss, es) && FetchesWithCap(es, name, m) && i < |es|
    ensures |Fetching.ActiveIn(ss[i].jobs, name, g)| <= m ==> |Fetching.ActiveIn(ss[i + 1].jobs, name, g)| <= m
  {
    var s, e, s' := ss[i], es[i], ss[i + 1];
    if |Fetching.ActiveIn(s.jobs, name, g)| <= m {
      assert Inv(s) by { RunKeepsInv(qs, ss, es, i); }
      assert Next(qs[i], s, e, s') by { StepInto(qs, ss, es, i + 1); }
      StepKeepsGroupCap(qs[i], s, e, s', name, g, m);
    }
  }

  lemma NothingIsActiveAtFirst(s: State, name: string, g: string)
    requires Init(s)
    ensures |Fetching.ActiveIn(s.jobs, name, g)| == 0
  {
    assert Fetching.ActiveIn(s.jobs, name, g) == {};
  }

  // Group concurrency over runs: if every fetch on a queue uses limits capped by m, the active
  // jobs of each of its groups never exceed m, whatever else happens.
  lemma {:induction false} GroupConcurrency(qs: seq<Queues>, ss: seq<State>, es: seq<Step>, i: nat,
                      name: string, g: string, m: nat)
    requires IsRun(qs, ss, es) && FetchesWithCap(es, name, m) && i <= |es|
    ensures |Fetching.ActiveIn(ss[i].jobs, name, g)| <= m
  {
    if i == 0 {
      NothingIsActiveAtFirst(ss[0], name, g);
    } else {
      GroupConcurrency(qs, ss, es, i - 1, name, g, m);
      GroupStepOfRun(qs, ss, es, i - 1, name, g, m);
    }
  }

  // ---------- Maintenance ----------

  // In every reachable state the sweep removes no active job, no queued job before its
  // keep_until, and no finished job that is kept forever or not yet due.
  lemma SweepIsSafe(qs: seq<Queues>, ss: seq<State>, es: seq<Step>, i: nat, names: set<string>, now: real, k: Key)
    requires IsRun(qs, ss, es) && i <= |es| && k in Swept(ss[i].jobs, names, now)
    ensures var r := ss[i].jobs[k];
            && r.state != Active
            && (Before(r.state, Active) ==> r.keepUntil < now)
            && (!Before(r.state, Completed) ==>
                  && r.terms.deletionSeconds > 0 && r.completedOn.Some?
                  && r.completedOn.value + r.terms.deletionSeconds as real < now)
  {
    assert RowInv(ss[i].jobs[k]) by { RunKeepsInv(qs, ss, es, i); }
  }

  // Expiry and missed heartbeats can be seen on every running job: both of its clocks are set.
  lemma RunningJobsHaveClocks(qs: seq<Queues>, ss: seq<State>, es: seq<Step>, i: nat, names: set<string>, now: real,
                              k: Key)
    requires IsRun(qs, ss, es) && i <= |es| && k in ss[i].jobs && k.name in names && ss[i].jobs[k].state == Active
    ensures var r := ss[i].jobs[k];
            && r.startedOn.Some? && r.heartbeatOn.Some? && r.completedOn.None?
            && (k in TimedOut(ss[i].jobs, names, now) <==> r.startedOn.value + r.terms.expireSeconds as real < now)
            && (k in HeartbeatMissed(ss[i].jobs, names, now) <==>
                  r.terms.heartbeatSeconds.Some? && r.heartbeatOn.value + r.terms.heartbeatSeconds.value as real < now)
  {
    assert RowInv(ss[i].jobs[k]) by { RunKeepsInv(qs, ss, es, i); }
  }
}
