/**
 Why keys must not be used again: a run in which every step is one the code takes, but a key whose row was
 deleted names a new job. The dependency rows of the old job are still there, and release its child while
 another parent of the child is running.
 */
module ReusedKeys {
  import opened Outcomes
  import opened JobTable
  import opened Resolution
  import opened Statements
  import opened Runs
  import Fetching

  // A step of a run, except that keys need not be new.
  ghost predicate NextWithAnyKeys(queues: Queues, s: State, e: Step, s': State) {
    && Enabled(queues, s, e)
    && (s'.jobs, s'.deps) == After(queues, s, e)
    && s'.h == Observe(s.h, s.jobs, s'.jobs, s'.deps)
  }

  lemma OnlyKeysAreFree(queues: Queues, s: State, e: Step, s': State)
    ensures Next(queues, s, e, s') <==> NextWithAnyKeys(queues, s, e, s') && IdsAreFresh(s, s')
  {
  }

  // ---------- The tables of the run ----------

  const P := Key("w", 1)
  const R := Key("w", 2)
  const C := Key("w", 3)
  const D := Key("w", 4)

  function Work(): Queues {
    map["w" := Queue(Standard, 2, 0, false, None, 900, 1000, 0, None, None, "job")]
  }

  function Asked(id: nat, pending: nat, blocking: bool, at: real): Item {
    Item("w", Request(id, None, None, at, None, None, 0, None, None, None, None, None, None, None, None, None, None,
                      None, pending > 0, blocking, pending))
  }

  function Made(pending: nat, blocking: bool, at: real): Row {
    Row(Terms(0, None, 900, 0, 2, 0, false, None, None, None, None, None), at, at + 1000.0, at, None, None,
        Some(Standard), Created, 0, None, None, None, None, None, pending > 0, blocking, pending)
  }

  function Claimed(r: Row, at: real): Row {
    r.(state := Active, startedOn := Some(at), heartbeatOn := Some(at))
  }

  function Done(r: Row, at: real): Row {
    r.(state := Completed, completedOn := Some(at), output := None)
  }

  function Running(): Row { Claimed(Made(0, true, 0.0), 1.0) }

  function Finished(): Row { Done(Running(), 2.0) }

  function Rerun(): Row { Claimed(Made(0, true, 3.0), 4.0) }

  function Refinished(): Row { Done(Rerun(), 5.0) }

  function Released(at: real): Row { Made(0, false, at) }

  function Flowed(p: Row, c: Row): Table { map[P := p, R := Running(), C := c] }

  function Reflowed(p: Row, c: Row, d: Row): Table { map[P := p, R := Running(), C := c, D := d] }

  function Table1(): Table { map[P := Made(0, true, 0.0), R := Made(0, true, 0.0), C := Made(2, false, 0.0)] }

  function Table2(): Table { Flowed(Running(), Made(2, false, 0.0)) }

  function Table3(): Table { Flowed(Finished(), Made(2, false, 0.0)) }

  function Table4(): Table { Flowed(Finished().(blocking := false), Made(1, false, 0.0)) }

  function Table5(): Table { map[R := Running(), C := Made(1, false, 0.0)] }

  function Table6(): Table { Reflowed(Made(0, true, 3.0), Made(1, false, 0.0), Made(1, false, 3.0)) }

  function Table7(): Table { Reflowed(Rerun(), Made(1, false, 0.0), Made(1, false, 3.0)) }

  function Table8(): Table { Reflowed(Refinished(), Made(1, false, 0.0), Made(1, false, 3.0)) }

  function Table9(): Table { Reflowed(Refinished().(blocking := false), Released(0.0), Released(3.0)) }

  function Table10(): Table { Reflowed(Refinished().(blocking := false), Claimed(Released(0.0), 6.0), Released(3.0)) }

  function Deps1(): set<Dep> { {Dep(C, P), Dep(C, R)} }

  function Deps2(): set<Dep> { Deps1() + {Dep(D, P)} }

  function First(limit: nat): Fetching.Options {
    Fetching.Options(limit, false, false, false, [], [], None, None, None)
  }

  function FirstFlow(): Step {
    DoFlow([Asked(1, 0, true, 0.0), Asked(2, 0, true, 0.0), Asked(3, 2, false, 0.0)], Deps1(), 0.0)
  }

  function SecondFlow(): Step {
    DoFlow([Asked(1, 0, true, 3.0), Asked(4, 1, false, 3.0)], {Dep(D, P)}, 3.0)
  }

  function TakeFrom(limit: nat, source: set<Key>, at: real): Step {
    DoFetch("w", Standard, First(limit), source, at)
  }

  function Finish(at: real): Step { DoComplete("w", map[1 := None], false, at) }

  // ---------- Its steps ----------

  // What a step does to the table and the dependency rows, whatever the history says.
  ghost predicate Takes(t: Table, deps: set<Dep>, e: Step, t': Table, deps': set<Dep>, h: History) {
    Enabled(Work(), State(t, deps, h), e) && After(Work(), State(t, deps, h), e) == (t', deps')
  }

  lemma FlowTakes(t: Table, deps: set<Dep>, items: seq<Item>, links: set<Dep>, at: real, t': Table, h: History)
    requires InsertAll(t, items, Work(), at) == Some(t') && LinksFit(items, links)
    ensures Takes(t, deps, DoFlow(items, links, at), t', deps + links, h)
  {
  }

  // No index applies to the rows of a standard queue without throttling.
  predicate TakesNoSlot(r: Row) {
    r.policy == Some(Standard) && r.singletonOn.None?
  }

  lemma NothingCollides(t: Table, k: Key, r: Row)
    requires k !in t && TakesNoSlot(r)
    ensures CanInsert(t, k, r)
  {
  }

  lemma InsertAllOneMore(t: Table, items: seq<Item>, u: Table, id: nat, pending: nat, blocking: bool, at: real)
    requires InsertAll(t, items, Work(), at) == Some(u) && Key("w", id) !in u
    ensures InsertAll(t, items + [Asked(id, pending, blocking, at)], Work(), at)
            == Some(u[Key("w", id) := Made(pending, blocking, at)])
  {
    var all := items + [Asked(id, pending, blocking, at)];
    assert all[..|items|] == items && all[|items|] == Asked(id, pending, blocking, at);
    NothingCollides(u, Key("w", id), Made(pending, blocking, at));
  }

  lemma PendingParents()
    ensures ParentsOf(Deps1(), C) == {P, R} && ParentsOf(Deps1(), P) == {} && ParentsOf(Deps1(), R) == {}
    ensures ParentsOf({Dep(D, P)}, D) == {P} && ParentsOf({Dep(D, P)}, P) == {}
    ensures ParentsOf(Deps2(), C) == {P, R} && ParentsOf(Deps2(), D) == {P}
    ensures ParentsOf(Deps2(), P) == {} && ParentsOf(Deps2(), R) == {}
  {
    assert Dep(C, P) in Deps1() && Dep(C, R) in Deps1() && Dep(D, P) in {Dep(D, P)};
    assert Dep(C, P) in Deps2() && Dep(C, R) in Deps2() && Dep(D, P) in Deps2();
  }

  lemma FirstRowsGoIn()
    ensures InsertAll(map[], FirstFlow().items, Work(), 0.0) == Some(Table1())
  {
    var a, b, c := Asked(1, 0, true, 0.0), Asked(2, 0, true, 0.0), Asked(3, 2, false, 0.0);
    var none: seq<Item>, row := [], Made(0, true, 0.0);
    InsertAllOneMore(map[], none, map[], 1, 0, true, 0.0);
    InsertAllOneMore(map[], [a], map[P := row], 2, 0, true, 0.0);
    InsertAllOneMore(map[], [a, b], map[P := row, R := row], 3, 2, false, 0.0);
    assert none + [a] == [a] && [a] + [b] == [a, b] && [a, b] + [c] == [a, b, c];
  }

  lemma FirstLinksFit()
    ensures LinksFit(FirstFlow().items, Deps1())
  {
    var items := FirstFlow().items;
    PendingParents();
    assert KeyOf(items[0]) == P && KeyOf(items[1]) == R && KeyOf(items[2]) == C;
    assert Dep(C, P) in Deps1() && Dep(C, R) in Deps1();
    assert |{P, R}| == 2;
  }

  lemma Step0(h: History)
    ensures Takes(map[], {}, FirstFlow(), Table1(), Deps1(), h)
  {
    assert InsertAll(map[], FirstFlow().items, Work(), 0.0) == Some(Table1()) by { FirstRowsGoIn(); }
    assert LinksFit(FirstFlow().items, Deps1()) by { FirstLinksFit(); }
    FirstFlowTakes(FirstFlow().items, Table1(), Deps1(), h);
  }

  lemma FirstFlowTakes(items: seq<Item>, t: Table, links: set<Dep>, h: History)
    requires InsertAll(map[], items, Work(), 0.0) == Some(t) && LinksFit(items, links)
    ensures Takes(map[], {}, DoFlow(items, links, 0.0), t, links, h)
  {
    var none: set<Dep> := {};
    assert none + links == links;
    FlowTakes(map[], none, items, links, 0.0, t, h);
  }

  lemma FetchTakes(t: Table, deps: set<Dep>, limit: nat, source: set<Key>, at: real, t': Table, h: History)
    requires Fetching.IsSource(t, "w", Standard, First(limit), at, source) && source <= t.Keys
    requires Fetching.ClaimRows(t, source, at) == t' && forall k :: k in t' ==> TakesNoSlot(t'[k])
    ensures Takes(t, deps, TakeFrom(limit, source, at), t', deps, h)
  {
    assert Unique(t');
    assert Fetching.Claimed(t, "w", First(limit), source) == source;
    assert FetchTable(t, "w", First(limit), source, at) == t';
  }

  lemma IsFetched(t: Table, limit: nat, next: seq<Key>, at: real, source: set<Key>)
    requires Fetching.IsNext(t, First(limit), limit, Fetching.Candidates(t, "w", First(limit), at), next)
    requires Elems(next) == source
    ensures Fetching.IsSource(t, "w", Standard, First(limit), at, source)
  {
  }

  lemma Step1(h: History)
    ensures Takes(Table1(), Deps1(), TakeFrom(2, {P, R}, 1.0), Table2(), Deps1(), h)
  {
    var t, t' := Table1(), Table2();
    assert Fetching.Candidates(t, "w", First(2), 1.0) == {P, R};
    assert Elems([P, R]) == {P, R};
    IsFetched(t, 2, [P, R], 1.0, {P, R});
    assert Fetching.ClaimRows(t, {P, R}, 1.0) == t';
    FetchTakes(t, Deps1(), 2, {P, R}, 1.0, t', h);
  }

  lemma CompleteTakes(t: Table, deps: set<Dep>, at: real, t': Table, h: History)
    requires Complete(t, "w", map[1 := None], at, false) == t'
    ensures Takes(t, deps, Finish(at), t', deps, h)
  {
  }

  lemma Step2(h: History)
    ensures Takes(Table2(), Deps1(), Finish(2.0), Table3(), Deps1(), h)
  {
    assert Complete(Table2(), "w", map[1 := None], 2.0, false) == Table3();
    CompleteTakes(Table2(), Deps1(), 2.0, Table3(), h);
  }

  lemma ResolveIs(t: Table, deps: set<Dep>, hits: map<Key, nat>, t': Table)
    requires t'.Keys == t.Keys == hits.Keys
    requires forall k :: k in t ==> Hits(deps, k, {P}) == hits[k] && t'[k] == ResolveRow(t[k], hits[k], k == P)
    ensures Resolve(t, deps, {P}) == t'
  {
  }

  lemma ResolveTakes(t: Table, deps: set<Dep>, t': Table, h: History)
    requires P in t && t[P].blocking && t[P].state == Completed && Resolve(t, deps, {P}) == t'
    ensures Takes(t, deps, DoResolve({P}), t', deps, h)
  {
  }

  function Hits1(): map<Key, nat> { map[P := 0, R := 0, C := 1] }

  function Hits2(): map<Key, nat> { map[P := 0, R := 0, C := 1, D := 1] }

  lemma HitsOfP(k: Key)
    ensures k in Hits1() ==> Hits(Deps1(), k, {P}) == Hits1()[k]
    ensures k in Hits2() ==> Hits(Deps2(), k, {P}) == Hits2()[k]
  {
    PendingParents();
    assert {P, R} * {P} == {P} && {P} * {P} == {P};
  }

  lemma LoweredRows(k: Key)
    requires k in Table3()
    ensures Table4()[k] == ResolveRow(Table3()[k], Hits1()[k], k == P)
  {
  }

  lemma Step3(h: History)
    ensures Takes(Table3(), Deps1(), DoResolve({P}), Table4(), Deps1(), h)
  {
    var t, t', hits := Table3(), Table4(), Hits1();
    assert t'.Keys == t.Keys == hits.Keys == {P, R, C};
    forall k | k in t ensures Hits(Deps1(), k, {P}) == hits[k] && t'[k] == ResolveRow(t[k], hits[k], k == P) {
      HitsOfP(k);
      LoweredRows(k);
    }
    ResolveIs(t, Deps1(), hits, t');
    ResolveTakes(t, Deps1(), t', h);
  }

  lemma Step4(h: History)
    ensures Takes(Table4(), Deps1(), DoDelete({P}), Table5(), Deps1(), h)
  {
    assert Without(Table4(), {P}) == Table5();
  }

  lemma SecondRowsGoIn()
    ensures InsertAll(Table5(), SecondFlow().items, Work(), 3.0) == Some(Table6())
  {
    var a, b, t := Asked(1, 0, true, 3.0), Asked(4, 1, false, 3.0), Table5();
    var none: seq<Item>, row := [], Made(0, true, 3.0);
    InsertAllOneMore(t, none, t, 1, 0, true, 3.0);
    InsertAllOneMore(t, [a], t[P := row], 4, 1, false, 3.0);
    assert none + [a] == [a] && [a] + [b] == [a, b];
    assert t[P := row][D := Made(1, false, 3.0)] == Table6();
  }

  lemma SecondLinksFit()
    ensures LinksFit(SecondFlow().items, {Dep(D, P)})
  {
    var items := SecondFlow().items;
    PendingParents();
    assert KeyOf(items[0]) == P && KeyOf(items[1]) == D;
    assert Dep(D, P) in {Dep(D, P)};
  }

  lemma Step5(h: History)
    ensures Takes(Table5(), Deps1(), SecondFlow(), Table6(), Deps2(), h)
  {
    assert InsertAll(Table5(), SecondFlow().items, Work(), 3.0) == Some(Table6()) by { SecondRowsGoIn(); }
    assert LinksFit(SecondFlow().items, {Dep(D, P)}) by { SecondLinksFit(); }
    FlowTakes(Table5(), Deps1(), SecondFlow().items, {Dep(D, P)}, 3.0, Table6(), h);
  }

  lemma Step6(h: History)
    ensures Takes(Table6(), Deps2(), TakeFrom(1, {P}, 4.0), Table7(), Deps2(), h)
  {
    var t, t' := Table6(), Table7();
    assert Fetching.Candidates(t, "w", First(1), 4.0) == {P};
    assert Elems([P]) == {P};
    IsFetched(t, 1, [P], 4.0, {P});
    assert Fetching.ClaimRows(t, {P}, 4.0) == t';
    FetchTakes(t, Deps2(), 1, {P}, 4.0, t', h);
  }

  lemma Step7(h: History)
    ensures Takes(Table7(), Deps2(), Finish(5.0), Table8(), Deps2(), h)
  {
    assert Complete(Table7(), "w", map[1 := None], 5.0, false) == Table8();
    CompleteTakes(Table7(), Deps2(), 5.0, Table8(), h);
  }

  lemma ReleasedRows(k: Key)
    requires k in Table8()
    ensures Table9()[k] == ResolveRow(Table8()[k], Hits2()[k], k == P)
  {
  }

  lemma Step8(h: History)
    ensures Takes(Table8(), Deps2(), DoResolve({P}), Table9(), Deps2(), h)
  {
    var t, t', hits := Table8(), Table9(), Hits2();
    assert t'.Keys == t.Keys == hits.Keys == {P, R, C, D};
    forall k | k in t ensures Hits(Deps2(), k, {P}) == hits[k] && t'[k] == ResolveRow(t[k], hits[k], k == P) {
      HitsOfP(k);
      ReleasedRows(k);
    }
    ResolveIs(t, Deps2(), hits, t');
    ResolveTakes(t, Deps2(), t', h);
  }

  lemma Step9(h: History)
    ensures Takes(Table9(), Deps2(), TakeFrom(1, {C}, 6.0), Table10(), Deps2(), h)
  {
    var t, t' := Table9(), Table10();
    assert Fetching.Candidates(t, "w", First(1), 6.0) == {C, D};
    assert Elems([C]) == {C};
    IsFetched(t, 1, [C], 6.0, {C});
    assert Fetching.ClaimRows(t, {C}, 6.0) == t';
    FetchTakes(t, Deps2(), 1, {C}, 6.0, t', h);
  }

  // ---------- The run ----------

  function TableAt(i: nat): Table
    requires i <= 10
  {
    match i
    case 0 => map[]
    case 1 => Table1()
    case 2 => Table2()
    case 3 => Table3()
    case 4 => Table4()
    case 5 => Table5()
    case 6 => Table6()
    case 7 => Table7()
    case 8 => Table8()
    case 9 => Table9()
    case _ => Table10()
  }

  function DepsAt(i: nat): set<Dep> {
    if i == 0 then {} else if i <= 5 then Deps1() else Deps2()
  }

  function EventAt(i: nat): Step
    requires i < 10
  {
    match i
    case 0 => FirstFlow()
    case 1 => TakeFrom(2, {P, R}, 1.0)
    case 2 => Finish(2.0)
    case 3 => DoResolve({P})
    case 4 => DoDelete({P})
    case 5 => SecondFlow()
    case 6 => TakeFrom(1, {P}, 4.0)
    case 7 => Finish(5.0)
    case 8 => DoResolve({P})
    case _ => TakeFrom(1, {C}, 6.0)
  }

  lemma ParentIsRunning(i: nat)
    requires 1 <= i <= 10
    ensures R in TableAt(i) && TableAt(i)[R].state != Completed && Dep(C, R) in DepsAt(i)
  {
    assert Dep(C, R) in Deps1() && Dep(C, R) in Deps2();
  }

  lemma ObservedOnce(h: History, t: Table, t': Table, deps': set<Dep>, k: Key, d: Dep)
    requires k !in h.done && (k in t' ==> t'[k].state != Completed)
    ensures k !in Observe(h, t, t', deps').done
    ensures d in deps' ==> d in Observe(h, t, t', deps').declared
  {
  }

  // R is never completed on the way.
  ghost function HistoryAt(i: nat): (h: History)
    requires i <= 10
    ensures R !in h.done && (i >= 1 ==> Dep(C, R) in h.declared)
  {
    if i == 0 then History({}, {}, {}, {}, map[], map[])
    else
      var h, t, t', deps' := HistoryAt(i - 1), TableAt(i - 1), TableAt(i), DepsAt(i);
      ParentIsRunning(i);
      ObservedOnce(h, t, t', deps', R, Dep(C, R));
      Observe(h, t, t', deps')
  }

  ghost function StateAt(i: nat): State
    requires i <= 10
  {
    State(TableAt(i), DepsAt(i), HistoryAt(i))
  }

  lemma FirstStepsAreTaken(i: nat, h: History)
    requires i < 5
    ensures Takes(TableAt(i), DepsAt(i), EventAt(i), TableAt(i + 1), DepsAt(i + 1), h)
  {
    match i
    case 0 => Step0(h);
    case 1 => Step1(h);
    case 2 => Step2(h);
    case 3 => Step3(h);
    case _ => Step4(h);
  }

  lemma LastStepsAreTaken(i: nat, h: History)
    requires 5 <= i < 10
    ensures Takes(TableAt(i), DepsAt(i), EventAt(i), TableAt(i + 1), DepsAt(i + 1), h)
  {
    match i
    case 5 => Step5(h);
    case 6 => Step6(h);
    case 7 => Step7(h);
    case 8 => Step8(h);
    case _ => Step9(h);
  }

  lemma EveryStepIsTaken(i: nat, h: History)
    requires i < 10
    ensures Takes(TableAt(i), DepsAt(i), EventAt(i), TableAt(i + 1), DepsAt(i + 1), h)
  {
    if i < 5 {
      FirstStepsAreTaken(i, h);
    } else {
      LastStepsAreTaken(i, h);
    }
  }

  lemma TakesIsNext(i: nat)
    requires i < 10
    ensures NextWithAnyKeys(Work(), StateAt(i), EventAt(i), StateAt(i + 1))
  {
    EveryStepIsTaken(i, HistoryAt(i));
  }

  // Only the second flow uses a key again.
  lemma OthersUseNewKeys(i: nat)
    requires i < 10 && i != 5
    ensures IdsAreFresh(StateAt(i), StateAt(i + 1))
  {
    if i == 0 {
      assert HistoryAt(0).used == {};
    } else {
      assert TableAt(i + 1).Keys <= TableAt(i).Keys;
    }
  }

  lemma ChildIsReleased(i: nat)
    requires i == 9
    ensures BecomesActive(TableAt(i), TableAt(i + 1), C) && R in TableAt(i) && TableAt(i)[R].state == Active
  {
  }

  lemma TakesIsNextWithNewKeys(i: nat)
    requires i < 10 && i != 5
    ensures Next(Work(), StateAt(i), EventAt(i), StateAt(i + 1))
  {
    TakesIsNext(i);
    OthersUseNewKeys(i);
  }

  ghost predicate IsTheRun(ss: seq<State>, es: seq<Step>) {
    && |ss| == 11 && |es| == 10
    && (forall i :: 0 <= i <= 10 ==> ss[i] == StateAt(i))
    && (forall i :: 0 <= i < 10 ==> es[i] == EventAt(i))
  }

  lemma TheRun() returns (ss: seq<State>, es: seq<Step>)
    ensures IsTheRun(ss, es)
  {
    ss := seq(11, i requires 0 <= i < 11 => StateAt(i));
    es := seq(10, i requires 0 <= i < 10 => EventAt(i));
  }

  lemma RunTakesSteps(ss: seq<State>, es: seq<Step>, i: nat)
    requires IsTheRun(ss, es) && i < |es|
    ensures NextWithAnyKeys(Work(), ss[i], es[i], ss[i + 1])
    ensures i != 5 ==> Next(Work(), ss[i], es[i], ss[i + 1])
  {
    TakesIsNext(i);
    if i != 5 {
      TakesIsNextWithNewKeys(i);
    }
  }

  lemma RunStarts(ss: seq<State>, es: seq<Step>)
    requires IsTheRun(ss, es)
    ensures Init(ss[0])
  {
    assert ss[0] == StateAt(0);
  }

  // The last step activates a job although a declared parent of it is running.
  ghost predicate ReleasesEarly(s: State, s': State, child: Key, parent: Key) {
    && Dep(child, parent) in s.h.declared && BecomesActive(s.jobs, s'.jobs, child)
    && parent in s.jobs && s.jobs[parent].state == Active && parent !in s.h.done
  }

  lemma RunEndsEarly(ss: seq<State>, es: seq<Step>, i: nat)
    requires IsTheRun(ss, es) && i == |es| - 1
    ensures ReleasesEarly(ss[i], ss[i + 1], C, R)
  {
    ChildIsReleased(i);
  }

  // Two flows in one queue: P and R are the parents of C; once P is resolved its row is deleted, and the second
  // flow names a parent of D by the same key. Resolving that one releases C, which is claimed while R is active
  // and has never been completed. Every step but the second flow is a step of a run as `Next` has it.
  lemma ReusedKeyReleasesEarly() returns (ss: seq<State>, es: seq<Step>)
    ensures |ss| == |es| + 1 && |es| == 10 && Init(ss[0])
    ensures forall i :: 0 <= i < |es| ==> NextWithAnyKeys(Work(), ss[i], es[i], ss[i + 1])
    ensures forall i :: 0 <= i < |es| && i != 5 ==> Next(Work(), ss[i], es[i], ss[i + 1])
    ensures ReleasesEarly(ss[|es| - 1], ss[|es|], C, R)
  {
    ss, es := TheRun();
    RunStarts(ss, es);
    forall i | 0 <= i < |es|
      ensures NextWithAnyKeys(Work(), ss[i], es[i], ss[i + 1])
      ensures i != 5 ==> Next(Work(), ss[i], es[i], ss[i + 1])
    {
      RunTakesSteps(ss, es, i);
    }
    RunEndsEarly(ss, es, |es| - 1);
  }
}
