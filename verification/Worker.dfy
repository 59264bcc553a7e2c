/**
 The polling loop of a worker: fetch, handle, wait, with notifications and a stop request that may
 arrive between any two of its steps.
 */
module Worker {
  import opened Outcomes

  // Where the loop is suspended.
  datatype Position = Idle | Fetching | Handling | Delaying | Ended

  // A pending delay has its length, in milliseconds.
  datatype Delay = Pending(length: real) | Fired | Aborted

  datatype State = State(
    at: Position, stopping: bool, stopped: bool, beenNotified: bool, jobs: nat, loopDelay: Option<Delay>)

  datatype FetchResult = FetchFailed | NoJobs | Jobs(count: nat)

  // `Fetched`, `Handled` and `Resumed` are what the loop does when its await returns; the duration is
  // that of the iteration so far, in milliseconds.
  datatype Event =
    | Start
    | Fetched(result: FetchResult, duration: real)
    | Handled(settled: Option<nat>, duration: real)
    | TimerFires
    | Resumed
    | Notify
    | Stop

  type Resolver = (nat, nat) -> real

  const INITIAL := State(Idle, false, false, false, 0, None)

  // ---------- One step ----------

  predicate IsPending(d: Option<Delay>) { d.Some? && d.value.Pending? }

  predicate Enabled(s: State, e: Event) {
    match e
    case Start => s.at == Idle
    case Fetched(_, _) => s.at == Fetching
    case Handled(_, _) => s.at == Handling
    case TimerFires => IsPending(s.loopDelay)
    case Resumed => s.at == Delaying && !IsPending(s.loopDelay)
    case _ => true
  }

  function Abort(d: Option<Delay>): Option<Delay> {
    if IsPending(d) then Some(Aborted) else d
  }

  function LoopTop(s: State): State {
    if s.stopping then s.(at := Ended, stopping := false, stopped := true)
    else s.(at := Fetching, beenNotified := false)
  }

  function EndIteration(s: State, interval: real, duration: real): State {
    if !s.stopping && !s.beenNotified && interval - duration > 100.0
    then s.(at := Delaying, loopDelay := Some(Pending(interval - duration)))
    else LoopTop(s)
  }

  function Next(resolve: Resolver, s: State, e: Event): State {
    match e
    case Start => LoopTop(s)
    case Fetched(Jobs(count), _) => s.(at := Handling, jobs := count)
    case Fetched(_, duration) => EndIteration(s, resolve(0, 0), duration)
    case Handled(Some(settled), duration) => EndIteration(s.(jobs := 0), resolve(s.jobs, settled), duration)
    case Handled(None, duration) => EndIteration(s, resolve(0, 0), duration)
    case TimerFires => s.(loopDelay := Some(Fired))
    case Resumed => LoopTop(s.(loopDelay := None))
    case Notify => s.(beenNotified := true, loopDelay := Abort(s.loopDelay))
    case Stop => s.(stopping := true, loopDelay := Abort(s.loopDelay))
  }

  class Worker {
    const resolveInterval: Resolver
    var at: Position
    var stopping: bool
    var stopped: bool
    var beenNotified: bool
    var jobs: nat
    var loopDelay: Option<Delay>

    function Now(): State
      reads this
    {
      State(at, stopping, stopped, beenNotified, jobs, loopDelay)
    }

    constructor (resolveInterval: Resolver)
      ensures Now() == INITIAL && this.resolveInterval == resolveInterval
    {
      this.resolveInterval := resolveInterval;
      at, stopping, stopped, beenNotified, jobs, loopDelay := Idle, false, false, false, 0, None;
    }

    method Begin()
      requires Enabled(Now(), Start)
      modifies this
      ensures Now() == Next(resolveInterval, old(Now()), Start)
    {
      TopOfLoop();
    }

    // while (!stopping) { beenNotified = false; fetch() … } and the epilogue of the loop.
    method TopOfLoop()
      modifies this
      ensures Now() == LoopTop(old(Now()))
    {
      if !stopping {
        beenNotified := false;
        at := Fetching;
      } else {
        stopping := false;
        stopped := true;
        at := Ended;
      }
    }

    method FinishIteration(fetchedCount: nat, settledCount: nat, duration: real)
      modifies this
      ensures Now() == EndIteration(old(Now()), resolveInterval(fetchedCount, settledCount), duration)
      ensures var left := resolveInterval(fetchedCount, settledCount) - duration;
              if old(stopping) then at == Ended && stopped && !stopping
              else if old(beenNotified) || left <= 100.0 then at == Fetching && !beenNotified
              else at == Delaying && loopDelay == Some(Pending(left))
    {
      var interval := resolveInterval(fetchedCount, settledCount);
      if !stopping && !beenNotified && interval - duration > 100.0 {
        loopDelay := Some(Pending(interval - duration));
        at := Delaying;
      } else {
        TopOfLoop();
      }
    }

    method OnFetched(result: FetchResult, duration: real)
      requires Enabled(Now(), Fetched(result, duration))
      modifies this
      ensures Now() == Next(resolveInterval, old(Now()), Fetched(result, duration))
    {
      match result
      case Jobs(count) =>
        jobs := count;
        at := Handling;
      case FetchFailed => FinishIteration(0, 0, duration);
      case NoJobs => FinishIteration(0, 0, duration);
    }

    // A handler that throws leaves the jobs in place and counts as if nothing had been fetched.
    method OnHandled(settled: Option<nat>, duration: real)
      requires Enabled(Now(), Handled(settled, duration))
      modifies this
      ensures Now() == Next(resolveInterval, old(Now()), Handled(settled, duration))
    {
      var fetchedCount, settledCount := 0, 0;
      if settled.Some? {
        fetchedCount, settledCount := jobs, settled.value;
        jobs := 0;
      }
      FinishIteration(fetchedCount, settledCount, duration);
    }

    method OnDelayOver()
      requires Enabled(Now(), Resumed)
      modifies this
      ensures Now() == Next(resolveInterval, old(Now()), Resumed)
    {
      loopDelay := None;
      TopOfLoop();
    }

    method Wake()
      modifies this
      ensures Now() == Next(resolveInterval, old(Now()), Notify)
    {
      beenNotified := true;
      if IsPending(loopDelay) {
        loopDelay := Some(Aborted);
      }
    }

    method RequestStop()
      modifies this
      ensures Now() == Next(resolveInterval, old(Now()), Stop)
    {
      stopping := true;
      if IsPending(loopDelay) {
        loopDelay := Some(Aborted);
      }
    }
  }

  // ---------- Runs ----------

  ghost predicate StepAt(resolve: Resolver, ss: seq<State>, es: seq<Event>, i: nat)
    requires i < |es| && |ss| == |es| + 1
  {
    Enabled(ss[i], es[i]) && ss[i + 1] == Next(resolve, ss[i], es[i])
  }

  ghost predicate IsRun(resolve: Resolver, ss: seq<State>, es: seq<Event>) {
    && |ss| == |es| + 1 && ss[0] == INITIAL
    && forall i :: 0 <= i < |es| ==> StepAt(resolve, ss, es, i)
  }

  // The steps that the loop itself takes.
  predicate IsSegment(e: Event) {
    e.Start? || e.Fetched? || e.Handled? || e.Resumed?
  }

  predicate StartsFetch(e: Event, after: State) {
    IsSegment(e) && after.at == Fetching
  }

  predicate IsRunning(s: State) {
    s.at == Fetching || s.at == Handling || s.at == Delaying
  }

  predicate DelayFits(s: State) {
    s.at == Delaying <==> s.loopDelay.Some?
  }

  lemma {:induction false} DelayFitsRun(resolve: Resolver, ss: seq<State>, es: seq<Event>, i: nat)
    requires IsRun(resolve, ss, es) && i <= |es|
    ensures DelayFits(ss[i])
  {
    if i > 0 {
      DelayFitsRun(resolve, ss, es, i - 1);
      assert StepAt(resolve, ss, es, i - 1);
    }
  }

  ghost predicate NoFetchStarts(ss: seq<State>, es: seq<Event>, lo: nat, hi: nat)
    requires lo <= hi <= |es| && |ss| == |es| + 1
  {
    forall m :: lo <= m < hi ==> !StartsFetch(es[m], ss[m + 1])
  }

  // ---------- Waiting between two fetches ----------

  // The step e ends an iteration that took so long, with so many jobs fetched and settled.
  predicate Ends(s: State, e: Event, fetched: nat, settled: nat, duration: real) {
    || ((e == Fetched(NoJobs, duration) || e == Fetched(FetchFailed, duration)) && fetched == 0 && settled == 0)
    || (e == Handled(Some(settled), duration) && fetched == s.jobs)
    || (e == Handled(None, duration) && fetched == 0 && settled == 0)
  }

  // A delay begins exactly if the worker was neither notified nor asked to stop and has more than 100
  // milliseconds left, and it lasts for what is left. Jobs that were handled are no longer held.
  lemma WaitsIff(resolve: Resolver, s: State, e: Event, fetched: nat, settled: nat, duration: real)
    requires Enabled(s, e) && Ends(s, e, fetched, settled, duration)
    ensures var after, left := Next(resolve, s, e), resolve(fetched, settled) - duration;
            && (after.at == Delaying <==> !s.stopping && !s.beenNotified && left > 100.0)
            && (after.at == Delaying ==> after.loopDelay == Some(Pending(left)))
            && (after.at != Delaying ==> after.at == if s.stopping then Ended else Fetching)
            && after.jobs == if e == Handled(Some(settled), duration) then 0 else s.jobs
  {
  }

  ghost predicate NoSegment(es: seq<Event>, lo: nat, hi: nat)
    requires lo <= hi <= |es|
  {
    forall m :: lo <= m < hi ==> !IsSegment(es[m])
  }

  // The jobs that count for the iteration are those its fetch returned.
  lemma {:induction false} JobsAreThoseFetched(resolve: Resolver, ss: seq<State>, es: seq<Event>, i: nat, j: nat,
                                               count: nat, took: real)
    requires IsRun(resolve, ss, es) && i < j <= |es| && es[i] == Fetched(Jobs(count), took) && NoSegment(es, i + 1, j)
    ensures ss[j].jobs == count && ss[j].at == Handling
  {
    if j == i + 1 {
      assert StepAt(resolve, ss, es, i);
    } else {
      JobsAreThoseFetched(resolve, ss, es, i, j - 1, count, took);
      assert StepAt(resolve, ss, es, j - 1);
    }
  }

  ghost predicate NoInterruption(es: seq<Event>, lo: nat, hi: nat)
    requires lo <= hi <= |es|
  {
    forall m :: lo <= m < hi ==> es[m] != Notify && es[m] != Stop
  }

  ghost predicate NoTimer(es: seq<Event>, lo: nat, hi: nat)
    requires lo <= hi <= |es|
  {
    forall m :: lo <= m < hi ==> es[m] != TimerFires
  }

  lemma StepOf(resolve: Resolver, ss: seq<State>, es: seq<Event>, i: nat)
    requires IsRun(resolve, ss, es) && i < |es|
    ensures Enabled(ss[i], es[i]) && ss[i + 1] == Next(resolve, ss[i], es[i])
  {
    assert StepAt(resolve, ss, es, i);
  }

  lemma {:induction false} KeepsWaiting(resolve: Resolver, ss: seq<State>, es: seq<Event>, i: nat, j: nat)
    requires IsRun(resolve, ss, es) && i < j <= |es| && NoInterruption(es, i + 1, j) && NoTimer(es, i + 1, j)
    requires ss[i + 1].at == Delaying && IsPending(ss[i + 1].loopDelay)
    ensures ss[j].at == Delaying && IsPending(ss[j].loopDelay)
  {
    if j > i + 1 {
      KeepsWaiting(resolve, ss, es, i, j - 1);
      StepOf(resolve, ss, es, j - 1);
    }
  }

  // Left alone, a worker with more than 100 milliseconds left waits its delay out before it fetches again.
  lemma WaitsBeforeFetch(resolve: Resolver, ss: seq<State>, es: seq<Event>, i: nat, j: nat, fetched: nat,
                         settled: nat, duration: real)
    requires IsRun(resolve, ss, es) && i < j < |es| && Ends(ss[i], es[i], fetched, settled, duration)
    requires !ss[i].stopping && !ss[i].beenNotified && resolve(fetched, settled) - duration > 100.0
    requires NoInterruption(es, i + 1, j) && StartsFetch(es[j], ss[j + 1])
    ensures exists m :: i < m < j && es[m] == TimerFires
  {
    if NoTimer(es, i + 1, j) {
      StepOf(resolve, ss, es, i);
      WaitsIff(resolve, ss[i], es[i], fetched, settled, duration);
      KeepsWaiting(resolve, ss, es, i, j);
      StepOf(resolve, ss, es, j);
    }
  }

  // ---------- No wakeup is lost ----------

  // Notified, and not waiting for a timer.
  predicate Alert(s: State) {
    s.beenNotified && !IsPending(s.loopDelay)
  }

  // After a notification and until the next fetch, the worker stays alert.
  lemma {:induction false} StaysAlert(resolve: Resolver, ss: seq<State>, es: seq<Event>, i: nat, j: nat)
    requires IsRun(resolve, ss, es) && i < j <= |es| && es[i] == Notify && NoFetchStarts(ss, es, i + 1, j)
    ensures Alert(ss[j])
  {
    if j == i + 1 {
      assert StepAt(resolve, ss, es, i);
    } else {
      StaysAlert(resolve, ss, es, i, j - 1);
      assert StepAt(resolve, ss, es, j - 1);
      assert !StartsFetch(es[j - 1], ss[j - 1 + 1]);
    }
  }

  // Between a notification and the next fetch no delay is waited out, and none is begun.
  lemma NoDelayAfterNotify(resolve: Resolver, ss: seq<State>, es: seq<Event>, i: nat, j: nat)
    requires IsRun(resolve, ss, es) && i < j < |es| && es[i] == Notify && NoFetchStarts(ss, es, i + 1, j)
    ensures es[j] != TimerFires
    ensures IsSegment(es[j]) ==> ss[j + 1].at != Delaying
  {
    StaysAlert(resolve, ss, es, i, j);
    DelayFitsRun(resolve, ss, es, j);
    assert StepAt(resolve, ss, es, j);
  }

  function Segments(es: seq<Event>, lo: nat, hi: nat): nat
    requires lo <= hi <= |es|
    decreases hi
  {
    if lo == hi then 0 else Segments(es, lo, hi - 1) + if IsSegment(es[hi - 1]) then 1 else 0
  }

  // How many steps of its own the alert worker is away from the next fetch, or from its end.
  function Distance(s: State): nat {
    match s.at
    case Idle => 1
    case Fetching => 2
    case Handling => 1
    case Delaying => 1
    case Ended => 0
  }

  lemma {:induction false} AlertWorkerApproaches(resolve: Resolver, ss: seq<State>, es: seq<Event>, i: nat, j: nat)
    requires IsRun(resolve, ss, es) && i < j <= |es| && es[i] == Notify && NoFetchStarts(ss, es, i + 1, j)
    ensures Distance(ss[j]) + Segments(es, i + 1, j) <= Distance(ss[i])
  {
    if j == i + 1 {
      assert StepAt(resolve, ss, es, i);
    } else {
      AlertWorkerApproaches(resolve, ss, es, i, j - 1);
      StaysAlert(resolve, ss, es, i, j - 1);
      DelayFitsRun(resolve, ss, es, j - 1);
      assert StepAt(resolve, ss, es, j - 1);
      assert !StartsFetch(es[j - 1], ss[j - 1 + 1]);
    }
  }

  ghost predicate NoStop(es: seq<Event>, lo: nat, hi: nat)
    requires lo <= hi <= |es|
  {
    forall m :: lo <= m < hi ==> es[m] != Stop
  }

  lemma {:induction false} StillRunning(resolve: Resolver, ss: seq<State>, es: seq<Event>, i: nat, j: nat)
    requires IsRun(resolve, ss, es) && i <= j <= |es| && IsRunning(ss[i]) && !ss[i].stopping && NoStop(es, i, j)
    ensures IsRunning(ss[j]) && !ss[j].stopping
  {
    if i < j {
      StillRunning(resolve, ss, es, i, j - 1);
      assert StepAt(resolve, ss, es, j - 1);
    }
  }

  // No lost wakeup: once a running worker that is not asked to stop has been notified, at most two
  // more steps of its loop lead to a new fetch, and no delay is waited out before it.
  lemma NotifyLeadsToFetch(resolve: Resolver, ss: seq<State>, es: seq<Event>, i: nat, j: nat)
    requires IsRun(resolve, ss, es) && i < j <= |es| && es[i] == Notify
    requires IsRunning(ss[i]) && !ss[i].stopping && NoStop(es, i, j) && Segments(es, i + 1, j) >= 2
    ensures exists m :: i < m < j && StartsFetch(es[m], ss[m + 1]) && forall n :: i < n < m ==> es[n] != TimerFires
  {
    if NoFetchStarts(ss, es, i + 1, j) {
      AlertWorkerApproaches(resolve, ss, es, i, j);
      StillRunning(resolve, ss, es, i, j);
      assert false;
    }
    var m := FirstFetch(ss, es, i + 1, j);
    forall n | i < n < m ensures es[n] != TimerFires {
      NoDelayAfterNotify(resolve, ss, es, i, n);
    }
  }

  lemma {:induction false} FirstFetch(ss: seq<State>, es: seq<Event>, lo: nat, hi: nat) returns (m: nat)
    requires lo <= hi <= |es| && |ss| == |es| + 1 && !NoFetchStarts(ss, es, lo, hi)
    ensures lo <= m < hi && StartsFetch(es[m], ss[m + 1]) && NoFetchStarts(ss, es, lo, m)
  {
    if NoFetchStarts(ss, es, lo, hi - 1) {
      m := hi - 1;
    } else {
      m := FirstFetch(ss, es, lo, hi - 1);
    }
  }

  // ---------- Nothing is fetched after a stop ----------

  lemma {:induction false} StaysStopping(resolve: Resolver, ss: seq<State>, es: seq<Event>, i: nat, j: nat)
    requires IsRun(resolve, ss, es) && i < j <= |es| && es[i] == Stop
    ensures ss[j].at == Ended || (ss[j].stopping && !IsPending(ss[j].loopDelay))
  {
    if j == i + 1 {
      assert StepAt(resolve, ss, es, i);
    } else {
      StaysStopping(resolve, ss, es, i, j - 1);
      assert StepAt(resolve, ss, es, j - 1);
    }
  }

  lemma NoFetchAfterStop(resolve: Resolver, ss: seq<State>, es: seq<Event>, i: nat, j: nat)
    requires IsRun(resolve, ss, es) && i < j < |es| && es[i] == Stop
    ensures !StartsFetch(es[j], ss[j + 1])
  {
    StaysStopping(resolve, ss, es, i, j);
    assert StepAt(resolve, ss, es, j);
  }

  lemma {:induction false} StoppingWorkerApproaches(resolve: Resolver, ss: seq<State>, es: seq<Event>, i: nat, j: nat)
    requires IsRun(resolve, ss, es) && i < j <= |es| && es[i] == Stop
    ensures Distance(ss[j]) + Segments(es, i + 1, j) <= Distance(ss[i])
  {
    if j == i + 1 {
      assert StepAt(resolve, ss, es, i);
    } else {
      StoppingWorkerApproaches(resolve, ss, es, i, j - 1);
      StaysStopping(resolve, ss, es, i, j - 1);
      DelayFitsRun(resolve, ss, es, j - 1);
      assert StepAt(resolve, ss, es, j - 1);
    }
  }

  // A stop ends the loop within two of its steps, without waiting for a timer.
  lemma StopEndsTheLoop(resolve: Resolver, ss: seq<State>, es: seq<Event>, i: nat, j: nat)
    requires IsRun(resolve, ss, es) && i < j <= |es| && es[i] == Stop && Segments(es, i + 1, j) >= 2
    ensures ss[j].at == Ended
  {
    StoppingWorkerApproaches(resolve, ss, es, i, j);
  }
}
