/** Whole SJF runs of jobs that arrive together: the completion times add up to the least possible sum. */
module SjfOptimality {
  import opened Processes
  import opened Heaps
  import opened HeapContents
  import opened Timers
  import opened Policies
  import opened IdealClock
  import opened RunInvariants
  import opened RunTheorems
  import opened BusyPeriods
  import opened SjfTheorems
  import S = ShortestJob

  /** The sum of the completion times in the log. */
  function FinishSum(log: seq<LogEntry>): int {
    if log == [] then 0
    else FinishSum(log[..|log| - 1]) + (var e := log[|log| - 1]; if e.Finished? then e.at else 0)
  }

  lemma FinishSumAppend(log: seq<LogEntry>, e: LogEntry)
    ensures FinishSum(log + [e]) == FinishSum(log) + (if e.Finished? then e.at else 0)
  {
    assert (log + [e])[..|log|] == log;
  }

  function Burst(s: seq<Entry>): int {
    if s == [] then 0 else s[0].rem + Burst(s[1..])
  }

  /** One more process runs after all the others. */
  lemma {:induction false} CompletionOfLast(start: int, s: seq<Entry>, e: Entry)
    ensures Burst(s + [e]) == Burst(s) + e.rem
    ensures S.TotalCompletion(start, s + [e]) == S.TotalCompletion(start, s) + start + Burst(s) + e.rem
    decreases |s|
  {
    if s == [] {
      assert ([e])[1..] == [];
      assert s + [e] == [e];
    } else {
      CompletionOfLast(start + s[0].rem, s[1..], e);
      assert (s + [e])[1..] == s[1..] + [e];
    }
  }

  ghost function AllJobs(pr: Params): set<Entry>
    requires |pr.jobs| == |pr.pids|
  {
    set i | 0 <= i < |pr.jobs| :: JobEntry(pr, i)
  }

  ghost predicate IsBatch(jobs: seq<Job>, start: int) {
    forall i :: 0 <= i < |jobs| ==> jobs[i].arrival == start
  }

  /** The processes in `order` have run, one after the other, and the live ones have not begun. */
  ghost predicate Progress(pr: Params, w: World, order: seq<Entry>, start: int) {
    && Shaped(pr, w)
    && (forall i :: i in w.live ==> w.work[i] == pr.jobs[i].needed)
    && S.RanInOrder(order, JobsOf(pr, w.live), AllJobs(pr))
    && w.now == start + Burst(order) && FinishSum(w.log) == S.TotalCompletion(start, order)
  }

  /** The whole batch has been admitted, and the least of the live processes is running. */
  ghost predicate RunsBatch(pr: Params, w: World, order: seq<Entry>, start: int) {
    && Inv(pr, w) && KeysOriginal(pr, w) && w.clock.ptr == |pr.jobs|
    && w.pol.sjf.active.Some? && IsLeast(w.pol.sjf.active.value, JobsOf(pr, w.live))
    && Progress(pr, w, order, start)
  }

  // ---------- The batch arrives ----------

  lemma {:induction false} AdmissionsFinishNobody(pr: Params, w: World, lo: nat, hi: nat)
    requires Shaped(pr, w) && lo <= hi <= |pr.jobs|
    ensures var r := AdmitAll(pr, w, lo, hi);
            r.Some? ==> Finishes(r.value.log) == Finishes(w.log) && FinishSum(r.value.log) == FinishSum(w.log)
    decreases hi - lo
  {
    if lo < hi && CanAdd(w.pol) {
      LogAppend(w.log, Admitted(lo, w.now));
      FinishSumAppend(w.log, Admitted(lo, w.now));
      AdmissionsFinishNobody(pr, AdmitOne(pr, w, lo), lo + 1, hi);
    }
  }

  lemma BatchLog(pr: Params, w: World, w': World)
    requires Steps(pr, w, TimerExpired, w') && Running(pr, w) == None && ArrivalIsDue(pr, w)
    ensures Finishes(w'.log) == Finishes(w.log) && FinishSum(w'.log) == FinishSum(w.log)
  {
    AdmissionsFinishNobody(pr, Woken(pr, w), w.clock.ptr, GroupEnd(pr.jobs, w.clock.ptr));
  }

  lemma BatchIsAdmitted(pr: Params, w: World, w': World, start: int)
    requires Guarded(pr) && pr.strategy == SJF && IsBatch(pr.jobs, start) && Inv(pr, w) && w.clock.ptr == 0
    requires Steps(pr, w, TimerExpired, w')
    ensures ArrivalIsDue(pr, w) && Running(pr, w) == None && w.live == {}
    ensures w'.clock.ptr == |pr.jobs| && w'.now == start && w'.work == w.work
  {
    NobodyYet(pr, w);
    RunningIsCurrent(pr, w);
    ArrivalAdmitsWholeGroup(pr, w, w');
    GroupIsMaximal(pr.jobs, 0);
    NextPtrIsReached(pr, w, TimerExpired);
    StepTradesTimeForWork(pr, w, TimerExpired, w');
  }

  lemma EverybodyIsLive(pr: Params, w: World)
    requires Inv(pr, w) && w.clock.ptr == |pr.jobs| && Finishes(w.log) == []
    ensures JobsOf(pr, w.live) == AllJobs(pr)
  {
    forall i: nat | i < |pr.jobs| ensures i in w.live {
      assert i !in Finishes(w.log);
    }
  }

  lemma NothingRanYet(pr: Params, w: World, start: int)
    requires KeysOriginal(pr, w) && WellFormed(w.pol) && JobsOf(pr, w.live) == AllJobs(pr)
    requires w.work == Needed(pr.jobs) && w.now == start && FinishSum(w.log) == 0
    ensures Progress(pr, w, [], start)
  {
    assert SetOf([]) == {};
  }

  lemma BatchBegins(pr: Params, w: World, w': World, start: int)
    requires Guarded(pr) && pr.strategy == SJF && IsBatch(pr.jobs, start) && w == Start(pr)
    requires Steps(pr, w, TimerExpired, w')
    ensures Inv(pr, w') && w'.clock.ptr == |pr.jobs| && JobsOf(pr, w'.live) == AllJobs(pr)
    ensures w'.now == start && w'.work == Needed(pr.jobs) && FinishSum(w'.log) == 0
  {
    StartsInInv(pr);
    StepInv(pr, w, TimerExpired, w');
    BatchIsAdmitted(pr, w, w', start);
    BatchLog(pr, w, w');
    EverybodyIsLive(pr, w');
  }

  lemma BatchRuns(pr: Params, w: World, w': World, start: int)
    requires Guarded(pr) && pr.strategy == SJF && IsBatch(pr.jobs, start) && w == Start(pr)
    requires Steps(pr, w, TimerExpired, w')
    ensures RunsBatch(pr, w', [], start)
  {
    BatchBegins(pr, w, w', start);
    TimerStarts(pr, w, w');
    NothingRanYet(pr, w', start);
  }

  // ---------- One process after the other ----------

  /** What the exit of the running process does to time and log. */
  lemma ExitIsLogged(pr: Params, w: World, w': World, i: nat)
    requires Shaped(pr, w) && Enabled(pr, w, ChildTerminated) && Running(pr, w) == Some(i)
    requires Handle(pr, w, ChildTerminated) == Continues(w') || Handle(pr, w, ChildTerminated) == Exits(w')
    ensures w'.now == w.now + w.work[i] && w'.clock == w.clock && w'.live == w.live - {i}
    ensures w'.work == w.work[i := 0] && FinishSum(w'.log) == FinishSum(w.log) + w'.now
  {
    FinishSumAppend(w.log, Ran(i, w.now, w'.now));
    FinishSumAppend(w.log + [Ran(i, w.now, w'.now)], Finished(i, w'.now));
  }

  lemma OneLess(pr: Params, live: set<nat>, i: nat)
    requires |pr.jobs| == |pr.pids| && i in live && forall j :: j in live ==> j < |pr.jobs|
    ensures JobsOf(pr, live - {i}) == JobsOf(pr, live) - {JobEntry(pr, i)}
  {
  }

  /** The least process runs next, so the order stays sorted. */
  lemma OrderGrows(pr: Params, live: set<nat>, i: nat, order: seq<Entry>)
    requires |pr.jobs| == |pr.pids| && i in live && forall j :: j in live ==> j < |pr.jobs|
    requires S.RanInOrder(order, JobsOf(pr, live), AllJobs(pr)) && IsLeast(JobEntry(pr, i), JobsOf(pr, live))
    ensures S.RanInOrder(order + [JobEntry(pr, i)], JobsOf(pr, live - {i}), AllJobs(pr))
  {
    var e, waiting := JobEntry(pr, i), JobsOf(pr, live);
    LeastIsUnique(e, Least(waiting), waiting);
    S.RunLeastNext(order, waiting, AllJobs(pr));
    OneLess(pr, live, i);
  }

  /** The exit of process `i` of the batch, whether the loop goes on or exits. */
  lemma BatchExit(pr: Params, w: World, w': World, i: nat, order: seq<Entry>, start: int)
    requires Progress(pr, w, order, start) && i in w.live && IsLeast(JobEntry(pr, i), JobsOf(pr, w.live))
    requires Shaped(pr, w') && w'.live == w.live - {i} && w'.work == w.work[i := 0]
    requires w'.now == w.now + w.work[i] && FinishSum(w'.log) == FinishSum(w.log) + w'.now
    ensures Progress(pr, w', order + [JobEntry(pr, i)], start)
  {
    OrderGrows(pr, w.live, i, order);
    CompletionOfLast(start, order, JobEntry(pr, i));
  }

  /** The process that is running. */
  lemma BatchRunner(pr: Params, w: World, order: seq<Entry>, start: int) returns (i: nat)
    requires RunsBatch(pr, w, order, start)
    ensures Running(pr, w) == Some(i) && i in w.live && IsLeast(JobEntry(pr, i), JobsOf(pr, w.live))
  {
    RunningIsCurrent(pr, w);
    CurrentJob(pr, w);
    i := Running(pr, w).value;
  }

  lemma OnlyChildrenNow(pr: Params, w: World, ev: Event)
    requires Shaped(pr, w) && pr.strategy == SJF && w.clock.ptr == |pr.jobs| && Enabled(pr, w, ev)
    ensures ev == ChildTerminated
  {
  }

  lemma BatchStarts(pr: Params, w: World, w': World)
    requires Inv(pr, w) && KeysOriginal(pr, w) && Steps(pr, w, ChildTerminated, w')
    ensures Starts(pr, None, w')
  {
    RunningIsCurrent(pr, w);
    CurrentJob(pr, w);
    ExitStarts(pr, w, w', Running(pr, w).value);
  }

  lemma BatchProgresses(pr: Params, w: World, w': World, order: seq<Entry>, start: int) returns (next: seq<Entry>)
    requires RunsBatch(pr, w, order, start) && Enabled(pr, w, ChildTerminated) && Shaped(pr, w')
    requires Handle(pr, w, ChildTerminated) == Continues(w') || Handle(pr, w, ChildTerminated) == Exits(w')
    ensures Progress(pr, w', next, start) && w'.clock == w.clock
  {
    var i := BatchRunner(pr, w, order, start);
    ExitIsLogged(pr, w, w', i);
    BatchExit(pr, w, w', i, order, start);
    next := order + [JobEntry(pr, i)];
  }

  lemma BatchGoesOn(pr: Params, w: World, ev: Event, w': World, order: seq<Entry>, start: int)
    returns (next: seq<Entry>)
    requires Guarded(pr) && pr.strategy == SJF && RunsBatch(pr, w, order, start) && Steps(pr, w, ev, w')
    ensures RunsBatch(pr, w', next, start)
  {
    OnlyChildrenNow(pr, w, ev);
    StepInv(pr, w, ev, w');
    next := BatchProgresses(pr, w, w', order, start);
    BatchStarts(pr, w, w');
  }

  lemma FirstEventIsArrival(pr: Params, ev: Event)
    requires Guarded(pr) && pr.strategy == SJF && Shaped(pr, Start(pr)) && Enabled(pr, Start(pr), ev)
    ensures ev == TimerExpired
  {
    StartsInInv(pr);
    NobodyYet(pr, Start(pr));
    RunningIsCurrent(pr, Start(pr));
  }

  lemma NextInBatch(pr: Params, ws: seq<World>, evs: seq<Event>, k: nat, order: seq<Entry>, start: int)
    returns (next: seq<Entry>)
    requires Guarded(pr) && pr.strategy == SJF && IsPath(pr, ws, evs) && 0 < k <= |evs|
    requires RunsBatch(pr, ws[k - 1], order, start)
    ensures RunsBatch(pr, ws[k], next, start)
  {
    StepAt(pr, ws, evs, k - 1);
    next := BatchGoesOn(pr, ws[k - 1], evs[k - 1], ws[k], order, start);
  }

  lemma FirstInBatch(pr: Params, ws: seq<World>, evs: seq<Event>, start: int)
    requires Guarded(pr) && pr.strategy == SJF && IsBatch(pr.jobs, start) && IsRun(pr, ws, evs) && 0 < |evs|
    ensures RunsBatch(pr, ws[1], [], start)
  {
    StepAt(pr, ws, evs, 0);
    FirstEventIsArrival(pr, evs[0]);
    BatchRuns(pr, ws[0], ws[1], start);
  }

  lemma {:induction false} RunOfBatch(pr: Params, ws: seq<World>, evs: seq<Event>, k: nat, start: int)
    returns (order: seq<Entry>)
    requires Guarded(pr) && pr.strategy == SJF && IsBatch(pr.jobs, start) && IsRun(pr, ws, evs) && 0 < k <= |evs|
    ensures RunsBatch(pr, ws[k], order, start)
    decreases k
  {
    if k == 1 {
      FirstInBatch(pr, ws, evs, start);
      order := [];
    } else {
      var before := RunOfBatch(pr, ws, evs, k - 1, start);
      order := NextInBatch(pr, ws, evs, k, before, start);
    }
  }

  // ---------- The whole run ----------

  lemma NoExitAtOnce(pr: Params, ev: Event)
    requires Guarded(pr) && pr.strategy == SJF && Shaped(pr, Start(pr)) && Enabled(pr, Start(pr), ev)
    ensures !Handle(pr, Start(pr), ev).Exits?
  {
    var w := Start(pr);
    FirstEventIsArrival(pr, ev);
    SjfAdmitsAll(pr, Woken(pr, w), 0, GroupEnd(pr.jobs, 0));
    AdmittedAreWaiting(pr, Woken(pr, w), 0, GroupEnd(pr.jobs, 0));
  }

  lemma {:induction false} AdmittedAreWaiting(pr: Params, w: World, lo: nat, hi: nat)
    requires Shaped(pr, w) && lo <= hi <= |pr.jobs| && w.pol.Sjf?
    ensures var r := AdmitAll(pr, w, lo, hi);
            r.Some? && r.value.pol.Sjf? && w.pol.sjf.waiting <= r.value.pol.sjf.waiting &&
            (lo < hi ==> r.value.pol.sjf.waiting != {})
    decreases hi - lo
  {
    if lo < hi {
      AdmittedAreWaiting(pr, AdmitOne(pr, w, lo), lo + 1, hi);
    }
  }

  lemma LastOfBatch(pr: Params, w: World, ev: Event, w': World, order: seq<Entry>, start: int)
    returns (next: seq<Entry>)
    requires Guarded(pr) && pr.strategy == SJF && RunsBatch(pr, w, order, start) && Enabled(pr, w, ev)
    requires Handle(pr, w, ev) == Exits(w') && Shaped(pr, w') && w'.live == {}
    ensures S.RanInOrder(next, {}, AllJobs(pr)) && FinishSum(w'.log) == S.TotalCompletion(start, next)
  {
    OnlyChildrenNow(pr, w, ev);
    next := BatchProgresses(pr, w, w', order, start);
    assert JobsOf(pr, {}) == {};
  }

  lemma SomeEventBefore(pr: Params, ws: seq<World>, evs: seq<Event>, ev: Event, w': World)
    requires Guarded(pr) && pr.strategy == SJF && EndsIn(pr, ws, evs, ev, w')
    ensures 0 < |evs| && Shaped(pr, w') && w'.live == {}
  {
    ExitMeansAllDone(pr, ws, evs, ev, w');
    if |evs| == 0 {
      NoExitAtOnce(pr, ev);
    }
  }

  lemma WholeBatchRuns(pr: Params, ws: seq<World>, evs: seq<Event>, ev: Event, w': World, start: int)
    returns (order: seq<Entry>)
    requires Guarded(pr) && pr.strategy == SJF && IsBatch(pr.jobs, start) && EndsIn(pr, ws, evs, ev, w')
    ensures S.RanInOrder(order, {}, AllJobs(pr)) && FinishSum(w'.log) == S.TotalCompletion(start, order)
  {
    SomeEventBefore(pr, ws, evs, ev, w');
    var before := RunOfBatch(pr, ws, evs, |evs|, start);
    order := LastOfBatch(pr, ws[|evs|], ev, w', before, start);
  }

  /** If all jobs arrive together, the completion times in the log of a whole SJF run add up to the total
      completion time of the sorted order, and no order of the same jobs has a smaller one. */
  lemma SjfIsOptimal(pr: Params, ws: seq<World>, evs: seq<Event>, ev: Event, w': World, start: int)
    returns (order: seq<Entry>)
    requires Guarded(pr) && pr.strategy == SJF && IsBatch(pr.jobs, start) && EndsIn(pr, ws, evs, ev, w')
    ensures SetOf(order) == AllJobs(pr) && Unique(order) && Sorted(order)
    ensures FinishSum(w'.log) == S.TotalCompletion(start, order)
    ensures forall t :: SetOf(t) == AllJobs(pr) && Unique(t) ==> FinishSum(w'.log) <= S.TotalCompletion(start, t)
  {
    order := WholeBatchRuns(pr, ws, evs, ev, w', start);
    S.InOrderIsOptimal(start, order, AllJobs(pr));
  }
}
