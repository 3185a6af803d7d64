/** Work conservation, and when SJF can run into an empty heap. */
module BusyPeriods {
  import opened Processes
  import opened Timers
  import opened Policies
  import opened IdealClock
  import opened RunInvariants
  import opened RunTheorems
  import S = ShortestJob

  /** The work brought along by the first `k` processes. */
  function Brought(jobs: seq<Job>, k: nat): nat
    requires k <= |jobs|
  {
    Total(Needed(jobs)[..k])
  }

  lemma {:induction false} TotalSplits(work: seq<nat>, k: nat)
    requires k <= |work|
    ensures Total(work) == Total(work[..k]) + Total(work[k..])
    decreases |work|
  {
    if k == |work| {
      assert work[..k] == work && work[k..] == [];
    } else {
      var n := |work| - 1;
      TotalSplits(work[..n], k);
      assert work[..n][..k] == work[..k] && work[..n][k..] == work[k..][..n - k];
    }
  }

  lemma {:induction false} TotalOfZeros(work: seq<nat>)
    requires forall i :: 0 <= i < |work| ==> work[i] == 0
    ensures Total(work) == 0
  {
    if work != [] {
      TotalOfZeros(work[..|work| - 1]);
    }
  }

  lemma {:induction false} PartOfTotal(work: seq<nat>, i: nat)
    requires i < |work|
    ensures work[i] <= Total(work)
    decreases |work|
  {
    if i < |work| - 1 {
      PartOfTotal(work[..|work| - 1], i);
    }
  }

  lemma BroughtGrows(jobs: seq<Job>, j: nat, k: nat)
    requires j <= k <= |jobs|
    ensures Brought(jobs, j) <= Brought(jobs, k)
  {
    var s := Needed(jobs)[..k];
    TotalSplits(s, j);
    assert s[..j] == Needed(jobs)[..j];
  }

  /** No CPU time has been lost since the first arrival: what has passed and what is still to be done of
      the admitted processes add up to what they brought along. */
  ghost predicate Busy(pr: Params, w: World) {
    && Shaped(pr, w)
    && (0 < w.clock.ptr ==>
          w.now + Total(w.work[..w.clock.ptr]) == pr.jobs[0].arrival + Brought(pr.jobs, w.clock.ptr))
  }

  /** The same balance over all processes: those not admitted yet count equally on both sides. */
  lemma BalanceOverAll(pr: Params, w: World)
    requires Core(pr, w, w.clock.ptr)
    ensures Total(w.work) - Total(Needed(pr.jobs)) ==
            Total(w.work[..w.clock.ptr]) - Brought(pr.jobs, w.clock.ptr)
  {
    var k := w.clock.ptr;
    TotalSplits(w.work, k);
    TotalSplits(Needed(pr.jobs), k);
    assert w.work[k..] == Needed(pr.jobs)[k..];
  }

  /** The arrival pointer after an event. */
  ghost function NextPtr(pr: Params, w: World, ev: Event): nat
    requires Shaped(pr, w) && Enabled(pr, w, ev)
  {
    if ev == TimerExpired then AfterTimer(pr.jobs, IsRR(pr), w.clock).ptr else w.clock.ptr
  }

  lemma NextPtrIsReached(pr: Params, w: World, ev: Event)
    requires Shaped(pr, w) && Enabled(pr, w, ev)
    ensures !Handle(pr, w, ev).Crashes? ==> Handle(pr, w, ev).w.clock.ptr == NextPtr(pr, w, ev)
    ensures Handle(pr, w, ev).Exits? ==> NextPtr(pr, w, ev) == |pr.jobs|
  {
  }

  lemma NextPtrGrows(pr: Params, w: World, ev: Event)
    requires Shaped(pr, w) && Enabled(pr, w, ev)
    ensures w.clock.ptr <= NextPtr(pr, w, ev)
  {
  }

  /** While somebody is running, the time that passes is the work that gets done. */
  lemma StepTradesTimeForWork(pr: Params, w: World, ev: Event, w': World)
    requires Guarded(pr) && Inv(pr, w) && Steps(pr, w, ev, w')
    ensures w.now <= w'.now
    ensures w.live != {} ==> Total(w'.work) == Total(w.work) - (w'.now - w.now)
    ensures w.live == {} ==> TimerMoves(pr, w, w') && w'.work == w.work
  {
    match ev
    case TimerExpired =>
      TimerMovesSo(pr, w, w');
    case ChildTerminated =>
      ExitMovesSo(pr, w, w');
      TotalUpdate(w.work, Running(pr, w).value, 0);
  }

  lemma FirstArrival(pr: Params, w: World, w': World)
    requires Inv(pr, w) && Inv(pr, w') && TimerMoves(pr, w, w') && w.clock.ptr == 0 < w'.clock.ptr
    ensures w'.now == pr.jobs[0].arrival && w'.work == Needed(pr.jobs)
  {
    assert w.live == {} by {
      forall i | i in w.live ensures false {
      }
    }
    assert w.clock.armed <= w.clock.arr;
  }

  lemma BusyGoesOn(pr: Params, w: World, w': World)
    requires Inv(pr, w) && Inv(pr, w') && Busy(pr, w) && 0 < w.clock.ptr <= w'.clock.ptr
    requires Total(w'.work) == Total(w.work) - (w'.now - w.now)
    ensures Busy(pr, w')
  {
    BalanceOverAll(pr, w);
    BalanceOverAll(pr, w');
  }

  lemma BusyBegins(pr: Params, w: World)
    requires Inv(pr, w) && w.now == pr.jobs[0].arrival && w.work == Needed(pr.jobs)
    ensures Busy(pr, w)
  {
    BalanceOverAll(pr, w);
  }

  lemma StepKeepsBusy(pr: Params, w: World, ev: Event, w': World)
    requires Guarded(pr) && Inv(pr, w) && Steps(pr, w, ev, w') && Busy(pr, w)
    requires w.clock.ptr == 0 || w.live != {}
    ensures Busy(pr, w')
  {
    StepKeepsInv(pr, w, ev);
    StepTradesTimeForWork(pr, w, ev, w');
    NextPtrIsReached(pr, w, ev);
    if w.clock.ptr == 0 && 0 < w'.clock.ptr {
      NobodyYet(pr, w);
      FirstArrival(pr, w, w');
      BusyBegins(pr, w');
    } else if 0 < w.clock.ptr {
      NextPtrGrows(pr, w, ev);
      BusyGoesOn(pr, w, w');
    }
  }

  lemma NobodyYet(pr: Params, w: World)
    requires Inv(pr, w) && w.clock.ptr == 0
    ensures w.live == {}
  {
    if i :| i in w.live {
      assert i < w.clock.ptr;
    }
  }

  // ---------- SJF ----------

  /** A waiting process keeps its original key, and SJF never idles between context switches. */
  ghost predicate SjfInv(pr: Params, w: World) {
    Inv(pr, w) && Busy(pr, w) && w.pol.Sjf? && (0 < w.clock.ptr ==> w.live != {})
  }

  lemma SjfIsActive(pr: Params, w: World, ev: Event, w': World)
    requires Steps(pr, w, ev, w') && w.pol.Sjf?
    ensures w'.pol.Sjf? && w'.pol.sjf.active.Some?
  {
    if ev == TimerExpired && ArrivalIsDue(pr, w) {
      var e := Elapse(pr, w, FireTime(w.clock)).(clock := AfterTimer(pr.jobs, IsRR(pr), w.clock));
      SjfAdmitsAll(pr, e, w.clock.ptr, GroupEnd(pr.jobs, w.clock.ptr));
    }
  }

  lemma ActiveIsLive(pr: Params, w: World)
    requires Inv(pr, w) && w.pol.Sjf? && w.pol.sjf.active.Some?
    ensures w.live != {}
  {
    assert w.pol.sjf.active.value in Members(w.pol);
    RunningIsCurrent(pr, w);
  }

  lemma SjfStep(pr: Params, w: World, ev: Event, w': World)
    requires Guarded(pr) && SjfInv(pr, w) && Steps(pr, w, ev, w')
    ensures SjfInv(pr, w')
  {
    StepKeepsInv(pr, w, ev);
    StepKeepsBusy(pr, w, ev, w');
    SjfIsActive(pr, w, ev, w');
    ActiveIsLive(pr, w');
  }

  lemma NextSjf(pr: Params, ws: seq<World>, evs: seq<Event>, k: nat)
    requires Guarded(pr) && IsPath(pr, ws, evs) && 0 < k <= |evs| && SjfInv(pr, ws[k - 1])
    ensures SjfInv(pr, ws[k])
  {
    StepAt(pr, ws, evs, k - 1);
    SjfStep(pr, ws[k - 1], evs[k - 1], ws[k]);
  }

  lemma {:induction false} SjfRun(pr: Params, ws: seq<World>, evs: seq<Event>, k: nat)
    requires Guarded(pr) && IsRun(pr, ws, evs) && pr.strategy == SJF && k <= |evs|
    ensures SjfInv(pr, ws[k])
    decreases k
  {
    if k == 0 {
      StartsInInv(pr);
    } else {
      SjfRun(pr, ws, evs, k - 1);
      NextSjf(pr, ws, evs, k);
    }
  }

  /** Process `i` comes after the first group, but not before the work of its predecessors can be done. */
  ghost predicate RunsDryAt(jobs: seq<Job>, i: nat) {
    && 0 < i < |jobs| && jobs[0].arrival < jobs[i].arrival
    && jobs[0].arrival + Brought(jobs, i) <= jobs[i].arrival
  }

  ghost predicate NeverRunsDry(jobs: seq<Job>) {
    forall i :: !RunsDryAt(jobs, i)
  }

  /** When the last live process exits, exactly the admitted work has been done. */
  lemma DryAt(pr: Params, w: World)
    requires Inv(pr, w) && Busy(pr, w) && 0 < w.clock.ptr && Running(pr, w).Some?
    requires w.live == {Running(pr, w).value}
    ensures w.now + w.work[Running(pr, w).value] == pr.jobs[0].arrival + Brought(pr.jobs, w.clock.ptr)
  {
    var i, done := Running(pr, w).value, w.work[..w.clock.ptr];
    TotalUpdate(done, i, 0);
    TotalOfZeros(done[i := 0]);
  }

  lemma SjfExitIsSafe(pr: Params, w: World)
    requires Guarded(pr) && NeverRunsDry(pr.jobs) && SjfInv(pr, w) && Enabled(pr, w, ChildTerminated)
    ensures Handle(pr, w, ChildTerminated) != Crashes
  {
    var i := Running(pr, w).value;
    RunningIsCurrent(pr, w);
    assert !RunsDryAt(pr.jobs, w.clock.ptr);
    if Handle(pr, w, ChildTerminated) == Crashes {
      assert w.pol.sjf.waiting == {};
      assert Members(w.pol) == {Current(w.pol).value};
      assert w.live == {i};
      DryAt(pr, w);
    }
  }

  lemma {:induction false} SjfAdmitsAll(pr: Params, w: World, lo: nat, hi: nat)
    requires Shaped(pr, w) && lo <= hi <= |pr.jobs| && w.pol.Sjf?
    ensures var r := AdmitAll(pr, w, lo, hi); r.Some? && r.value.pol.Sjf? && (lo < hi ==> CanSwitch(r.value.pol))
    decreases hi - lo
  {
    if lo < hi {
      SjfAdmitsAll(pr, AdmitOne(pr, w, lo), lo + 1, hi);
    }
  }

  lemma SjfArrivalIsSafe(pr: Params, w: World)
    requires SjfInv(pr, w) && Enabled(pr, w, TimerExpired)
    ensures Handle(pr, w, TimerExpired) != Crashes
  {
    var e := Elapse(pr, w, FireTime(w.clock)).(clock := AfterTimer(pr.jobs, false, w.clock));
    SjfAdmitsAll(pr, e, w.clock.ptr, GroupEnd(pr.jobs, w.clock.ptr));
  }

  ghost predicate CrashesAfter(pr: Params, ws: seq<World>, evs: seq<Event>, ev: Event) {
    && IsPath(pr, ws, evs)
    && Shaped(pr, ws[|evs|]) && Enabled(pr, ws[|evs|], ev) && Handle(pr, ws[|evs|], ev) == Crashes
  }

  /** Busy-period theorem: no SJF run pops an empty heap. */
  lemma SjfNeverCrashes(pr: Params, ws: seq<World>, evs: seq<Event>, ev: Event)
    requires Guarded(pr) && pr.strategy == SJF && NeverRunsDry(pr.jobs) && IsRun(pr, ws, evs)
    ensures !CrashesAfter(pr, ws, evs, ev)
  {
    SjfRun(pr, ws, evs, |evs|);
    if CrashesAfter(pr, ws, evs, ev) {
      match ev
      case TimerExpired => SjfArrivalIsSafe(pr, ws[|evs|]);
      case ChildTerminated => SjfExitIsSafe(pr, ws[|evs|]);
    }
  }

  // ---------- The converse ----------

  /** If exits are always handled first, the process that arrives too late is never admitted. */
  lemma LateProcessStaysOut(pr: Params, w: World, ev: Event, i: nat)
    requires Guarded(pr) && Inv(pr, w) && Busy(pr, w) && Enabled(pr, w, ev) && RunsDryAt(pr.jobs, i)
    requires w.clock.ptr <= i && (w.clock.ptr == 0 || w.live != {})
    requires ev == TimerExpired ==> !Enabled(pr, w, ChildTerminated)
    ensures NextPtr(pr, w, ev) <= i
    ensures !Handle(pr, w, ev).Exits?
  {
    RunningIsCurrent(pr, w);
    NextPtrIsReached(pr, w, ev);
    if ev == TimerExpired {
      ClockStep(pr, w);
      var hi := NextPtr(pr, w, ev);
      if i < hi {
        assert pr.jobs[i].arrival == FireTime(w.clock) == pr.jobs[w.clock.ptr].arrival;
        if w.live != {} {
          var r := Running(pr, w).value;
          PartOfTotal(w.work[..w.clock.ptr], r);
          BroughtGrows(pr.jobs, w.clock.ptr, i);
        }
      }
    }
  }

  lemma SjfTowardsCrash(pr: Params, w: World, i: nat) returns (ev: Event)
    requires Guarded(pr) && PidsDistinct(pr) && SjfInv(pr, w) && RunsDryAt(pr.jobs, i) && w.clock.ptr <= i
    ensures Enabled(pr, w, ev)
    ensures match Handle(pr, w, ev)
            case Crashes => true
            case Exits(w') => false
            case Continues(w') => SjfInv(pr, w') && w'.clock.ptr <= i && 0 <= EventsLeft(pr, w') < EventsLeft(pr, w)
  {
    SomeEventIsEnabled(pr, w);
    ev := if Enabled(pr, w, ChildTerminated) then ChildTerminated else TimerExpired;
    LateProcessStaysOut(pr, w, ev, i);
    NextPtrIsReached(pr, w, ev);
    if Handle(pr, w, ev).Continues? {
      SjfStep(pr, w, ev, Handle(pr, w, ev).w);
      StepUsesEvents(pr, w, ev, Handle(pr, w, ev).w);
      EventsLeftIsNatural(pr, Handle(pr, w, ev).w);
    }
  }

  lemma {:induction false} SjfCanCrash(pr: Params, w: World, i: nat)
    returns (ws: seq<World>, evs: seq<Event>, last: Event)
    requires Guarded(pr) && PidsDistinct(pr) && SjfInv(pr, w) && RunsDryAt(pr.jobs, i) && w.clock.ptr <= i
    ensures CrashesAfter(pr, ws, evs, last) && ws[0] == w
    decreases EventsLeft(pr, w)
  {
    var next := SjfTowardsCrash(pr, w, i);
    if Handle(pr, w, next) == Crashes {
      ws, evs, last := [w], [], next;
    } else {
      var ws', evs';
      ws', evs', last := SjfCanCrash(pr, Handle(pr, w, next).w, i);
      PrependStep(pr, w, next, ws', evs');
      ws, evs := [w] + ws', [next] + evs';
      assert ws[|evs|] == ws'[|evs'|];
    }
  }

  /** SJF is safe on exactly those inputs on which it never runs dry. */
  lemma SjfIsSafeExactly(pr: Params)
    requires Guarded(pr) && pr.strategy == SJF && PidsDistinct(pr)
    ensures NeverRunsDry(pr.jobs) <==>
            forall ws, evs, ev :: IsRun(pr, ws, evs) ==> !CrashesAfter(pr, ws, evs, ev)
  {
    if NeverRunsDry(pr.jobs) {
      forall ws, evs, ev | IsRun(pr, ws, evs) ensures !CrashesAfter(pr, ws, evs, ev) {
        SjfNeverCrashes(pr, ws, evs, ev);
      }
    } else {
      var i :| RunsDryAt(pr.jobs, i);
      StartsInInv(pr);
      var ws, evs, ev := SjfCanCrash(pr, Start(pr), i);
      assert IsRun(pr, ws, evs) && CrashesAfter(pr, ws, evs, ev);
    }
  }

  /** One unit of work, then a gap: the scheduler finds nobody to start at time 1. */
  lemma AnInputThatRunsDry(pr: Params) returns (ws: seq<World>, evs: seq<Event>, ev: Event)
    requires pr.jobs == [Job(0, 1), Job(2, 1)] && |pr.pids| == 2 && PidsDistinct(pr) && pr.strategy == SJF
    ensures IsRun(pr, ws, evs) && CrashesAfter(pr, ws, evs, ev)
  {
    assert Needed(pr.jobs)[..1] == [1];
    assert Total([1]) == 1;
    assert RunsDryAt(pr.jobs, 1);
    SjfIsSafeExactly(pr);
    ws, evs, ev :| IsRun(pr, ws, evs) && CrashesAfter(pr, ws, evs, ev);
  }
}
