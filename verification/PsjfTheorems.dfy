/** Conservation of work in PSJF, its stated invariant, and when it can dereference a missing process. */
module PsjfTheorems {
  import opened Processes
  import opened HeapContents
  import opened Timers
  import opened Policies
  import opened IdealClock
  import opened RunInvariants
  import opened RunTheorems
  import opened BusyPeriods
  import opened SrtSimulation
  import P = PreemptiveShortestJob

  /** The sum of the remaining times in the heap. */
  ghost function KeySum(heap: set<Entry>): int
    decreases heap
  {
    if heap == {} then 0 else Least(heap).rem + KeySum(heap - {Least(heap)})
  }

  /** The keys of the heap are the nonzero part of `work`. */
  ghost predicate KeysAre(heap: set<Entry>, work: seq<nat>) {
    && (forall e :: e in heap ==> e.id < |work| && e.rem == work[e.id])
    && (forall e, f :: e in heap && f in heap && e.id == f.id ==> e == f)
    && (forall j :: 0 <= j < |work| && work[j] != 0 ==> exists e :: e in heap && e.id == j)
  }

  lemma {:induction false} KeySumIsTotal(heap: set<Entry>, work: seq<nat>)
    requires KeysAre(heap, work)
    ensures KeySum(heap) == Total(work)
    decreases heap
  {
    if heap == {} {
      TotalOfZeros(work);
    } else {
      var a := Least(heap);
      var rest, left := heap - {a}, work[a.id := 0];
      forall j | 0 <= j < |left| && left[j] != 0 ensures exists e :: e in rest && e.id == j {
        var e :| e in heap && e.id == j;
        assert e in rest;
      }
      KeySumIsTotal(rest, left);
      TotalUpdate(work, a.id, 0);
    }
  }

  // ---------- Runs ----------

  ghost predicate PsjfInv(pr: Params, w: World) {
    Inv(pr, w) && Exact(pr, w) && Busy(pr, w) && 0 < w.clock.ptr
  }

  lemma PsjfStep(pr: Params, w: World, ev: Event, w': World)
    requires Guarded(pr) && PsjfInv(pr, w) && Steps(pr, w, ev, w')
    requires ev == TimerExpired ==> AloneAt(pr.jobs, w.clock.ptr)
    ensures PsjfInv(pr, w') && w.live != {}
  {
    StepKeepsInv(pr, w, ev);
    StepStaysExact(pr, w, ev, w');
    StepKeepsBusy(pr, w, ev, w');
    NextPtrIsReached(pr, w, ev);
    if ev == TimerExpired {
      OneArrivalAtATime(pr, w);
      ClockStep(pr, w);
    }
  }

  lemma WarmStartIsPsjf(pr: Params)
    requires Guarded(pr) && pr.strategy == PSJF
    ensures PsjfInv(pr, WarmPsjf(pr)) && WarmPsjf(pr).live != {}
  {
    var w := WarmPsjf(pr);
    WarmStartIsSimulated(pr);
    StartsInStep(pr.jobs, false);
    GroupIsMaximal(pr.jobs, 0);
    assert w.clock.ptr == 1;
    assert 0 in w.live;
  }

  lemma NextPsjf(pr: Params, ws: seq<World>, evs: seq<Event>, k: nat)
    requires Guarded(pr) && Increasing(pr.jobs) && IsPath(pr, ws, evs) && 0 < k <= |evs| && PsjfInv(pr, ws[k - 1])
    ensures PsjfInv(pr, ws[k])
    ensures ws[k].live == {} ==> RunsDryAt(pr.jobs, ws[k - 1].clock.ptr)
  {
    StepAt(pr, ws, evs, k - 1);
    PsjfStep(pr, ws[k - 1], evs[k - 1], ws[k]);
    PsjfStaysBusy(pr, ws[k - 1], evs[k - 1], ws[k]);
  }

  lemma {:induction false} PsjfRunKeeps(pr: Params, ws: seq<World>, evs: seq<Event>, k: nat)
    requires ValidParams(pr) && Increasing(pr.jobs) && pr.strategy == PSJF && IsRun(pr, ws, evs) && k <= |evs|
    ensures PsjfInv(pr, ws[k])
    decreases k
  {
    if k == 0 {
      WarmStartIsPsjf(pr);
    } else {
      PsjfRunKeeps(pr, ws, evs, k - 1);
      NextPsjf(pr, ws, evs, k);
    }
  }

  /** At every context switch PSJF's inferred time plus what the heap still has to run is the start time
      plus all the work admitted so far; the inferred time is the real one, no remaining time is
      negative, and the active process is the top of the heap, the least of all live processes. */
  lemma PsjfConservesWork(pr: Params, ws: seq<World>, evs: seq<Event>, k: nat)
    requires ValidParams(pr) && Increasing(pr.jobs) && pr.strategy == PSJF && IsRun(pr, ws, evs) && k <= |evs|
    ensures ws[k].pol.Psjf? && ws[k].clock.ptr <= |pr.jobs|
    ensures var s := ws[k].pol.psjf;
            && s.cur + KeySum(s.heap) == pr.jobs[0].arrival + Brought(pr.jobs, ws[k].clock.ptr)
            && s.cur == s.last == ws[k].now
            && (forall e :: e in s.heap ==> 0 <= e.rem)
            && IdsOf(s.heap) == ws[k].live
            && (s.heap != {} ==> s.active.Some? && IsLeast(s.active.value, s.heap))
  {
    PsjfRunKeeps(pr, ws, evs, k);
    var w := ws[k];
    var done := w.work[..w.clock.ptr];
    assert KeysAre(w.pol.psjf.heap, done) by {
      forall e | e in w.pol.psjf.heap ensures e.id < |done| && e.rem == done[e.id] {
        assert e.id in IdsOf(Members(w.pol));
      }
      forall e, f | e in w.pol.psjf.heap && f in w.pol.psjf.heap && e.id == f.id ensures e == f {
        SameIdSameEntry(pr, w, e, f);
      }
      forall j | 0 <= j < |done| && done[j] != 0 ensures exists e :: e in w.pol.psjf.heap && e.id == j {
        var e :| e in Members(w.pol) && e.id == j;
      }
    }
    KeySumIsTotal(w.pol.psjf.heap, done);
  }

  lemma LeastKeyInNumbers(pr: Params, w: World, c: nat, j: nat)
    requires Inv(pr, w) && Exact(pr, w) && Running(pr, w) == Some(c) && j in w.live
    ensures c < |w.work| == |pr.pids| && j < |w.work|
    ensures w.work[c] < w.work[j] || (w.work[c] == w.work[j] && pr.pids[c] <= pr.pids[j])
  {
    RunsTheLeast(pr, w);
    var a := Least(w.pol.psjf.heap);
    assert a in Members(w.pol);
    var e :| e in Members(w.pol) && e.id == j;
    assert AtMost(a, e);
  }

  /** Whenever the kernel runs a process `c` in a PSJF run, every live process has more left to do than `c`, or the
      same and no smaller pid. */
  lemma PsjfRunsShortest(pr: Params, ws: seq<World>, evs: seq<Event>, k: nat, c: nat)
    requires ValidParams(pr) && Increasing(pr.jobs) && pr.strategy == PSJF && IsRun(pr, ws, evs) && k <= |evs|
    requires Shaped(pr, ws[k]) && Running(pr, ws[k]) == Some(c)
    ensures c < |pr.jobs|
    ensures forall j :: j in ws[k].live ==>
              ws[k].work[c] < ws[k].work[j] ||
              (ws[k].work[c] == ws[k].work[j] && pr.pids[c] <= pr.pids[j])
  {
    PsjfRunKeeps(pr, ws, evs, k);
    RunningIsCurrent(pr, ws[k]);
    forall j | j in ws[k].live
      ensures ws[k].work[c] < ws[k].work[j] || (ws[k].work[c] == ws[k].work[j] && pr.pids[c] <= pr.pids[j])
    {
      LeastKeyInNumbers(pr, ws[k], c, j);
    }
  }

  // ---------- Safety ----------

  lemma PsjfIdleCrashes(pr: Params, w: World)
    requires Guarded(pr) && PsjfInv(pr, w) && w.live == {} && PidsDistinct(pr)
    ensures Enabled(pr, w, TimerExpired) && Handle(pr, w, TimerExpired) == Crashes
  {
    SomeEventIsEnabled(pr, w);
    RunningIsCurrent(pr, w);
    assert !CanAdd(w.pol);
  }

  lemma PsjfBusyIsSafe(pr: Params, w: World, ev: Event)
    requires Guarded(pr) && PsjfInv(pr, w) && w.live != {} && Enabled(pr, w, ev)
    requires ev == TimerExpired ==> AloneAt(pr.jobs, w.clock.ptr)
    ensures Handle(pr, w, ev) != Crashes
  {
    RunsTheLeast(pr, w);
    if ev == TimerExpired {
      OneArrivalAtATime(pr, w);
    }
  }

  lemma LastExitMeansDry(pr: Params, w: World, w': World, i: nat)
    requires Guarded(pr) && PsjfInv(pr, w) && Running(pr, w) == Some(i) && i in w.live && w'.live == w.live - {i} == {}
    requires w'.now == w.now + w.work[i] && w.clock.ptr < |pr.jobs| && w'.now <= pr.jobs[w.clock.ptr].arrival
    requires pr.strategy == PSJF
    ensures RunsDryAt(pr.jobs, w.clock.ptr)
  {
    assert w.live == {i};
    DryAt(pr, w);
  }

  lemma PsjfStaysBusy(pr: Params, w: World, ev: Event, w': World)
    requires Guarded(pr) && PsjfInv(pr, w) && Steps(pr, w, ev, w')
    requires ev == TimerExpired ==> AloneAt(pr.jobs, w.clock.ptr)
    ensures w'.live == {} ==> RunsDryAt(pr.jobs, w.clock.ptr)
  {
    match ev
    case TimerExpired => ArrivalExtendsLog(pr, w, w');
    case ChildTerminated =>
      ExitExtendsLog(pr, w, w');
      ExitMovesSo(pr, w, w');
      StepKeepsInv(pr, w, ev);
      if w'.live == {} {
        LastExitMeansDry(pr, w, w', Running(pr, w).value);
      }
  }

  lemma {:induction false} PsjfNeverIdles(pr: Params, ws: seq<World>, evs: seq<Event>, k: nat)
    requires ValidParams(pr) && Increasing(pr.jobs) && pr.strategy == PSJF && NeverRunsDry(pr.jobs)
    requires IsRun(pr, ws, evs) && k <= |evs|
    ensures ws[k].live != {}
    decreases k
  {
    if k == 0 {
      WarmStartIsPsjf(pr);
    } else {
      PsjfRunKeeps(pr, ws, evs, k - 1);
      NextPsjf(pr, ws, evs, k);
    }
  }

  lemma PsjfNeverCrashes(pr: Params, ws: seq<World>, evs: seq<Event>, ev: Event)
    requires ValidParams(pr) && Increasing(pr.jobs) && pr.strategy == PSJF && NeverRunsDry(pr.jobs)
    requires IsRun(pr, ws, evs)
    ensures !CrashesAfter(pr, ws, evs, ev)
  {
    PsjfRunKeeps(pr, ws, evs, |evs|);
    PsjfNeverIdles(pr, ws, evs, |evs|);
    if CrashesAfter(pr, ws, evs, ev) {
      PsjfBusyIsSafe(pr, ws[|evs|], ev);
    }
  }

  lemma PsjfTowardsCrash(pr: Params, w: World, i: nat) returns (ev: Event)
    requires Guarded(pr) && Increasing(pr.jobs) && PidsDistinct(pr) && PsjfInv(pr, w)
    requires RunsDryAt(pr.jobs, i) && w.clock.ptr <= i
    ensures Enabled(pr, w, ev)
    ensures match Handle(pr, w, ev)
            case Crashes => true
            case Exits(w') => false
            case Continues(w') => PsjfInv(pr, w') && w'.clock.ptr <= i && 0 <= EventsLeft(pr, w') < EventsLeft(pr, w)
  {
    if w.live == {} {
      PsjfIdleCrashes(pr, w);
      ev := TimerExpired;
    } else {
      SomeEventIsEnabled(pr, w);
      ev := if Enabled(pr, w, ChildTerminated) then ChildTerminated else TimerExpired;
      LateProcessStaysOut(pr, w, ev, i);
      NextPtrIsReached(pr, w, ev);
      if Handle(pr, w, ev).Continues? {
        PsjfStep(pr, w, ev, Handle(pr, w, ev).w);
        StepUsesEvents(pr, w, ev, Handle(pr, w, ev).w);
        EventsLeftIsNatural(pr, Handle(pr, w, ev).w);
      }
    }
  }

  lemma {:induction false} PsjfCanCrash(pr: Params, w: World, i: nat)
    returns (ws: seq<World>, evs: seq<Event>, last: Event)
    requires Guarded(pr) && Increasing(pr.jobs) && PidsDistinct(pr) && PsjfInv(pr, w)
    requires RunsDryAt(pr.jobs, i) && w.clock.ptr <= i
    ensures CrashesAfter(pr, ws, evs, last) && ws[0] == w
    decreases EventsLeft(pr, w)
  {
    var next := PsjfTowardsCrash(pr, w, i);
    if Handle(pr, w, next) == Crashes {
      ws, evs, last := [w], [], next;
    } else {
      var ws', evs';
      ws', evs', last := PsjfCanCrash(pr, Handle(pr, w, next).w, i);
      PrependStep(pr, w, next, ws', evs');
      ws, evs := [w] + ws', [next] + evs';
      assert ws[|evs|] == ws'[|evs'|];
    }
  }

  /** Started with a running process and given one arrival at a time, PSJF is safe on exactly those inputs
      on which it never runs dry. */
  lemma PsjfIsSafeExactly(pr: Params)
    requires ValidParams(pr) && Increasing(pr.jobs) && pr.strategy == PSJF && PidsDistinct(pr)
    ensures NeverRunsDry(pr.jobs) <==>
            forall ws, evs, ev :: IsRun(pr, ws, evs) ==> !CrashesAfter(pr, ws, evs, ev)
  {
    if NeverRunsDry(pr.jobs) {
      forall ws, evs, ev | IsRun(pr, ws, evs) ensures !CrashesAfter(pr, ws, evs, ev) {
        PsjfNeverCrashes(pr, ws, evs, ev);
      }
    } else {
      var i :| RunsDryAt(pr.jobs, i);
      WarmStartIsPsjf(pr);
      StartsInStep(pr.jobs, false);
      GroupIsMaximal(pr.jobs, 0);
      var ws, evs, ev := PsjfCanCrash(pr, Start(pr), i);
      assert IsRun(pr, ws, evs) && CrashesAfter(pr, ws, evs, ev);
    }
  }
}
