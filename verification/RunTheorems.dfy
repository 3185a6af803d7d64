/** Safety and termination of whole runs. */
module RunTheorems {
  import opened Processes
  import opened HeapContents
  import opened Timers
  import opened Policies
  import opened IdealClock
  import opened RunInvariants
  import R = RoundRobin

  // ---------- One child at a time ----------

  /** At the top of the loop the kernel knows exactly the pids of the live processes, and if there is any
      then exactly one of them is High: the one the policy calls current. */
  lemma ExactlyOneHigh(pr: Params, ws: seq<World>, evs: seq<Event>, k: nat)
    requires Guarded(pr) && IsRun(pr, ws, evs) && k <= |evs|
    ensures forall i :: i in ws[k].live ==> i < |pr.pids|
    ensures ws[k].prio.Keys == set i | i in ws[k].live :: pr.pids[i]
    ensures ws[k].live != {} ==>
              && Current(ws[k].pol).Some? && Current(ws[k].pol).value.id in ws[k].live
              && forall i :: i in ws[k].live ==>
                   (ws[k].prio[pr.pids[i]] == High <==> i == Current(ws[k].pol).value.id)
  {
    var w := ws[k];
    RunKeepsInv(pr, ws, evs, k);
    RunningIsCurrent(pr, w);
    forall i | i in w.live
      ensures pr.pids[i] in w.prio
      ensures w.prio[pr.pids[i]] == High <==> i == Current(w.pol).value.id
    {
      var e :| e in Members(w.pol) && e.id == i;
      assert e.pid in PidsOf(Members(w.pol));
      var c := Current(w.pol).value;
      assert c in Members(w.pol) && c.id in IdsOf(Members(w.pol));
    }
    forall p | p in w.prio ensures exists i :: i in w.live && pr.pids[i] == p {
      var e :| e in Members(w.pol) && e.pid == p;
      assert e.id in w.live && pr.pids[e.id] == p;
    }
  }

  // ---------- No drift ----------

  /** The one hardware timer simulates both logical timers without drift: in every run the k-th slice has
      ended at exactly 500 (k + 1) units, the processes have been admitted once each in input order at
      exactly their arrival times, and nothing that was due has been missed. */
  lemma NoDrift(pr: Params, ws: seq<World>, evs: seq<Event>, k: nat)
    requires Guarded(pr) && IsRun(pr, ws, evs) && k <= |evs|
    ensures var w := ws[k];
            var admitted := Admissions(w.log);
            && |admitted| <= |pr.jobs|
            && (forall i :: 0 <= i < |admitted| ==> admitted[i] == (i, pr.jobs[i].arrival))
            && (forall i :: |admitted| <= i < |pr.jobs| ==> w.now <= pr.jobs[i].arrival)
            && (forall i :: 0 <= i < |admitted| ==> pr.jobs[i].arrival <= w.now)
    ensures var w := ws[k];
            var ends := SliceEnds(w.log);
            && (forall j :: 0 <= j < |ends| ==> ends[j] == 500 * (j + 1))
            && (IsRR(pr) ==> 500 * |ends| <= w.now <= 500 * (|ends| + 1))
            && (!IsRR(pr) ==> ends == [])
  {
    RunKeepsInv(pr, ws, evs, k);
    var w := ws[k];
    assert w.clock.ptr < |pr.jobs| ==> FireTime(w.clock) <= pr.jobs[w.clock.ptr].arrival;
  }

  /** An arrival event admits exactly the maximal group of processes that arrive at that moment. */
  lemma ArrivalAdmitsWholeGroup(pr: Params, w: World, w': World)
    requires Guarded(pr) && Inv(pr, w) && Steps(pr, w, TimerExpired, w') && ArrivalIsDue(pr, w)
    ensures w'.now == pr.jobs[w.clock.ptr].arrival
    ensures |Admissions(w'.log)| == w'.clock.ptr && |Admissions(w.log)| == w.clock.ptr < w'.clock.ptr
    ensures forall i :: 0 <= i < |pr.jobs| ==>
              (w.clock.ptr <= i < w'.clock.ptr <==> w.clock.ptr <= i && pr.jobs[i].arrival == w'.now)
  {
    StepKeepsInv(pr, w, TimerExpired);
    ClockStep(pr, w);
    GroupIsMaximal(pr.jobs, w.clock.ptr);
    assert pr.jobs[w.clock.ptr].arrival == FireTime(w.clock);
  }

  // ---------- Capacity ----------

  lemma {:induction false} FitBelow(s: set<Entry>, n: nat)
    requires forall e :: e in s ==> e.id < n
    requires forall e, f :: e in s && f in s && e.id == f.id ==> e == f
    ensures |s| <= n
    decreases n
  {
    if n == 0 {
      assert s == {};
    } else if e :| e in s && e.id == n - 1 {
      FitBelow(s - {e}, n - 1);
    } else {
      FitBelow(s, n - 1);
    }
  }

  lemma MembersFit(pr: Params, w: World)
    requires Core(pr, w, w.clock.ptr)
    ensures |Members(w.pol)| <= w.clock.ptr
  {
    forall e | e in Members(w.pol) ensures e.id < w.clock.ptr {
      assert e.id in IdsOf(Members(w.pol));
    }
    forall e, f | e in Members(w.pol) && f in Members(w.pol) && e.id == f.id ensures e == f {
      SameIdSameEntry(pr, w, e, f);
    }
    FitBelow(Members(w.pol), w.clock.ptr);
  }

  lemma SlotsAreMembers(pol: Policy)
    requires WellFormed(pol)
    ensures Slots(pol) <= |Members(pol)|
  {
    match pol
    case RoundRobin(ring) => SetIsAsLarge(ring.pq);
    case Sjf(s) => assert s.active.Some? ==> |Members(pol)| == |s.waiting| + 1;
    case Psjf(s) =>
  }

  /** An array of `num_process` places is large enough: at the top of the loop there is room for everyone who
      has not been admitted yet, and the arrival pointer is in bounds. */
  lemma CapacitySuffices(pr: Params, ws: seq<World>, evs: seq<Event>, k: nat)
    requires Guarded(pr) && IsRun(pr, ws, evs) && k <= |evs|
    ensures ws[k].clock.ptr <= |pr.jobs|
    ensures Slots(ws[k].pol) + (|pr.jobs| - ws[k].clock.ptr) <= |pr.jobs|
  {
    RunKeepsInv(pr, ws, evs, k);
    MembersFit(pr, ws[k]);
    SlotsAreMembers(ws[k].pol);
  }

  // ---------- Exit ----------

  /** The run ends in `w'` after its last event `ev`. */
  ghost predicate EndsIn(pr: Params, ws: seq<World>, evs: seq<Event>, ev: Event, w': World) {
    && IsRun(pr, ws, evs)
    && Shaped(pr, ws[|evs|]) && Enabled(pr, ws[|evs|], ev) && Handle(pr, ws[|evs|], ev) == Exits(w')
  }

  /** The loop exits only when every process has been admitted and has finished, exactly once each. */
  lemma ExitMeansAllDone(pr: Params, ws: seq<World>, evs: seq<Event>, ev: Event, w': World)
    requires Guarded(pr) && EndsIn(pr, ws, evs, ev, w')
    ensures |Admissions(w'.log)| == |pr.jobs| && w'.live == {}
    ensures forall i: nat :: i in Finishes(w'.log) <==> i < |pr.jobs|
    ensures forall i, j :: 0 <= i < j < |Finishes(w'.log)| ==> Finishes(w'.log)[i] != Finishes(w'.log)[j]
    ensures forall i :: 0 <= i < |w'.work| ==> w'.work[i] == 0
  {
    RunKeepsInv(pr, ws, evs, |evs|);
    StepKeepsInv(pr, ws[|evs|], ev);
  }

  // ---------- Termination ----------

  function Total(work: seq<nat>): nat {
    if work == [] then 0 else Total(work[..|work| - 1]) + work[|work| - 1]
  }

  lemma {:induction false} TotalUpdate(work: seq<nat>, i: nat, x: nat)
    requires i < |work|
    ensures Total(work[i := x]) == Total(work) - work[i] + x
    decreases |work|
  {
    var n := |work| - 1;
    if i == n {
      assert work[i := x][..n] == work[..n];
    } else {
      assert work[i := x][..n] == work[..n][i := x];
      TotalUpdate(work[..n], i, x);
    }
  }

  /** The time until the last arrival. */
  ghost function Horizon(pr: Params, w: World): int
    requires Shaped(pr, w)
  {
    if w.clock.ptr < |pr.jobs| then pr.jobs[|pr.jobs| - 1].arrival - w.now else 0
  }

  /** An upper bound on the number of events still to come. */
  ghost function EventsLeft(pr: Params, w: World): int
    requires Shaped(pr, w)
  {
    2 * (|w.live| + (|pr.jobs| - w.clock.ptr)) + Total(w.work) + Horizon(pr, w) + (|pr.jobs| - w.clock.ptr)
    + (if Ticking(w.clock) && FireTime(w.clock) == w.now then 1 else 0)
  }

  lemma EventsLeftIsNatural(pr: Params, w: World)
    requires Inv(pr, w)
    ensures 0 <= Horizon(pr, w) && 0 <= EventsLeft(pr, w)
  {
    assert w.clock.ptr < |pr.jobs| ==> FireTime(w.clock) <= pr.jobs[w.clock.ptr].arrival;
  }

  lemma ElapseUsesTime(pr: Params, w: World, t: int)
    requires Shaped(pr, w) && Matched(pr, w) && Settled(w.pol, w.prio) && w.now <= t
    requires Running(pr, w).Some? ==> t <= w.now + w.work[Running(pr, w).value]
    ensures Total(Elapse(pr, w, t).work) == Total(w.work) - (if w.live == {} then 0 else t - w.now)
    ensures w.live == {} ==> Elapse(pr, w, t).work == w.work
  {
    RunningIsCurrent(pr, w);
    if w.live != {} {
      var i := Running(pr, w).value;
      TotalUpdate(w.work, i, w.work[i] - (t - w.now));
    }
  }

  lemma OneMoreLive(live: set<nat>, i: nat)
    requires i !in live
    ensures |live + {i}| == |live| + 1
  {
  }

  lemma {:induction false} AdmitAllCounts(pr: Params, w: World, lo: nat, hi: nat)
    requires Shaped(pr, w) && lo <= hi <= |pr.jobs| && forall i :: i in w.live ==> i < lo
    ensures var r := AdmitAll(pr, w, lo, hi); r.Some? ==> |r.value.live| == |w.live| + (hi - lo)
    decreases hi - lo
  {
    if lo < hi && CanAdd(w.pol) {
      var w' := AdmitOne(pr, w, lo);
      OneMoreLive(w.live, lo);
      AdmitAllCounts(pr, w', lo + 1, hi);
    }
  }

  /** What a wake-up by the timer does to time, work and the set of live processes. */
  ghost predicate TimerMoves(pr: Params, w: World, w': World) {
    && Shaped(pr, w) && Shaped(pr, w') && w.now <= w'.now && (IsRR(pr) || w.clock.ptr < |pr.jobs|)
    && w'.now == FireTime(w.clock) && w'.clock == AfterTimer(pr.jobs, IsRR(pr), w.clock)
    && Total(w'.work) == Total(w.work) - (if w.live == {} then 0 else w'.now - w.now)
    && (w.live == {} ==> w'.work == w.work)
    && |w'.live| - |w.live| == w'.clock.ptr - w.clock.ptr
    && (w.clock.ptr == w'.clock.ptr ==> w'.live == w.live && IsRR(pr))
  }

  /** What the exit of the running child `i` does. */
  ghost predicate ExitMoves(pr: Params, w: World, w': World, i: nat) {
    && Shaped(pr, w) && Shaped(pr, w') && i in w.live
    && w'.now == w.now + w.work[i] && w'.clock == w.clock && w'.live == w.live - {i} && w'.work == w.work[i := 0]
  }

  lemma TimerPassesTime(pr: Params, w: World, w': World)
    requires Steps(pr, w, TimerExpired, w')
    ensures Shaped(pr, w') && w'.now == FireTime(w.clock) && w'.work == Elapse(pr, w, FireTime(w.clock)).work
    ensures w'.clock == AfterTimer(pr.jobs, IsRR(pr), w.clock)
    ensures !ArrivalIsDue(pr, w) ==> w'.live == w.live && IsRR(pr) && w'.clock.ptr == w.clock.ptr
  {
  }

  lemma TimerAdmits(pr: Params, w: World, w': World)
    requires Inv(pr, w) && Steps(pr, w, TimerExpired, w') && ArrivalIsDue(pr, w)
    ensures |w'.live| - |w.live| == w'.clock.ptr - w.clock.ptr > 0
  {
    var e := Elapse(pr, w, FireTime(w.clock)).(clock := AfterTimer(pr.jobs, IsRR(pr), w.clock));
    AdmitAllCounts(pr, e, w.clock.ptr, GroupEnd(pr.jobs, w.clock.ptr));
  }

  lemma TimerMovesSo(pr: Params, w: World, w': World)
    requires Guarded(pr) && Inv(pr, w) && Steps(pr, w, TimerExpired, w')
    ensures TimerMoves(pr, w, w')
  {
    TimerPassesTime(pr, w, w');
    ElapseUsesTime(pr, w, FireTime(w.clock));
    if ArrivalIsDue(pr, w) {
      TimerAdmits(pr, w, w');
    }
  }

  lemma ExitMovesSo(pr: Params, w: World, w': World)
    requires Guarded(pr) && Inv(pr, w) && Steps(pr, w, ChildTerminated, w')
    ensures Running(pr, w).Some? && ExitMoves(pr, w, w', Running(pr, w).value)
  {
    RunningIsCurrent(pr, w);
  }

  lemma TimerUsesEvents(pr: Params, w: World, w': World)
    requires Inv(pr, w) && Inv(pr, w') && TimerMoves(pr, w, w')
    ensures EventsLeft(pr, w') < EventsLeft(pr, w)
  {
    assert !(Ticking(w'.clock) && FireTime(w'.clock) == w'.now);
    EventsLeftIsNatural(pr, w);
    EventsLeftIsNatural(pr, w');
    assert w.clock.ptr <= w'.clock.ptr;
  }

  lemma ExitUsesEvents(pr: Params, w: World, w': World, i: nat)
    requires Inv(pr, w) && Inv(pr, w') && ExitMoves(pr, w, w', i)
    ensures EventsLeft(pr, w') < EventsLeft(pr, w)
  {
    TotalUpdate(w.work, i, 0);
  }

  lemma StepUsesEvents(pr: Params, w: World, ev: Event, w': World)
    requires Guarded(pr) && Inv(pr, w) && Steps(pr, w, ev, w')
    ensures Shaped(pr, w') && EventsLeft(pr, w') < EventsLeft(pr, w)
  {
    StepKeepsInv(pr, w, ev);
    match ev
    case ChildTerminated =>
      ExitMovesSo(pr, w, w');
      ExitUsesEvents(pr, w, w', Running(pr, w).value);
    case TimerExpired =>
      TimerMovesSo(pr, w, w');
      TimerUsesEvents(pr, w, w');
  }

  lemma {:induction false} RunUsesEvents(pr: Params, ws: seq<World>, evs: seq<Event>, k: nat)
    requires Guarded(pr) && IsRun(pr, ws, evs) && k <= |evs|
    ensures Shaped(pr, ws[k]) && Shaped(pr, ws[0])
    ensures k + EventsLeft(pr, ws[k]) <= EventsLeft(pr, ws[0])
    decreases k
  {
    RunKeepsInv(pr, ws, evs, k);
    if 0 < k {
      RunUsesEvents(pr, ws, evs, k - 1);
      RunStepUsesEvents(pr, ws, evs, k - 1);
    }
  }

  lemma RunStepUsesEvents(pr: Params, ws: seq<World>, evs: seq<Event>, k: nat)
    requires Guarded(pr) && IsRun(pr, ws, evs) && k < |evs|
    ensures Shaped(pr, ws[k]) && Shaped(pr, ws[k + 1])
    ensures EventsLeft(pr, ws[k + 1]) < EventsLeft(pr, ws[k])
  {
    RunKeepsInv(pr, ws, evs, k);
    StepAt(pr, ws, evs, k);
    StepUsesEvents(pr, ws[k], evs[k], ws[k + 1]);
  }

  /** Every run of every policy is short: at most three events per process, plus one per unit of work and
      of time until the last arrival. */
  lemma RunsAreBounded(pr: Params, ws: seq<World>, evs: seq<Event>)
    requires Guarded(pr) && IsRun(pr, ws, evs)
    ensures |evs| <= 3 * |pr.jobs| + Total(Needed(pr.jobs)) + pr.jobs[|pr.jobs| - 1].arrival + 1
  {
    RunUsesEvents(pr, ws, evs, |evs|);
    RunKeepsInv(pr, ws, evs, |evs|);
    EventsLeftIsNatural(pr, ws[|evs|]);
  }

  // ---------- Progress ----------

  lemma ForksAreFresh(pr: Params, w: World)
    requires Inv(pr, w) && PidsDistinct(pr)
    ensures FreshPids(pr, w)
  {
    forall e | e in Members(w.pol) ensures e.id < w.clock.ptr {
      assert e.id in IdsOf(Members(w.pol));
    }
  }

  /** The loop never sleeps forever: some event is always possible. */
  lemma SomeEventIsEnabled(pr: Params, w: World)
    requires Guarded(pr) && Inv(pr, w) && PidsDistinct(pr)
    ensures Enabled(pr, w, TimerExpired) || Enabled(pr, w, ChildTerminated)
  {
    ForksAreFresh(pr, w);
    RunningIsCurrent(pr, w);
  }

  lemma RingFinishes(pr: Params, w: World)
    requires w.pol.RoundRobin?
    ensures Finish(pr, w) != Crashes
  {
  }

  /** Round robin has no way to fail, so with the bound above every run goes on until the loop exits. */
  lemma RoundRobinNeverCrashes(pr: Params, w: World, ev: Event)
    requires Guarded(pr) && Inv(pr, w) && pr.strategy == RR && Enabled(pr, w, ev)
    ensures Handle(pr, w, ev) != Crashes
  {
    if ev == ChildTerminated {
      var e := Elapse(pr, w, w.now + w.work[Running(pr, w).value]);
      RunningIsCurrent(pr, w);
      RingFinishes(pr, AfterExit(pr, e, Running(pr, w).value));
    } else {
      var e := Elapse(pr, w, FireTime(w.clock)).(clock := AfterTimer(pr.jobs, true, w.clock));
      if ArrivalIsDue(pr, w) {
        RingAdmitsAll(pr, e, w.clock.ptr, GroupEnd(pr.jobs, w.clock.ptr));
        RingFinishes(pr, AdmitAll(pr, e, w.clock.ptr, GroupEnd(pr.jobs, w.clock.ptr)).value);
      } else {
        RingFinishes(pr, AfterSliceEnd(e));
      }
    }
  }

  lemma {:induction false} RingAdmitsAll(pr: Params, w: World, lo: nat, hi: nat)
    requires Shaped(pr, w) && lo <= hi <= |pr.jobs| && w.pol.RoundRobin?
    ensures AdmitAll(pr, w, lo, hi).Some? && AdmitAll(pr, w, lo, hi).value.pol.RoundRobin?
    decreases hi - lo
  {
    if lo < hi {
      RingAdmitsAll(pr, AdmitOne(pr, w, lo), lo + 1, hi);
    }
  }

  lemma PrependStep(pr: Params, w: World, ev: Event, ws: seq<World>, evs: seq<Event>)
    requires IsPath(pr, ws, evs) && Steps(pr, w, ev, ws[0])
    ensures IsPath(pr, [w] + ws, [ev] + evs)
  {
    var ws', evs' := [w] + ws, [ev] + evs;
    forall k | 0 <= k < |evs'| ensures Steps(pr, ws'[k], evs'[k], ws'[k + 1]) {
      if 0 < k {
        assert Steps(pr, ws[k - 1], evs[k - 1], ws[k - 1 + 1]);
      }
    }
  }

  lemma RoundRobinStep(pr: Params, w: World) returns (ev: Event)
    requires Guarded(pr) && Inv(pr, w) && pr.strategy == RR && PidsDistinct(pr)
    ensures Enabled(pr, w, ev)
    ensures match Handle(pr, w, ev)
            case Crashes => false
            case Exits(w') => true
            case Continues(w') => Inv(pr, w') && 0 <= EventsLeft(pr, w') < EventsLeft(pr, w)
  {
    SomeEventIsEnabled(pr, w);
    ev := if Enabled(pr, w, TimerExpired) then TimerExpired else ChildTerminated;
    RoundRobinNeverCrashes(pr, w, ev);
    StepKeepsInv(pr, w, ev);
    if Handle(pr, w, ev).Continues? {
      StepUsesEvents(pr, w, ev, Handle(pr, w, ev).w);
      EventsLeftIsNatural(pr, Handle(pr, w, ev).w);
    }
  }

  /** From every reachable round-robin world the loop can go on to its exit. */
  lemma {:induction false} RoundRobinReachesExit(pr: Params, w: World)
    returns (ws: seq<World>, evs: seq<Event>, last: Event)
    requires Guarded(pr) && Inv(pr, w) && pr.strategy == RR && PidsDistinct(pr)
    ensures IsPath(pr, ws, evs) && ws[0] == w && Inv(pr, ws[|evs|])
    ensures Enabled(pr, ws[|evs|], last) && Handle(pr, ws[|evs|], last).Exits?
    decreases EventsLeft(pr, w)
  {
    var next := RoundRobinStep(pr, w);
    if Handle(pr, w, next).Exits? {
      ws, evs, last := [w], [], next;
    } else {
      var ws', evs';
      ws', evs', last := RoundRobinReachesExit(pr, Handle(pr, w, next).w);
      PrependStep(pr, w, next, ws', evs');
      ws, evs := [w] + ws', [next] + evs';
      assert ws[|evs|] == ws'[|evs'|];
    }
  }
}
