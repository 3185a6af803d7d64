/** main.c's event loop over the actual schedulers, kernel, timer and arrival queue, for every strategy.  Every
    wake-up handler is proved to take the world of module IdealClock to the next one. */
module EventLoop {
  import opened Processes
  import opened HeapContents
  import T = Timespecs
  import opened Timers
  import opened EventTimer
  import opened Policies
  import opened IdealClock
  import opened RunInvariants
  import opened RunTheorems
  import opened SimultaneousArrivals
  import opened Dispatch
  import R = RoundRobin
  import S = ShortestJob
  import P = PreemptiveShortestJob

  class SchedulerLoop {
    const queue: ArrivalQueue
    const timer: TimerInfo
    const policy: Dispatcher

    constructor (queue: ArrivalQueue, timer: TimerInfo, policy: Dispatcher)
      ensures this.queue == queue && this.timer == timer && this.policy == policy
    {
      this.queue, this.timer, this.policy := queue, timer, policy;
    }

    /** All the memory the program works on. */
    ghost function Memory(): set<object> {
      {queue, timer, policy.kernel} + policy.Objects() + (set p | p in queue.processes)
    }

    /** The records are those of the input. */
    ghost predicate InputIs(pr: Params) {
      && |queue.processes| == |pr.jobs| == |pr.pids| && queue.Jobs() == pr.jobs
      && (forall i :: 0 <= i < |queue.processes| ==> queue.processes[i].id == i)
    }

    /** Only records that have been handed over are held. */
    ghost predicate HandedOver(held: set<ProcessInfo?>, admitted: nat) {
      forall p :: p in held && p != null ==> p.id < admitted && p.id < |queue.processes| && queue.processes[p.id] == p
    }

    /** The other records are as they were read. */
    ghost predicate Untouched(admitted: nat)
      reads queue.processes
    {
      forall i :: admitted <= i < |queue.processes| ==>
        queue.processes[i].remainingTime == queue.processes[i].timeNeeded
    }

    /** The policy holds only records that have been handed over, and has room for the others. */
    ghost predicate RecordsOk(pr: Params, admitted: nat)
      reads policy.Objects(), queue.processes
    {
      && InputIs(pr) && admitted <= |pr.jobs| && HandedOver(policy.Held(), admitted) && Untouched(admitted)
      && |pr.jobs| - admitted <= policy.Room()
    }

    ghost predicate PolicyIs(pr: Params, pol: Policy, prio: map<int, Priority>, admitted: nat)
      reads policy.kernel, policy.Objects(), policy.Held(), queue.processes
    {
      && policy.Valid() && policy.State() == pol && policy.strategy == pr.strategy && policy.kernel.prio == prio
      && RecordsOk(pr, admitted)
    }

    ghost predicate TimerIs(pr: Params, c: Clock)
      reads timer
    {
      timer.Valid() && timer.clock == c && timer.rr == IsRR(pr)
    }

    ghost predicate ClockIs(pr: Params, c: Clock)
      reads queue, timer
    {
      TimerIs(pr, c) && queue.arrivalPtr == c.ptr
    }

    /** The program is in the state of `w`. */
    ghost predicate Represents(pr: Params, w: World)
      reads queue, timer, policy.kernel, policy.Objects(), policy.Held(), queue.processes
    {
      PolicyIs(pr, w.pol, w.prio, w.clock.ptr) && ClockIs(pr, w.clock)
    }

    /** The schedulers share no memory with the timer and the arrival queue. */
    lemma Apart()
      ensures timer !in policy.Objects() && queue !in policy.Objects() && policy.kernel !in policy.Objects()
    {
    }

    lemma HandOver(pr: Params, held: set<ProcessInfo?>, held': set<ProcessInfo?>, i: nat)
      requires InputIs(pr) && i < |queue.processes| && HandedOver(held, i) && held' <= held + {queue.processes[i]}
      ensures queue.processes[i] !in held && HandedOver(held', i + 1)
    {
    }

    lemma NotHeld(pr: Params, held: set<ProcessInfo?>, i: nat)
      requires InputIs(pr) && HandedOver(held, i)
      ensures forall j :: i <= j < |queue.processes| ==> queue.processes[j] !in held
    {
    }

    /** `add_process` for record `i` touches only that record and those handed over before. */
    method AddUntouched(ghost pr: Params, ghost held: set<ProcessInfo?>, i: nat, pid: int)
      requires policy.Valid() && InputIs(pr) && i < |queue.processes| && CanAdd(policy.State()) && 0 < policy.Room()
      requires held == policy.Held() && HandedOver(held, i) && Untouched(i)
      requires pid !in policy.kernel.prio && pid !in PidsOf(Members(policy.State()))
      requires policy.strategy == PSJF ==> policy.psjf.lastContextSwitchTime <= queue.processes[i].arrivalTime
      modifies policy.kernel, policy.Objects(), queue.processes
      ensures policy.Valid() && policy.Room() == old(policy.Room()) - 1
      ensures policy.Held() <= held + {queue.processes[i]} && Untouched(i + 1)
      ensures policy.State() == Add(old(policy.State()), Entry(i, queue.processes[i].timeNeeded, pid),
                                    queue.processes[i].arrivalTime)
      ensures policy.kernel.prio == Suspended(old(policy.kernel.prio)[pid := High], pid)
    {
      policy.ActiveIsHeld();
      NotHeld(pr, held, i);
      policy.AddProcess(queue.processes[i], pid);
    }

    method AddRecord(ghost pr: Params, i: nat, pid: int)
      requires policy.Valid() && RecordsOk(pr, i) && i < |queue.processes| && CanAdd(policy.State())
      requires pid !in policy.kernel.prio && pid !in PidsOf(Members(policy.State()))
      requires policy.strategy == PSJF ==> policy.psjf.lastContextSwitchTime <= queue.processes[i].arrivalTime
      modifies policy.kernel, policy.Objects(), queue.processes
      ensures policy.Valid() && RecordsOk(pr, i + 1)
      ensures policy.State() == Add(old(policy.State()), Entry(i, queue.processes[i].timeNeeded, pid),
                                    queue.processes[i].arrivalTime)
      ensures policy.kernel.prio == Suspended(old(policy.kernel.prio)[pid := High], pid)
    {
      ghost var held := policy.Held();
      AddUntouched(pr, held, i, pid);
      HandOver(pr, held, policy.Held(), i);
    }

    /** The next process of a plan is added. */
    method AddProcess(ghost pr: Params, ghost now: View, i: nat, ghost next: View, pid: int)
      requires PolicyIs(pr, now.pol, now.prio, i) && i < |pr.jobs| == |pr.pids| && pid == pr.pids[i]
      requires Admits(pr, now, i, next)
      modifies policy.kernel, policy.Objects(), queue.processes
      ensures PolicyIs(pr, next.pol, next.prio, i + 1) && queue.arrivalPtr == old(queue.arrivalPtr)
    {
      Apart();
      assert queue.Jobs()[i] == pr.jobs[i];
      AddRecord(pr, i, pid);
    }

    method BeginUntouched(ghost pr: Params, pid: int)
      requires policy.Valid() && InputIs(pr) && Untouched(0) && HandedOver(policy.Held(), 0) && queue.processes != []
      requires policy.strategy == PSJF && policy.State() == EmptyPolicy(PSJF) && 0 < policy.Room()
      requires pid !in policy.kernel.prio
      modifies policy.kernel, policy.Objects(), queue.processes
      ensures policy.Valid() && policy.kernel.prio == old(policy.kernel.prio)[pid := High]
      ensures var e, t := Entry(0, queue.processes[0].timeNeeded, pid), queue.processes[0].arrivalTime;
              policy.State() == Psjf(P.PsjfState({e}, Some(e), t, t))
      ensures policy.Room() == old(policy.Room()) - 1 && policy.Held() <= {queue.processes[0]} && Untouched(1)
    {
      HandOver(pr, policy.Held(), policy.Held(), 0);
      policy.Begin(queue.processes[0], pid);
    }

    /** What the first PSJF process looks like once it runs. */
    ghost function FirstView(pr: Params): View
      requires |pr.jobs| == |pr.pids| && pr.jobs != []
    {
      var e, t := Entry(0, pr.jobs[0].needed, pr.pids[0]), pr.jobs[0].arrival;
      View(Psjf(P.PsjfState({e}, Some(e), t, t)), map[pr.pids[0] := High])
    }

    /** Forks record 0 and makes it PSJF's running process. */
    method BeginFirst(ghost pr: Params, pid: int)
      requires |pr.jobs| == |pr.pids| && pr.jobs != [] && pid == pr.pids[0] && pr.strategy == PSJF
      requires PolicyIs(pr, EmptyPolicy(PSJF), map[], 0)
      modifies policy.kernel, policy.Objects(), queue.processes
      ensures PolicyIs(pr, FirstView(pr).pol, FirstView(pr).prio, 1) && queue.arrivalPtr == old(queue.arrivalPtr)
    {
      Apart();
      assert queue.Jobs()[0] == pr.jobs[0];
      BeginUntouched(pr, pid);
      HandOver(pr, {}, policy.Held(), 0);
    }

    ghost predicate AtView(pr: Params, v: View, i: nat, hi: nat)
      reads queue, policy.kernel, policy.Objects(), policy.Held(), queue.processes
    {
      queue.arrivalPtr == i <= hi <= |pr.jobs| && PolicyIs(pr, v.pol, v.prio, i)
    }

    /** `get_arrived_process` */
    method NextArrived(ghost pr: Params, ghost now: View, ghost i: nat, ghost hi: nat) returns (k: nat)
      requires AtView(pr, now, i, hi) && i < hi
      modifies queue
      ensures k == i && queue.arrivalPtr == i + 1 && PolicyIs(pr, now.pol, now.prio, i)
    {
      Apart();
      k := queue.arrivalPtr;
      var _ := queue.GetArrivedProcess();
      assert policy.Held() == old(policy.Held());
      assert policy.Valid() && policy.State() == old(policy.State());
    }

    /** `add_process(get_arrived_process())` */
    method AdmitNext(ghost pr: Params, ghost now: View, ghost next: View, ghost i: nat, ghost hi: nat, pids: seq<int>)
      requires AtView(pr, now, i, hi) && i < hi && |pr.jobs| == |pr.pids| && pids == pr.pids && Admits(pr, now, i, next)
      modifies queue, policy.kernel, policy.Objects(), queue.processes
      ensures AtView(pr, next, i + 1, hi)
    {
      var k := NextArrived(pr, now, i, hi);
      AddProcess(pr, now, k, next, pids[k]);
    }

    /** One more process of the plan. */
    method AdmitStep(ghost pr: Params, ghost plan: seq<View>, ghost lo: nat, ghost hi: nat, ghost k: nat,
                     pids: seq<int>)
      requires |pr.jobs| == |pr.pids| && pids == pr.pids && IsPlan(pr, plan, lo, hi) && lo + k < hi
      requires AtView(pr, plan[k], lo + k, hi)
      modifies queue, policy.kernel, policy.Objects(), queue.processes
      ensures AtView(pr, plan[k + 1], lo + (k + 1), hi)
    {
      PlanAt(pr, plan, lo, hi, k, plan[k], lo + k, plan[k + 1]);
      AdmitNext(pr, plan[k], plan[k + 1], lo + k, hi, pids);
    }

    /** The condition of the inner loop */
    predicate ArrivesNow()
      requires queue.arrivalPtr <= |queue.processes|
      reads queue
    {
      !queue.Empty() && queue.TimeunitsUntilNextArrival() == 0
    }

    /** One turn of the inner loop: the next process arrives now, so it belongs to the group. */
    method AdmitAnother(ghost pr: Params, ghost plan: seq<View>, ghost lo: nat, ghost hi: nat, ghost k: nat,
                        pids: seq<int>)
      requires |pr.jobs| == |pr.pids| && pids == pr.pids && IsPlan(pr, plan, lo, hi) && IsGroup(pr.jobs, lo, hi)
      requires 0 < k <= hi - lo && AtView(pr, plan[k], lo + k, hi)
      requires ArrivesNow()
      modifies queue, policy.kernel, policy.Objects(), queue.processes
      ensures k < hi - lo && AtView(pr, plan[k + 1], lo + (k + 1), hi)
    {
      StillInGroup(pr.jobs, lo, hi, lo + k);
      AdmitStep(pr, plan, lo, hi, k, pids);
    }

    /** The inner loop, which goes on as long as the next process arrives now: that is, to the end of the
        group. */
    method AdmitOthers(ghost pr: Params, ghost plan: seq<View>, ghost lo: nat, ghost hi: nat, pids: seq<int>)
      requires |pr.jobs| == |pr.pids| && pids == pr.pids && IsPlan(pr, plan, lo, hi) && IsGroup(pr.jobs, lo, hi)
      requires AtView(pr, plan[1], lo + 1, hi)
      modifies queue, policy.kernel, policy.Objects(), queue.processes
      ensures AtView(pr, plan[hi - lo], hi, hi)
    {
      ghost var k := 1;
      while ArrivesNow()
        invariant 0 < k <= hi - lo && AtView(pr, plan[k], lo + k, hi)
        decreases hi - lo - k
      {
        AdmitAnother(pr, plan, lo, hi, k, pids);
        k := k + 1;
      }
      AllAdmitted(pr, plan[k], lo, hi, lo + k);
    }

    lemma AllAdmitted(pr: Params, v: View, lo: nat, hi: nat, i: nat)
      requires IsGroup(pr.jobs, lo, hi) && lo < i <= hi && AtView(pr, v, i, hi)
      requires !ArrivesNow()
      ensures i == hi
    {
      GroupIsOver(pr.jobs, lo, hi, i);
    }

    /** The handling of an arrival event up to the timer update: the group `lo..hi` is admitted, view by view.
        `units` is `arrival_time`, which stays zero when the queue has run dry. */
    method AdmitGroup(ghost pr: Params, ghost plan: seq<View>, ghost lo: nat, ghost hi: nat, pids: seq<int>)
      returns (units: int)
      requires |pr.jobs| == |pr.pids| && pids == pr.pids && IsPlan(pr, plan, lo, hi) && IsGroup(pr.jobs, lo, hi)
      requires AtView(pr, plan[0], lo, hi)
      modifies queue, policy.kernel, policy.Objects(), queue.processes
      ensures AtView(pr, plan[hi - lo], hi, hi) && units == NextGap(pr.jobs, hi)
    {
      AdmitStep(pr, plan, lo, hi, 0, pids);
      AdmitOthers(pr, plan, lo, hi, pids);
      units := if queue.Empty() then 0 else queue.TimeunitsUntilNextArrival();
    }

    /** `context_switch` */
    method SwitchPolicy(ghost pr: Params, ghost pol: Policy, ghost prio: map<int, Priority>, ghost admitted: nat)
      requires PolicyIs(pr, pol, prio, admitted) && CanSwitch(pol) && PidsOf(Members(pol)) <= prio.Keys
      modifies policy.kernel, policy.Objects()
      ensures PolicyIs(pr, Switch(pol), SwitchPriorities(pol, prio), admitted)
    {
      policy.ContextSwitch();
    }

    method SwitchAt(ghost pr: Params, ghost w: World, ghost w': World)
      requires Represents(pr, w) && CanSwitch(w.pol) && PidsOf(Members(w.pol)) <= w.prio.Keys
      requires w' == w.(pol := Switch(w.pol), prio := SwitchPriorities(w.pol, w.prio))
      modifies policy.kernel, policy.Objects()
      ensures Represents(pr, w')
    {
      Apart();
      SwitchPolicy(pr, w.pol, w.prio, w.clock.ptr);
    }

    /** `arrival_queue_empty() && scheduler_empty()` */
    method NothingLeft(ghost pr: Params, ghost w: World) returns (nothing: bool)
      requires Represents(pr, w)
      ensures nothing <==> w.clock.ptr == |pr.jobs| && Empty(w.pol)
    {
      var empty := policy.SchedulerEmpty();
      nothing := queue.Empty() && empty;
    }

    /** The end of the loop body: exit, or a context switch. */
    method EndOfBody(ghost pr: Params, ghost w: World) returns (goOn: bool)
      requires Represents(pr, w) && Finish(pr, w) != Crashes && PidsOf(Members(w.pol)) <= w.prio.Keys
      modifies policy.kernel, policy.Objects()
      ensures Represents(pr, Finish(pr, w).w)
      ensures goOn <==> Finish(pr, w).Continues?
    {
      var nothing := NothingLeft(pr, w);
      if nothing {
        return false;
      }
      SwitchAt(pr, w, Finish(pr, w).w);
      return true;
    }

    /** `timeslice_over` */
    method SliceRing(ghost pr: Params, ghost pol: Policy, ghost prio: map<int, Priority>, ghost admitted: nat)
      requires PolicyIs(pr, pol, prio, admitted) && pol.RoundRobin?
      modifies policy.Objects()
      ensures PolicyIs(pr, RoundRobin(R.SliceOver(pol.ring)), prio, admitted)
    {
      policy.TimesliceOver();
    }

    /** `update_timeslice_remaining` and `set_timer` after a slice. */
    method RearmAfterSlice(ghost pr: Params, ghost passed: Clock, ghost now: int)
      requires ClockIs(pr, passed) && IsRR(pr) && !passed.raised
      modifies timer
      ensures ClockIs(pr, Armed(AfterSlice(passed), |queue.processes|, IsRR(pr), now))
    {
      timer.UpdateTimesliceRemaining();
      timer.SetTimer(queue, now);
    }

    /** Setting the timer does not disturb the scheduler. */
    method RearmSliceWithState(ghost pr: Params, ghost passed: Clock, ghost now: int)
      requires policy.Valid() && ClockIs(pr, passed) && IsRR(pr) && !passed.raised
      modifies timer
      ensures policy.Valid() && policy.State() == old(policy.State()) && policy.Held() == old(policy.Held())
      ensures policy.Room() == old(policy.Room())
      ensures ClockIs(pr, Armed(AfterSlice(passed), |queue.processes|, IsRR(pr), now))
    {
      Apart();
      RearmAfterSlice(pr, passed, now);
    }

    method RearmSliceWithPolicy(ghost pr: Params, ghost passed: Clock, ghost v: View, ghost now: int)
      requires PolicyIs(pr, v.pol, v.prio, passed.ptr) && ClockIs(pr, passed) && IsRR(pr) && !passed.raised
      modifies timer
      ensures PolicyIs(pr, v.pol, v.prio, passed.ptr)
      ensures ClockIs(pr, Armed(AfterSlice(passed), |queue.processes|, IsRR(pr), now))
    {
      RearmSliceWithState(pr, passed, now);
    }

    /** `timeslice_over` does not disturb the timer. */
    method SliceWithTimer(ghost pr: Params, ghost c: Clock, ghost pol: Policy, ghost prio: map<int, Priority>)
      requires PolicyIs(pr, pol, prio, c.ptr) && pol.RoundRobin? && ClockIs(pr, c)
      modifies policy.Objects()
      ensures PolicyIs(pr, RoundRobin(R.SliceOver(pol.ring)), prio, c.ptr) && ClockIs(pr, c)
    {
      Apart();
      SliceRing(pr, pol, prio, c.ptr);
    }

    /** The TIMESLICE_OVER branch, with the timer update and `set_timer`. */
    method ServeSlice(ghost pr: Params, ghost passed: Clock, ghost v: View, ghost now: int)
      requires PolicyIs(pr, v.pol, v.prio, passed.ptr) && v.pol.RoundRobin? && IsRR(pr)
      requires ClockIs(pr, passed) && !passed.raised
      modifies timer, policy.Objects()
      ensures PolicyIs(pr, RoundRobin(R.SliceOver(v.pol.ring)), v.prio, passed.ptr)
      ensures ClockIs(pr, Armed(AfterSlice(passed), |queue.processes|, IsRR(pr), now))
    {
      SliceWithTimer(pr, passed, v.pol, v.prio);
      RearmSliceWithPolicy(pr, passed, View(RoundRobin(R.SliceOver(v.pol.ring)), v.prio), now);
    }

    /** `update_arrival_remaining` and `set_timer` after an arrival. */
    method RearmAfterArrival(ghost pr: Params, ghost passed: Clock, ghost hi: nat, units: int, ghost now: int)
      requires TimerIs(pr, passed) && !passed.raised && queue.arrivalPtr == hi && 0 <= units
      modifies timer
      ensures ClockIs(pr, Armed(passed.(arr := units, ptr := hi), |queue.processes|, IsRR(pr), now))
    {
      timer.UpdateArrivalRemaining(units, hi);
      timer.SetTimer(queue, now);
    }

    method RearmWithState(ghost pr: Params, ghost passed: Clock, ghost hi: nat, units: int, ghost now: int)
      requires policy.Valid() && TimerIs(pr, passed) && !passed.raised && queue.arrivalPtr == hi && 0 <= units
      modifies timer
      ensures policy.Valid() && policy.State() == old(policy.State()) && policy.Held() == old(policy.Held())
      ensures policy.Room() == old(policy.Room())
      ensures ClockIs(pr, Armed(passed.(arr := units, ptr := hi), |queue.processes|, IsRR(pr), now))
    {
      Apart();
      RearmAfterArrival(pr, passed, hi, units, now);
    }

    method RearmAtView(ghost pr: Params, ghost passed: Clock, ghost hi: nat, ghost v: View, units: int, ghost now: int)
      requires AtView(pr, v, hi, hi) && TimerIs(pr, passed) && !passed.raised && 0 <= units
      modifies timer
      ensures AtView(pr, v, hi, hi)
      ensures ClockIs(pr, Armed(passed.(arr := units, ptr := hi), |queue.processes|, IsRR(pr), now))
    {
      RearmWithState(pr, passed, hi, units, now);
    }

    /** Admitting a group does not disturb the timer. */
    method AdmitWithTimer(ghost pr: Params, ghost c: Clock, ghost plan: seq<View>, ghost lo: nat, ghost hi: nat,
                          ghost v: View, pids: seq<int>)
      returns (units: int)
      requires |pr.jobs| == |pr.pids| && pids == pr.pids && IsPlan(pr, plan, lo, hi) && IsGroup(pr.jobs, lo, hi)
      requires AtView(pr, plan[0], lo, hi) && v == plan[hi - lo] && TimerIs(pr, c)
      modifies queue, policy.kernel, policy.Objects(), queue.processes
      ensures AtView(pr, v, hi, hi) && units == NextGap(pr.jobs, hi) && TimerIs(pr, c)
    {
      Apart();
      units := AdmitGroup(pr, plan, lo, hi, pids);
    }

    /** The first process arrives and runs; `units` is the gap to the next one. */
    method TakeFirst(ghost pr: Params, ghost n: nat, pids: seq<int>) returns (units: int)
      requires |pr.jobs| == |pr.pids| == n && pr.jobs != [] && pids == pr.pids && pr.strategy == PSJF
      requires AtView(pr, View(EmptyPolicy(PSJF), map[]), 0, n)
      modifies queue, policy.kernel, policy.Objects(), queue.processes
      ensures AtView(pr, FirstView(pr), 1, n) && units == NextGap(pr.jobs, 1)
    {
      var _ := NextArrived(pr, View(EmptyPolicy(PSJF), map[]), 0, n);
      BeginFirst(pr, pids[0]);
      units := if queue.Empty() then 0 else queue.TimeunitsUntilNextArrival();
    }

    method TakeFirstWithTimer(ghost pr: Params, ghost c: Clock, ghost n: nat, pids: seq<int>) returns (units: int)
      requires |pr.jobs| == |pr.pids| == n && pr.jobs != [] && pids == pr.pids && pr.strategy == PSJF
      requires AtView(pr, View(EmptyPolicy(PSJF), map[]), 0, n) && TimerIs(pr, c)
      modifies queue, policy.kernel, policy.Objects(), queue.processes
      ensures AtView(pr, FirstView(pr), 1, n) && units == NextGap(pr.jobs, 1) && TimerIs(pr, c)
    {
      Apart();
      units := TakeFirst(pr, n, pids);
    }

    /** PSJF cannot admit its first process; this puts the program into the state in which that process runs. */
    method TakeOver(ghost pr: Params, pids: seq<int>)
      requires Guarded(pr) && pr.strategy == PSJF && pids == pr.pids && Represents(pr, Initial(pr))
      modifies Memory()
      ensures Represents(pr, WarmPsjf(pr))
    {
      MemoryHolds();
      ghost var c := InitialClock(pr.jobs, false);
      WarmClock(pr.jobs);
      var units := TakeFirstWithTimer(pr, c, |pr.jobs|, pids);
      AlarmAtView(pr, c, FirstView(pr), 1, |pr.jobs|);
      RearmFirst(pr, c, units);
    }

    /** The alarm is delivered, which disturbs nothing else. */
    method AlarmWithState(ghost pr: Params, ghost c: Clock)
      requires policy.Valid() && TimerIs(pr, c)
      modifies timer
      ensures policy.Valid() && policy.State() == old(policy.State()) && policy.Held() == old(policy.Held())
      ensures policy.Room() == old(policy.Room()) && TimerIs(pr, Delivered(c))
    {
      Apart();
      timer.TakeAlarm();
    }

    method AlarmAtView(ghost pr: Params, ghost c: Clock, ghost v: View, ghost i: nat, ghost hi: nat)
      requires AtView(pr, v, i, hi) && TimerIs(pr, c)
      modifies timer
      ensures AtView(pr, v, i, hi) && TimerIs(pr, Delivered(c))
    {
      AlarmWithState(pr, c);
    }

    method RearmFirst(ghost pr: Params, ghost c: Clock, units: int)
      requires Guarded(pr) && pr.strategy == PSJF && AtView(pr, FirstView(pr), 1, |pr.jobs|)
      requires TimerIs(pr, Delivered(c)) && c == InitialClock(pr.jobs, false) && units == NextGap(pr.jobs, 1) >= 0
      modifies timer
      ensures Represents(pr, WarmPsjf(pr))
    {
      WarmClock(pr.jobs);
      RearmWithState(pr, Delivered(c), 1, units, FireTime(c));
    }

    /** The PROCESS_ARRIVAL branch, with the timer update and `set_timer`; the group is `lo..hi` and `v` is the last
        view of the plan. */
    method ServeArrival(ghost pr: Params, ghost passed: Clock, ghost plan: seq<View>, ghost lo: nat, ghost hi: nat,
                        ghost v: View, pids: seq<int>, ghost now: int)
      requires |pr.jobs| == |pr.pids| && pids == pr.pids && IsPlan(pr, plan, lo, hi) && IsGroup(pr.jobs, lo, hi)
      requires AtView(pr, plan[0], lo, hi) && v == plan[hi - lo] && 0 <= NextGap(pr.jobs, hi)
      requires TimerIs(pr, passed) && !passed.raised
      modifies queue, timer, policy.kernel, policy.Objects(), queue.processes
      ensures AtView(pr, v, hi, hi)
      ensures ClockIs(pr, Armed(passed.(arr := NextGap(pr.jobs, hi), ptr := hi), |queue.processes|, IsRR(pr), now))
    {
      var units := AdmitWithTimer(pr, passed, plan, lo, hi, v, pids);
      RearmAtView(pr, passed, hi, v, units, now);
    }

    /** `get_expire_reason` and `subtract_time_passed` */
    method Expired(ghost pr: Params, ghost c: Clock) returns (reason: EventType)
      requires ClockIs(pr, c) && |queue.processes| == |pr.jobs|
      modifies timer
      ensures reason == ExpireReason(c, |pr.jobs|, IsRR(pr)) && ClockIs(pr, TimePassed(c, |pr.jobs|, IsRR(pr)))
    {
      timer.TakeAlarm();
      reason := timer.GetExpireReason(queue);
      timer.SubtractTimePassed(queue);
    }

    method ExpiredWithState(ghost pr: Params, ghost c: Clock) returns (reason: EventType)
      requires policy.Valid() && ClockIs(pr, c) && |queue.processes| == |pr.jobs|
      modifies timer
      ensures policy.Valid() && policy.State() == old(policy.State()) && policy.Held() == old(policy.Held())
      ensures policy.Room() == old(policy.Room())
      ensures reason == ExpireReason(c, |pr.jobs|, IsRR(pr)) && ClockIs(pr, TimePassed(c, |pr.jobs|, IsRR(pr)))
    {
      Apart();
      reason := Expired(pr, c);
    }

    method ExpiredAtPolicy(ghost pr: Params, ghost c: Clock, ghost passed: Clock, ghost v: View)
      returns (reason: EventType)
      requires PolicyIs(pr, v.pol, v.prio, c.ptr) && ClockIs(pr, c) && passed == TimePassed(c, |pr.jobs|, IsRR(pr))
      modifies timer
      ensures PolicyIs(pr, v.pol, v.prio, passed.ptr)
      ensures reason == ExpireReason(c, |pr.jobs|, IsRR(pr)) && ClockIs(pr, passed)
    {
      reason := ExpiredWithState(pr, c);
    }

    method ServeSliceEnd(ghost pr: Params, ghost passed: Clock, ghost after: Clock, ghost plan: seq<View>,
                         ghost v: View, ghost now: int)
      requires SliceServed(pr, passed, after, plan, v, now)
      requires PolicyIs(pr, plan[0].pol, plan[0].prio, passed.ptr) && ClockIs(pr, passed) && !passed.raised
      modifies timer, policy.Objects()
      ensures PolicyIs(pr, v.pol, v.prio, after.ptr) && ClockIs(pr, after)
    {
      ServeSlice(pr, passed, plan[0], now);
    }

    method ServeGroup(ghost pr: Params, ghost passed: Clock, ghost after: Clock, ghost plan: seq<View>, ghost v: View,
                      pids: seq<int>, ghost now: int)
      requires GroupServed(pr, passed, after, plan, v, now) && pids == pr.pids
      requires PolicyIs(pr, plan[0].pol, plan[0].prio, passed.ptr) && ClockIs(pr, passed) && !passed.raised
      modifies queue, timer, policy.kernel, policy.Objects(), queue.processes
      ensures PolicyIs(pr, v.pol, v.prio, after.ptr) && ClockIs(pr, after)
    {
      ServeArrival(pr, passed, plan, passed.ptr, after.ptr, v, pids, now);
    }

    /** The TIMER_EXPIRED branch of the loop body; `passed` is the clock once the time that has passed is subtracted,
        `after` the one once the timer is set again. */
    method ServeTimer(ghost pr: Params, ghost c: Clock, ghost passed: Clock, ghost after: Clock, ghost plan: seq<View>,
                      ghost v: View, pids: seq<int>, ghost now: int)
      requires passed == TimePassed(c, |pr.jobs|, IsRR(pr)) && 0 < |plan| && pids == pr.pids
      requires Served(pr, ExpireReason(c, |pr.jobs|, IsRR(pr)), passed, after, plan, v, now)
      requires PolicyIs(pr, plan[0].pol, plan[0].prio, c.ptr) && ClockIs(pr, c)
      modifies queue, timer, policy.kernel, policy.Objects(), queue.processes
      ensures PolicyIs(pr, v.pol, v.prio, after.ptr) && ClockIs(pr, after)
    {
      var reason := ExpiredAtPolicy(pr, c, passed, plan[0]);
      if reason == TimesliceOver {
        ServeSliceEnd(pr, passed, after, plan, v, now);
      } else {
        ServeGroup(pr, passed, after, plan, v, pids, now);
      }
    }

    /** A TIMER_EXPIRED wake-up: the program goes to the world that follows `w`, or leaves the loop. */
    method WakeByTimer(ghost pr: Params, ghost w: World, pids: seq<int>) returns (goOn: bool)
      requires CanHandle(pr, w, TimerExpired) && pids == pr.pids && Represents(pr, w)
      modifies queue, timer, policy.kernel, policy.Objects(), queue.processes
      ensures Represents(pr, Handle(pr, w, TimerExpired).w)
      ensures goOn <==> Handle(pr, w, TimerExpired).Continues?
    {
      ghost var f, plan := PlanTimer(pr, w);
      ServeTimer(pr, w.clock, TimePassed(w.clock, |pr.jobs|, IsRR(pr)), f.clock, plan, View(f.pol, f.prio), pids,
                 FireTime(w.clock));
      goOn := EndOfBody(pr, f);
    }

    /** The kernel reaps the child; the schedulers do not notice. */
    method Reap(ghost pr: Params, ghost pol: Policy, ghost prio: map<int, Priority>, ghost admitted: nat, pid: int)
      requires PolicyIs(pr, pol, prio, admitted) && pid in prio
      modifies policy.kernel
      ensures PolicyIs(pr, pol, prio - {pid}, admitted)
    {
      policy.kernel.Exit(pid);
    }

    /** `remove_current_process` */
    method RemoveCurrent(ghost pr: Params, ghost pol: Policy, ghost prio: map<int, Priority>, ghost admitted: nat)
      requires PolicyIs(pr, pol, prio, admitted) && CanRemove(pol)
      modifies policy.Objects()
      ensures PolicyIs(pr, Remove(pol), prio, admitted)
    {
      policy.RemoveCurrentProcess();
    }

    /** `wait` and `remove_current_process` */
    method ReapCurrent(ghost pr: Params, ghost pol: Policy, ghost prio: map<int, Priority>, ghost admitted: nat,
                       pid: int)
      requires PolicyIs(pr, pol, prio, admitted) && CanRemove(pol) && pid in prio
      modifies policy.kernel, policy.Objects()
      ensures PolicyIs(pr, Remove(pol), prio - {pid}, admitted)
    {
      Reap(pr, pol, prio, admitted, pid);
      RemoveCurrent(pr, pol, prio - {pid}, admitted);
    }

    method ReapAt(ghost pr: Params, ghost w: World, pid: int, ghost f: World)
      requires Represents(pr, w) && CanRemove(w.pol) && pid in w.prio
      requires f.pol == Remove(w.pol) && f.prio == w.prio - {pid} && f.clock == w.clock
      modifies policy.kernel, policy.Objects()
      ensures Represents(pr, f)
    {
      Apart();
      ReapCurrent(pr, w.pol, w.prio, w.clock.ptr, pid);
    }

    /** A CHILD_TERMINATED wake-up; `pid` is the child that has exited. */
    method WakeByChild(ghost pr: Params, ghost w: World, pid: int) returns (goOn: bool)
      requires CanHandle(pr, w, ChildTerminated) && pid == pr.pids[Running(pr, w).value] && Represents(pr, w)
      modifies policy.kernel, policy.Objects()
      ensures Represents(pr, Handle(pr, w, ChildTerminated).w)
      ensures goOn <==> Handle(pr, w, ChildTerminated).Continues?
    {
      ghost var f := PlanChild(pr, w);
      ReapAt(pr, w, pid, f);
      goOn := EndOfBody(pr, f);
    }

    lemma MemoryHolds()
      ensures queue in Memory() && timer in Memory() && policy.kernel in Memory() && policy.Objects() <= Memory()
      ensures forall o: object? :: o in queue.processes ==> o in Memory()
    {
    }

    /** One turn of the loop, as sigsuspend reports it: an alarm, or the exit of a child. */
    method Wake(ghost pr: Params, ghost w: World, ghost ev: Event, wakeup: Wakeup, pids: seq<int>) returns (goOn: bool)
      requires CanHandle(pr, w, ev) && pids == pr.pids && Reports(pr, w, ev, wakeup) && Represents(pr, w)
      modifies Memory()
      ensures Represents(pr, Handle(pr, w, ev).w)
      ensures goOn <==> Handle(pr, w, ev).Continues?
    {
      MemoryHolds();
      match wakeup
      case Alarm => goOn := WakeByTimer(pr, w, pids);
      case Child(pid) => goOn := WakeByChild(pr, w, pid);
    }

    /** The event loop, as long as wake-ups come: whatever happens on an ideal clock, after every wake-up the
        program is in the next world of the run, and it leaves the loop exactly when the run exits. */
    method Run(ghost pr: Params, ghost ws: seq<World>, ghost evs: seq<Event>, wakeups: seq<Wakeup>, pids: seq<int>)
      returns (goOn: bool)
      requires Guarded(pr) && pids == pr.pids && Represents(pr, Start(pr)) && IsScript(pr, ws, evs, wakeups)
      modifies Memory()
      ensures Represents(pr, LastOutcome(pr, ws, evs, wakeups).w)
      ensures goOn <==> LastOutcome(pr, ws, evs, wakeups).Continues?
    {
      ghost var o := LastOutcome(pr, ws, evs, wakeups);
      goOn := true;
      var turns := 0;
      while goOn && turns < |wakeups|
        invariant turns <= |wakeups|
        invariant turns < |wakeups| ==> goOn && Represents(pr, ws[turns])
        invariant turns == |wakeups| ==> Represents(pr, o.w) && (goOn <==> o.Continues?)
        decreases |wakeups| - turns
      {
        TurnOf(pr, ws, evs, wakeups, turns);
        goOn := Wake(pr, ws[turns], evs[turns], wakeups[turns], pids);
        turns := turns + 1;
      }
    }
  }

  // ---------- The program from its start ----------

  /** `read_process_info` once the numbers have been read. */
  method ReadProcessInfo(jobs: seq<Job>) returns (ps: seq<ProcessInfo>)
    ensures |ps| == |jobs|
    ensures forall i :: 0 <= i < |jobs| ==>
              && fresh(ps[i]) && ps[i].id == i && ps[i].arrivalTime == jobs[i].arrival
              && ps[i].timeNeeded == jobs[i].needed == ps[i].remainingTime
  {
    ps := [];
    for i := 0 to |jobs|
      invariant |ps| == i
      invariant forall k :: 0 <= k < i ==>
                  && fresh(ps[k]) && ps[k].id == k && ps[k].arrivalTime == jobs[k].arrival
                  && ps[k].timeNeeded == jobs[k].needed == ps[k].remainingTime
    {
      var p := new ProcessInfo(i, jobs[i].arrival, jobs[i].needed);
      ps := ps + [p];
    }
  }

  /** `set_strategy`: every policy gets room for all processes. */
  method SetStrategy(strategy: Strategy, kernel: Kernel, numProcess: nat) returns (policy: Dispatcher)
    requires strategy != FIFO
    ensures fresh(policy) && fresh(policy.Objects()) && policy.strategy == strategy && policy.kernel == kernel
    ensures policy.Unused(numProcess)
  {
    var rr := new R.RoundRobinScheduler(numProcess);
    var sjf := new S.SjfScheduler(numProcess);
    var psjf := new P.PsjfScheduler(numProcess);
    policy := new Dispatcher(strategy, kernel, rr, sjf, psjf);
  }

  /** The parts of the program, as `main` sets them up before the loop. */
  method SetUp(strategy: Strategy, jobs: seq<Job>, timeUnit: T.Timespec) returns (main: SchedulerLoop)
    requires strategy != FIFO && jobs != [] && SortedByArrival(jobs) && T.Normal(timeUnit) && 0 < T.Total(timeUnit)
    ensures fresh(main.Memory()) && main.policy.strategy == strategy && main.policy.Unused(|jobs|)
    ensures main.policy.kernel.prio == map[] && main.queue.Jobs() == jobs && main.queue.arrivalPtr == 0
    ensures main.timer.Valid() && main.timer.rr == (strategy == RR)
    ensures main.timer.clock == InitialClock(jobs, strategy == RR)
    ensures main.Untouched(0) && forall i :: 0 <= i < |jobs| ==> main.queue.processes[i].id == i
  {
    var ps := ReadProcessInfo(jobs);
    var queue := new ArrivalQueue(ps);
    assert queue.Jobs() == jobs;
    var kernel := new Kernel();
    var policy := SetStrategy(strategy, kernel, |jobs|);
    var timer := new TimerInfo(timeUnit, strategy == RR, queue);
    main := new SchedulerLoop(queue, timer, policy);
  }

  lemma StartsInitially(main: SchedulerLoop, pr: Params)
    requires ValidParams(pr) && main.InputIs(pr) && main.Untouched(0) && main.policy.strategy == pr.strategy
    requires main.policy.Unused(|pr.jobs|) && main.policy.kernel.prio == map[]
    requires main.ClockIs(pr, InitialClock(pr.jobs, IsRR(pr)))
    ensures main.Represents(pr, Initial(pr))
  {
    main.policy.StartsEmpty(|pr.jobs|);
  }

  /** `main` up to the loop; `timeUnit` is what `measure_time_unit` has found. */
  method StartUp(ghost pr: Params, strategy: Strategy, jobs: seq<Job>, timeUnit: T.Timespec)
    returns (main: SchedulerLoop)
    requires ValidParams(pr) && pr.strategy == strategy && pr.jobs == jobs
    requires T.Normal(timeUnit) && 0 < T.Total(timeUnit)
    ensures fresh(main.Memory()) && main.Represents(pr, Initial(pr))
  {
    main := SetUp(strategy, jobs, timeUnit);
    StartsInitially(main, pr);
  }

  /** `main` from the input on; for PSJF, with its first process taken over. */
  method Schedule(ghost pr: Params, ghost ws: seq<World>, ghost evs: seq<Event>, strategy: Strategy, jobs: seq<Job>,
                  timeUnit: T.Timespec, wakeups: seq<Wakeup>, pids: seq<int>)
    returns (main: SchedulerLoop, goOn: bool)
    requires Guarded(pr) && pr == Params(jobs, pids, strategy)
    requires T.Normal(timeUnit) && 0 < T.Total(timeUnit) && IsScript(pr, ws, evs, wakeups)
    ensures main.Represents(pr, LastOutcome(pr, ws, evs, wakeups).w)
    ensures goOn <==> LastOutcome(pr, ws, evs, wakeups).Continues?
  {
    main := StartUp(pr, strategy, jobs, timeUnit);
    if strategy == PSJF {
      main.TakeOver(pr, pids);
    }
    goOn := main.Run(pr, ws, evs, wakeups, pids);
  }

  /** What sigsuspend and wait report about a wake-up. */
  datatype Wakeup = Alarm | Child(pid: int)

  ghost predicate Reports(pr: Params, w: World, ev: Event, wakeup: Wakeup)
    requires Shaped(pr, w)
  {
    match ev
    case TimerExpired => wakeup == Alarm
    case ChildTerminated => Running(pr, w).Some? && wakeup == Child(pr.pids[Running(pr, w).value])
  }

  /** A run through the worlds `ws`, whose last event does not crash, and what is reported at each wake-up. */
  ghost predicate IsScript(pr: Params, ws: seq<World>, evs: seq<Event>, wakeups: seq<Wakeup>) {
    && |wakeups| == |evs| == |ws| > 0 && IsRun(pr, ws, evs[..|evs| - 1])
    && (forall k :: 0 <= k < |ws| ==> IsTurn(pr, ws[k], evs[k], wakeups[k]))
    && Handle(pr, ws[|ws| - 1], evs[|evs| - 1]) != Crashes
  }

  /** What the last event of the script leads to. */
  ghost function LastOutcome(pr: Params, ws: seq<World>, evs: seq<Event>, wakeups: seq<Wakeup>): Outcome
    requires IsScript(pr, ws, evs, wakeups)
  {
    Handle(pr, ws[|ws| - 1], evs[|evs| - 1])
  }

  ghost predicate IsTurn(pr: Params, w: World, ev: Event, wakeup: Wakeup) {
    Shaped(pr, w) && Enabled(pr, w, ev) && Reports(pr, w, ev, wakeup)
  }

  lemma StepOfPrefix(pr: Params, ws: seq<World>, evs: seq<Event>, k: nat, ev: Event, w': World)
    requires |evs| == |ws| && k + 1 < |ws| && IsPath(pr, ws, evs[..|evs| - 1]) && ev == evs[k] && w' == ws[k + 1]
    ensures Steps(pr, ws[k], ev, w')
  {
    assert evs[..|evs| - 1][k] == ev;
  }

  lemma TurnLeads(pr: Params, ws: seq<World>, evs: seq<Event>, wakeups: seq<Wakeup>, k: nat)
    requires IsScript(pr, ws, evs, wakeups) && k < |ws|
    ensures IsTurn(pr, ws[k], evs[k], wakeups[k])
    ensures Handle(pr, ws[k], evs[k]) ==
            if k + 1 < |ws| then Continues(ws[k + 1]) else LastOutcome(pr, ws, evs, wakeups)
  {
    if k + 1 < |ws| {
      StepOfPrefix(pr, ws, evs, k, evs[k], ws[k + 1]);
    }
  }

  /** The world is as the invariants say, PSJF's clock is not ahead, and the event does not make the C code
      fail. */
  ghost predicate CanHandle(pr: Params, w: World, ev: Event) {
    && Guarded(pr) && Inv(pr, w) && Enabled(pr, w, ev) && Handle(pr, w, ev) != Crashes
    && (w.pol.Psjf? ==> w.pol.psjf.last <= w.now)
  }

  lemma TurnKeepsInv(pr: Params, ws: seq<World>, evs: seq<Event>, wakeups: seq<Wakeup>, k: nat)
    requires Guarded(pr) && IsScript(pr, ws, evs, wakeups) && k < |ws|
    ensures Inv(pr, ws[k]) && (ws[k].pol.Psjf? ==> ws[k].pol.psjf.last <= ws[k].now)
  {
    RunKeepsInv(pr, ws, evs[..|evs| - 1], k);
    if pr.strategy == PSJF {
      PsjfNeverOverestimates(pr, ws, evs[..|evs| - 1], k);
    }
  }

  lemma TurnOf(pr: Params, ws: seq<World>, evs: seq<Event>, wakeups: seq<Wakeup>, k: nat)
    requires Guarded(pr) && IsScript(pr, ws, evs, wakeups) && k < |ws|
    ensures CanHandle(pr, ws[k], evs[k]) && Reports(pr, ws[k], evs[k], wakeups[k])
    ensures Handle(pr, ws[k], evs[k]) ==
            if k + 1 < |ws| then Continues(ws[k + 1]) else LastOutcome(pr, ws, evs, wakeups)
  {
    TurnKeepsInv(pr, ws, evs, wakeups, k);
    TurnLeads(pr, ws, evs, wakeups, k);
  }

  /** What the policy and the kernel look like. */
  datatype View = View(pol: Policy, prio: map<int, Priority>)

  /** `next` is `now` after `add_process` for process `i`, which is possible. */
  ghost predicate Admits(pr: Params, now: View, i: nat, next: View)
    requires i < |pr.jobs| == |pr.pids|
  {
    && CanAdd(now.pol) && pr.pids[i] !in now.prio && pr.pids[i] !in PidsOf(Members(now.pol))
    && (now.pol.Psjf? ==> now.pol.psjf.last <= pr.jobs[i].arrival)
    && next == View(Add(now.pol, Entry(i, pr.jobs[i].needed, pr.pids[i]), pr.jobs[i].arrival),
                    Suspended(now.prio[pr.pids[i] := High], pr.pids[i]))
  }

  ghost predicate PlanStep(pr: Params, plan: seq<View>, lo: nat, k: nat)
    requires |pr.jobs| == |pr.pids|
  {
    k + 1 < |plan| && lo + k < |pr.jobs| && Admits(pr, plan[k], lo + k, plan[k + 1])
  }

  /** The views `plan` admit the processes `lo..hi` one after the other. */
  ghost predicate IsPlan(pr: Params, plan: seq<View>, lo: nat, hi: nat)
    requires |pr.jobs| == |pr.pids|
  {
    lo <= hi <= |pr.jobs| && |plan| == hi - lo + 1 && forall k :: 0 <= k < hi - lo ==> PlanStep(pr, plan, lo, k)
  }

  lemma PlanAt(pr: Params, plan: seq<View>, lo: nat, hi: nat, k: nat, now: View, i: nat, next: View)
    requires |pr.jobs| == |pr.pids| && IsPlan(pr, plan, lo, hi) && lo + k == i < hi
    requires now == plan[k] && next == plan[k + 1]
    ensures Admits(pr, now, i, next)
  {
    assert PlanStep(pr, plan, lo, k);
  }

  lemma StillInGroup(jobs: seq<Job>, lo: nat, hi: nat, i: nat)
    requires IsGroup(jobs, lo, hi) && lo < i <= hi && i < |jobs| && Gap(jobs, i) == 0
    ensures i < hi
  {
  }

  lemma GroupIsOver(jobs: seq<Job>, lo: nat, hi: nat, i: nat)
    requires IsGroup(jobs, lo, hi) && lo < i <= hi && (i < |jobs| ==> Gap(jobs, i) != 0)
    ensures i == hi
  {
  }

  /** The processes `lo..hi` arrive together and the next one later. */
  ghost predicate IsGroup(jobs: seq<Job>, lo: nat, hi: nat) {
    && lo < hi <= |jobs| && (forall k :: lo < k < hi ==> Gap(jobs, k) == 0) && (hi < |jobs| ==> Gap(jobs, hi) != 0)
  }

  ghost predicate CanFork(pr: Params, prio: map<int, Priority>, lo: nat, hi: nat)
    requires hi <= |pr.pids|
  {
    && (forall i :: lo <= i < hi ==> pr.pids[i] !in prio)
    && (forall i, j :: lo <= j < i < hi ==> pr.pids[j] != pr.pids[i])
  }

  /** The processes `lo..hi` can be admitted one after the other, if the policy does not fail. */
  ghost predicate ReadyFor(pr: Params, w: World, lo: nat, hi: nat) {
    && Shaped(pr, w) && lo <= hi <= |pr.jobs| && WellFormed(w.pol) && PidsOf(Members(w.pol)) == w.prio.Keys
    && CanFork(pr, w.prio, lo, hi)
    && (w.pol.Psjf? ==> forall i :: lo <= i < hi ==> w.pol.psjf.last <= pr.jobs[i].arrival)
  }

  lemma ReadyForNext(pr: Params, w: World, lo: nat, hi: nat)
    requires ReadyFor(pr, w, lo, hi) && lo < hi && CanAdd(w.pol)
    ensures ReadyFor(pr, AdmitOne(pr, w, lo), lo + 1, hi)
    ensures var v := AdmitOne(pr, w, lo); Admits(pr, View(w.pol, w.prio), lo, View(v.pol, v.prio))
  {
    AddKeepsWellFormed(w.pol, Entry(lo, pr.jobs[lo].needed, pr.pids[lo]), pr.jobs[lo].arrival);
  }

  lemma PlanPrepend(pr: Params, now: View, rest: seq<View>, lo: nat, hi: nat)
    requires |pr.jobs| == |pr.pids| && lo < hi && IsPlan(pr, rest, lo + 1, hi) && Admits(pr, now, lo, rest[0])
    ensures IsPlan(pr, [now] + rest, lo, hi)
  {
    var plan := [now] + rest;
    forall k | 0 <= k < hi - lo ensures PlanStep(pr, plan, lo, k) {
      if 0 < k {
        assert PlanStep(pr, rest, lo + 1, k - 1);
      }
    }
  }

  lemma {:induction false} PlanGroup(pr: Params, w: World, lo: nat, hi: nat) returns (plan: seq<View>)
    requires ReadyFor(pr, w, lo, hi) && AdmitAll(pr, w, lo, hi).Some?
    ensures IsPlan(pr, plan, lo, hi) && plan[0] == View(w.pol, w.prio)
    ensures var u := AdmitAll(pr, w, lo, hi).value; plan[hi - lo] == View(u.pol, u.prio)
    decreases hi - lo
  {
    if lo == hi {
      plan := [View(w.pol, w.prio)];
    } else {
      ReadyForNext(pr, w, lo, hi);
      var rest := PlanGroup(pr, AdmitOne(pr, w, lo), lo + 1, hi);
      PlanPrepend(pr, View(w.pol, w.prio), rest, lo, hi);
      plan := [View(w.pol, w.prio)] + rest;
    }
  }

  lemma {:induction false} GroupsAre(jobs: seq<Job>, lo: nat)
    requires lo < |jobs|
    ensures IsGroup(jobs, lo, GroupEnd(jobs, lo))
    decreases |jobs| - lo
  {
    if lo + 1 < |jobs| && Gap(jobs, lo + 1) == 0 {
      GroupsAre(jobs, lo + 1);
    }
  }

  lemma ClockAfterArrival(jobs: seq<Job>, rr: bool, c: Clock)
    requires ExpireReason(c, |jobs|, rr) == ProcessArrival && c.ptr < |jobs|
    ensures var hi := GroupEnd(jobs, c.ptr);
            AfterTimer(jobs, rr, c) ==
            Armed(TimePassed(c, |jobs|, rr).(arr := NextGap(jobs, hi), ptr := hi), |jobs|, rr, FireTime(c))
  {
  }

  lemma WarmClock(jobs: seq<Job>)
    requires jobs != [] && SortedByArrival(jobs) && AloneAt(jobs, 0)
    ensures var c := InitialClock(jobs, false);
            && 0 <= NextGap(jobs, 1)
            && AfterTimer(jobs, false, c) == Armed(c.(arr := NextGap(jobs, 1), ptr := 1), |jobs|, false, FireTime(c))
  {
    ClockAfterArrival(jobs, false, InitialClock(jobs, false));
    GroupIsMaximal(jobs, 0);
  }

  lemma ClockAfterSlice(jobs: seq<Job>, rr: bool, c: Clock)
    requires ExpireReason(c, |jobs|, rr) == TimesliceOver
    ensures AfterTimer(jobs, rr, c) == Armed(AfterSlice(TimePassed(c, |jobs|, rr)), |jobs|, rr, FireTime(c))
  {
  }

  /** The end of a slice at time `now` takes the view `plan[0]` to the next ring position `v`, and the clock to
      `after`. */
  ghost predicate SliceServed(pr: Params, passed: Clock, after: Clock, plan: seq<View>, v: View, now: int) {
    && |pr.jobs| == |pr.pids| && 0 < |plan| && IsRR(pr) && plan[0].pol.RoundRobin?
    && v == View(RoundRobin(R.SliceOver(plan[0].pol.ring)), plan[0].prio)
    && after == Armed(AfterSlice(passed), |pr.jobs|, IsRR(pr), now)
  }

  /** An arrival at time `now` takes the view `plan[0]` to the last view `v` of the plan that admits the group, and the
      clock to `after`. */
  ghost predicate GroupServed(pr: Params, passed: Clock, after: Clock, plan: seq<View>, v: View, now: int) {
    && |pr.jobs| == |pr.pids| && 0 < |plan|
    && IsGroup(pr.jobs, passed.ptr, after.ptr) && 0 <= NextGap(pr.jobs, after.ptr)
    && IsPlan(pr, plan, passed.ptr, after.ptr) && v == plan[after.ptr - passed.ptr]
    && after == Armed(passed.(arr := NextGap(pr.jobs, after.ptr), ptr := after.ptr), |pr.jobs|, IsRR(pr), now)
  }

  ghost predicate Served(pr: Params, reason: EventType, passed: Clock, after: Clock, plan: seq<View>, v: View, now: int)
  {
    if reason == TimesliceOver then SliceServed(pr, passed, after, plan, v, now)
    else GroupServed(pr, passed, after, plan, v, now)
  }

  /** What a timer event in world `w` makes of the view `plan[0]` and of the clock. */
  ghost predicate TimerServes(pr: Params, w: World, plan: seq<View>, v: View, after: Clock) {
    Served(pr, ExpireReason(w.clock, |pr.jobs|, IsRR(pr)), TimePassed(w.clock, |pr.jobs|, IsRR(pr)), after, plan, v,
           FireTime(w.clock))
  }

  lemma GroupCanBeForked(pr: Params, w: World)
    requires Shaped(pr, w) && Enabled(pr, w, TimerExpired) && ArrivalIsDue(pr, w)
    ensures CanFork(pr, w.prio, w.clock.ptr, GroupEnd(pr.jobs, w.clock.ptr))
    ensures IsGroup(pr.jobs, w.clock.ptr, GroupEnd(pr.jobs, w.clock.ptr))
    ensures 0 <= NextGap(pr.jobs, GroupEnd(pr.jobs, w.clock.ptr))
  {
    GroupsAre(pr.jobs, w.clock.ptr);
  }

  /** Admitting the group leaves everything quiet. */
  lemma GroupIsQuiet(pr: Params, w: World, f: World)
    requires Guarded(pr) && Inv(pr, w) && Enabled(pr, w, TimerExpired) && ArrivalIsDue(pr, w)
    requires AdmitAll(pr, Woken(pr, w), w.clock.ptr, GroupEnd(pr.jobs, w.clock.ptr)) == Some(f)
    ensures PidsOf(Members(f.pol)) == f.prio.Keys
  {
    WokenIsGood(pr, w);
    ClockStep(pr, w);
    AdmitAllKeepsCore(pr, Woken(pr, w), w.clock.ptr, GroupEnd(pr.jobs, w.clock.ptr));
  }

  lemma WokenView(pr: Params, w: World)
    requires Shaped(pr, w) && Enabled(pr, w, TimerExpired)
    ensures Shaped(pr, Woken(pr, w)) && Woken(pr, w).pol == w.pol && Woken(pr, w).prio == w.prio
  {
  }

  lemma ReadyForGroup(pr: Params, w: World)
    requires Guarded(pr) && Inv(pr, w) && Enabled(pr, w, TimerExpired) && ArrivalIsDue(pr, w)
    requires w.pol.Psjf? ==> w.pol.psjf.last <= w.now
    ensures ReadyFor(pr, Woken(pr, w), w.clock.ptr, GroupEnd(pr.jobs, w.clock.ptr))
  {
    WokenView(pr, w);
    GroupCanBeForked(pr, w);
    ClockStep(pr, w);
  }

  lemma PlanOfGroup(pr: Params, w: World, e: World, lo: nat, hi: nat) returns (f: World, plan: seq<View>)
    requires ReadyFor(pr, e, lo, hi) && AdmitAll(pr, e, lo, hi).Some? && e.pol == w.pol && e.prio == w.prio
    ensures AdmitAll(pr, e, lo, hi) == Some(f) && IsPlan(pr, plan, lo, hi)
    ensures plan[0] == View(w.pol, w.prio) && plan[hi - lo] == View(f.pol, f.prio)
  {
    plan := PlanGroup(pr, e, lo, hi);
    f := AdmitAll(pr, e, lo, hi).value;
  }

  lemma GroupIsAdmitted(pr: Params, w: World)
    requires Shaped(pr, w) && Enabled(pr, w, TimerExpired) && ArrivalIsDue(pr, w)
    requires Handle(pr, w, TimerExpired) != Crashes
    ensures AdmitAll(pr, Woken(pr, w), w.clock.ptr, GroupEnd(pr.jobs, w.clock.ptr)).Some?
  {
  }

  lemma ReadyToPlan(pr: Params, w: World)
    requires CanHandle(pr, w, TimerExpired) && ArrivalIsDue(pr, w)
    ensures ReadyFor(pr, Woken(pr, w), w.clock.ptr, GroupEnd(pr.jobs, w.clock.ptr))
    ensures AdmitAll(pr, Woken(pr, w), w.clock.ptr, GroupEnd(pr.jobs, w.clock.ptr)).Some?
    ensures Woken(pr, w).pol == w.pol && Woken(pr, w).prio == w.prio
  {
    WokenView(pr, w);
    GroupIsAdmitted(pr, w);
    ReadyForGroup(pr, w);
  }

  lemma GroupIsServed(pr: Params, w: World, plan: seq<View>, v: View)
    requires Shaped(pr, w) && Enabled(pr, w, TimerExpired) && ArrivalIsDue(pr, w)
    requires IsPlan(pr, plan, w.clock.ptr, GroupEnd(pr.jobs, w.clock.ptr))
    requires v == plan[GroupEnd(pr.jobs, w.clock.ptr) - w.clock.ptr]
    ensures TimerServes(pr, w, plan, v, AfterTimer(pr.jobs, IsRR(pr), w.clock))
  {
    ClockAfterArrival(pr.jobs, IsRR(pr), w.clock);
    GroupCanBeForked(pr, w);
  }

  /** The world `f` after the admission of the group, and the plan that leads there. */
  lemma PlanArrival(pr: Params, w: World, e: World, lo: nat, hi: nat) returns (f: World, plan: seq<View>)
    requires Shaped(pr, w) && Enabled(pr, w, TimerExpired) && ArrivalIsDue(pr, w)
    requires lo == w.clock.ptr && hi == GroupEnd(pr.jobs, lo) && e.pol == w.pol && e.prio == w.prio
    requires ReadyFor(pr, e, lo, hi) && AdmitAll(pr, e, lo, hi).Some?
    ensures AdmitAll(pr, e, lo, hi) == Some(f)
    ensures TimerServes(pr, w, plan, View(f.pol, f.prio), AfterTimer(pr.jobs, IsRR(pr), w.clock))
    ensures plan[0] == View(w.pol, w.prio)
  {
    f, plan := PlanOfGroup(pr, w, e, lo, hi);
    GroupIsServed(pr, w, plan, View(f.pol, f.prio));
  }

  lemma PlanSlice(pr: Params, w: World) returns (f: World, plan: seq<View>)
    requires CanHandle(pr, w, TimerExpired) && !ArrivalIsDue(pr, w)
    ensures Woken(pr, w).pol.RoundRobin? && f == AfterSliceEnd(Woken(pr, w))
    ensures TimerServes(pr, w, plan, View(f.pol, f.prio), AfterTimer(pr.jobs, IsRR(pr), w.clock))
    ensures plan[0] == View(w.pol, w.prio) && PidsOf(Members(f.pol)) <= f.prio.Keys
  {
    WokenIsGood(pr, w);
    ClockStep(pr, w);
    ClockAfterSlice(pr.jobs, IsRR(pr), w.clock);
    plan := [View(w.pol, w.prio)];
    f := AfterSliceEnd(Woken(pr, w));
    SliceKeepsCore(pr, Woken(pr, w), w.clock.ptr);
  }

  lemma TimerOutcome(pr: Params, w: World)
    requires Shaped(pr, w) && Enabled(pr, w, TimerExpired)
    ensures var e, lo := Woken(pr, w), w.clock.ptr;
            && (ArrivalIsDue(pr, w) && AdmitAll(pr, e, lo, GroupEnd(pr.jobs, lo)).Some? ==>
                  HandleTimer(pr, w) == Finish(pr, AdmitAll(pr, e, lo, GroupEnd(pr.jobs, lo)).value))
            && (!ArrivalIsDue(pr, w) && e.pol.RoundRobin? ==> HandleTimer(pr, w) == Finish(pr, AfterSliceEnd(e)))
  {
  }

  /** The world before the context switch of a timer wake-up, and the plan that leads there. */
  lemma PlanTimer(pr: Params, w: World) returns (f: World, plan: seq<View>)
    requires CanHandle(pr, w, TimerExpired)
    ensures Handle(pr, w, TimerExpired) == Finish(pr, f)
    ensures TimerServes(pr, w, plan, View(f.pol, f.prio), f.clock) && |plan| > 0 && plan[0] == View(w.pol, w.prio)
    ensures PidsOf(Members(f.pol)) <= f.prio.Keys
  {
    TimerOutcome(pr, w);
    if ArrivalIsDue(pr, w) {
      ReadyToPlan(pr, w);
      f, plan := PlanArrival(pr, w, Woken(pr, w), w.clock.ptr, GroupEnd(pr.jobs, w.clock.ptr));
      GroupIsQuiet(pr, w, f);
    } else {
      f, plan := PlanSlice(pr, w);
    }
  }

  lemma ExitIsQuiet(pr: Params, w: World) returns (e: World, i: nat)
    requires CanHandle(pr, w, ChildTerminated)
    ensures Running(pr, w) == Some(i) && i in w.live && e == Elapse(pr, w, w.now + w.work[i]) && CanRemove(e.pol)
    ensures pr.pids[i] in e.prio
    ensures PidsOf(Members(Remove(e.pol))) == (e.prio - {pr.pids[i]}).Keys
  {
    e, i := WorkIsDone(pr, w);
    CurrentIsMember(e.pol);
    RemoveKeepsQuiet(e.pol, e.prio);
  }

  lemma ElapseKeepsView(pr: Params, w: World, t: int)
    requires Shaped(pr, w) && w.now <= t
    requires Running(pr, w).Some? ==> t <= w.now + w.work[Running(pr, w).value]
    ensures var e := Elapse(pr, w, t); e.pol == w.pol && e.prio == w.prio && e.clock == w.clock
  {
  }

  lemma PlanChild(pr: Params, w: World) returns (f: World)
    requires CanHandle(pr, w, ChildTerminated)
    ensures CanRemove(w.pol) && Handle(pr, w, ChildTerminated) == Finish(pr, f)
    ensures pr.pids[Running(pr, w).value] in w.prio
    ensures f.pol == Remove(w.pol) && f.prio == w.prio - {pr.pids[Running(pr, w).value]} && f.clock == w.clock
    ensures PidsOf(Members(f.pol)) <= f.prio.Keys
  {
    var e, i := ExitIsQuiet(pr, w);
    ElapseKeepsView(pr, w, w.now + w.work[i]);
    ChildOutcome(pr, w, i);
    f := AfterExit(pr, e, i);
  }
}
