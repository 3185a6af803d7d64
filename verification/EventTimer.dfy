/** `struct TimerInfo` and the arrival pointer of main.c.  The countdowns are timespecs; `clock` is what they
    mean in time units, so that the class refines the clock of module Timers without any rounding. */
module EventTimer {
  import opened Processes
  import opened Timespecs
  import opened Timers

  /** `all_process_info` and `arrival_ptr`. */
  class ArrivalQueue {
    const processes: seq<ProcessInfo>
    var arrivalPtr: nat

    ghost function Jobs(): (jobs: seq<Job>)
      ensures |jobs| == |processes|
    {
      seq(|processes|, i requires 0 <= i < |processes| => Job(processes[i].arrivalTime, processes[i].timeNeeded))
    }

    constructor (processes: seq<ProcessInfo>)
      ensures this.processes == processes && arrivalPtr == 0
    {
      this.processes, arrivalPtr := processes, 0;
    }

    /** The C code asserts that the queue is not empty. */
    function TimeunitsUntilNextArrival(): (units: int)
      requires arrivalPtr < |processes|
      reads this
      ensures units == Gap(Jobs(), arrivalPtr)
    {
      if arrivalPtr == 0 then processes[0].arrivalTime
      else processes[arrivalPtr].arrivalTime - processes[arrivalPtr - 1].arrivalTime
    }

    method GetArrivedProcess() returns (p: ProcessInfo)
      requires arrivalPtr < |processes|
      modifies this
      ensures p == processes[old(arrivalPtr)] && arrivalPtr == old(arrivalPtr) + 1
    {
      p := processes[arrivalPtr];
      arrivalPtr := arrivalPtr + 1;
    }

    predicate Empty()
      reads this
    {
      arrivalPtr == |processes|
    }
  }

  class TimerInfo {
    const timeUnit: Timespec
    const rr: bool
    var arrivalRemaining: Timespec
    var timesliceRemaining: Timespec
    /** What the kernel timer was last set to. */
    var itValue: Timespec
    /** SIGALRM is pending because the program itself has raised it. */
    var alarmRaised: bool
    ghost var clock: Clock

    ghost predicate Valid()
      reads this
    {
      Shaped() && alarmRaised == clock.raised
    }

    ghost predicate Shaped()
      reads this
    {
      && Normal(timeUnit) && 0 < Total(timeUnit)
      && 0 <= clock.arr && arrivalRemaining == Multiply(timeUnit, clock.arr)
      && (rr ==> 0 <= clock.slice && timesliceRemaining == Multiply(timeUnit, clock.slice))
      && 0 <= clock.armed && itValue == Multiply(timeUnit, clock.armed)
    }

    /** `create_timer_and_init_timespec`; an immediate first arrival raises the alarm. */
    constructor (timeUnit: Timespec, rr: bool, queue: ArrivalQueue)
      requires Normal(timeUnit) && 0 < Total(timeUnit)
      requires queue.arrivalPtr == 0 && queue.processes != []
      ensures Valid() && this.timeUnit == timeUnit && this.rr == rr
      ensures clock == InitialClock(queue.Jobs(), rr)
    {
      this.timeUnit, this.rr, this.alarmRaised := timeUnit, rr, false;
      this.arrivalRemaining, this.timesliceRemaining, this.itValue := Timespec(0, 0), Timespec(0, 0), Timespec(0, 0);
      new;
      var units := queue.TimeunitsUntilNextArrival();
      arrivalRemaining := Multiply(timeUnit, units);
      clock := Clock(0, units, 0, 0, 0, false);
      MultipleIsZero(timeUnit, 0);
      alarmRaised := units == 0;
      if rr {
        timesliceRemaining := Multiply(timeUnit, RR_TIMES_OF_UNIT);
        clock := clock.(slice := RR_TIMES_OF_UNIT);
      }
      SetTimer(queue, 0);
      clock := clock.(raised := units == 0);
    }

    /** The alarm is delivered. */
    method TakeAlarm()
      requires Valid()
      modifies this
      ensures Valid() && clock == Delivered(old(clock))
    {
      alarmRaised := false;
      clock := Delivered(clock);
    }

    method GetExpireReason(queue: ArrivalQueue) returns (reason: EventType)
      requires Valid() && clock.ptr == queue.arrivalPtr
      ensures reason == ExpireReason(clock, |queue.processes|, rr)
    {
      if !rr {
        return ProcessArrival;
      }
      if queue.Empty() {
        return TimesliceOver;
      }
      MultiplesBehave(timeUnit, clock.arr, clock.slice);
      if MinIsLeft(arrivalRemaining, timesliceRemaining) {
        return ProcessArrival;
      } else {
        return TimesliceOver;
      }
    }

    method SubtractTimePassed(queue: ArrivalQueue)
      requires Valid() && clock.ptr == queue.arrivalPtr && !clock.raised
      modifies this
      ensures Valid() && clock == TimePassed(old(clock), |queue.processes|, rr)
    {
      if rr && !queue.Empty() {
        MultiplesBehave(timeUnit, clock.arr, clock.slice);
        MultiplesBehave(timeUnit, clock.slice, clock.arr);
        MultipleIsZero(timeUnit, 0);
        if MinIsLeft(arrivalRemaining, timesliceRemaining) {
          timesliceRemaining := Subtract(timesliceRemaining, arrivalRemaining);
          arrivalRemaining := Timespec(0, 0);
        } else {
          arrivalRemaining := Subtract(arrivalRemaining, timesliceRemaining);
          timesliceRemaining := Timespec(0, 0);
        }
        clock := TimePassed(clock, |queue.processes|, rr);
      }
    }

    method UpdateTimesliceRemaining()
      requires Valid()
      modifies this
      ensures Valid() && clock == if rr then AfterSlice(old(clock)) else old(clock)
      ensures rr ==> Total(timesliceRemaining) == 500 * Total(timeUnit)
    {
      if !rr {
        return;
      }
      AssertNonnegative(clock.slice);
      assert timesliceRemaining.sec >= 0 && timesliceRemaining.nsec >= 0;
      MultiplyExact(timeUnit, RR_TIMES_OF_UNIT);
      timesliceRemaining := Multiply(timeUnit, RR_TIMES_OF_UNIT);
      clock := AfterSlice(clock);
    }

    /** `ptr` is where the arrival pointer has moved to. */
    method UpdateArrivalRemaining(units: int, ghost ptr: nat)
      requires Valid() && 0 <= units
      modifies this
      ensures Valid() && clock == old(clock).(arr := units, ptr := ptr)
    {
      AssertNonnegative(clock.arr);
      assert arrivalRemaining.sec >= 0 && arrivalRemaining.nsec >= 0;
      arrivalRemaining := Multiply(timeUnit, units);
      clock := clock.(arr := units, ptr := ptr);
    }

    lemma AssertNonnegative(units: int)
      requires Valid() && 0 <= units
      ensures Multiply(timeUnit, units).sec >= 0 && Multiply(timeUnit, units).nsec >= 0
    {
      MultiplyExact(timeUnit, units);
    }

    method SetTimer(queue: ArrivalQueue, ghost now: int)
      requires Normal(timeUnit) && 0 < Total(timeUnit)
      requires 0 <= clock.arr && arrivalRemaining == Multiply(timeUnit, clock.arr)
      requires rr ==> 0 <= clock.slice && timesliceRemaining == Multiply(timeUnit, clock.slice)
      requires clock.ptr == queue.arrivalPtr
      modifies this
      ensures Shaped() && clock == Timers.Armed(old(clock), |queue.processes|, rr, now)
      ensures alarmRaised == old(alarmRaised)
    {
      if !rr {
        itValue := arrivalRemaining;
      } else if queue.Empty() {
        itValue := timesliceRemaining;
      } else {
        MultiplesBehave(timeUnit, clock.arr, clock.slice);
        itValue := if MinIsLeft(arrivalRemaining, timesliceRemaining) then arrivalRemaining else timesliceRemaining;
      }
      clock := Timers.Armed(clock, |queue.processes|, rr, now);
    }

    /** The kernel reads a zero it_value as a request to disarm the timer. */
    lemma ArmedExactly()
      requires Valid()
      ensures itValue == Timespec(0, 0) <==> clock.armed == 0
      ensures Total(itValue) == Total(timeUnit) * clock.armed
    {
      MultipleIsZero(timeUnit, clock.armed);
      MultiplyExact(timeUnit, clock.armed);
    }
  }

  // ---------- No accumulated rounding ----------

  function Gaps(jobs: seq<Job>, k: nat): (gaps: seq<int>)
    requires k <= |jobs|
    ensures |gaps| == k && forall i :: 0 <= i < k ==> gaps[i] == Gap(jobs, i)
  {
    seq(k, i requires 0 <= i < k => Gap(jobs, i))
  }

  lemma {:induction false} SumOfMore(s: seq<int>, x: int)
    ensures Sum(s + [x]) == Sum(s) + x
    decreases |s|
  {
    if s == [] {
      assert s + [x] == [x];
    } else {
      SumOfMore(s[1..], x);
      assert (s + [x])[1..] == s[1..] + [x];
    }
  }

  lemma {:induction false} SumOfGaps(jobs: seq<Job>, k: nat)
    requires k < |jobs|
    ensures Sum(Gaps(jobs, k + 1)) == jobs[k].arrival
    decreases k
  {
    if k == 0 {
      assert Gaps(jobs, 1) == [] + [Gap(jobs, 0)];
    } else {
      SumOfGaps(jobs, k - 1);
      assert Gaps(jobs, k + 1) == Gaps(jobs, k) + [Gap(jobs, k)];
    }
    SumOfMore(Gaps(jobs, k), Gap(jobs, k));
  }

  /** The delays armed one after the other up to process `k` add up to the delay of its arrival time. */
  lemma DelaysReachArrival(unit: Timespec, jobs: seq<Job>, k: nat)
    requires Normal(unit) && SortedByArrival(jobs) && k < |jobs|
    ensures SumOfDelays(unit, Gaps(jobs, k + 1)) == Total(unit) * jobs[k].arrival
  {
    DelaysAddUp(unit, Gaps(jobs, k + 1));
    SumOfGaps(jobs, k);
    MultiplyExact(unit, jobs[k].arrival);
  }
}
