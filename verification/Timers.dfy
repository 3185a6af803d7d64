/** The arrival queue and the timer of main.c, in time units: two logical countdowns simulated with one
    hardware timer.  A `Clock` holds the stored countdowns, the value the hardware timer was armed with and
    the time at which it was armed; both countdowns are relative to that time. */
module Timers {
  import opened Processes

  const RR_TIMES_OF_UNIT: nat := 500

  datatype Job = Job(arrival: nat, needed: nat)

  datatype EventType = TimesliceOver | ProcessArrival

  /** `raised` records the SIGALRM that main raises itself when the first arrival is immediate. */
  datatype Clock = Clock(ptr: nat, arr: int, slice: int, armedAt: int, armed: int, raised: bool)

  ghost predicate SortedByArrival(jobs: seq<Job>) {
    forall i, j :: 0 <= i <= j < |jobs| ==> jobs[i].arrival <= jobs[j].arrival
  }

  /** `timeunits_until_next_arrival` */
  function Gap(jobs: seq<Job>, ptr: nat): int
    requires ptr < |jobs|
  {
    if ptr == 0 then jobs[0].arrival else jobs[ptr].arrival - jobs[ptr - 1].arrival
  }

  /** The value `set_timer` passes to the kernel; zero disarms the timer. */
  function ArmValue(c: Clock, n: nat, rr: bool): int {
    if !rr then c.arr
    else if c.ptr == n then c.slice
    else if c.arr < c.slice then c.arr
    else c.slice
  }

  function Armed(c: Clock, n: nat, rr: bool, now: int): Clock {
    c.(armedAt := now, armed := ArmValue(c, n, rr), raised := false)
  }

  function InitialClock(jobs: seq<Job>, rr: bool): Clock
    requires jobs != []
  {
    var c := Clock(0, Gap(jobs, 0), if rr then RR_TIMES_OF_UNIT else 0, 0, 0, false);
    Armed(c, |jobs|, rr, 0).(raised := Gap(jobs, 0) == 0)
  }

  predicate Ticking(c: Clock) {
    c.raised || 0 < c.armed
  }

  function FireTime(c: Clock): int {
    if c.raised then c.armedAt else c.armedAt + c.armed
  }

  /** `get_expire_reason` */
  function ExpireReason(c: Clock, n: nat, rr: bool): EventType {
    if !rr then ProcessArrival
    else if c.ptr == n then TimesliceOver
    else if c.arr < c.slice then ProcessArrival
    else TimesliceOver
  }

  /** The pending alarm has been delivered. */
  function Delivered(c: Clock): Clock {
    c.(raised := false)
  }

  /** `subtract_time_passed`, once the alarm has been delivered */
  function TimePassed(c: Clock, n: nat, rr: bool): Clock {
    var d := Delivered(c);
    if !rr || c.ptr == n then d
    else if c.arr < c.slice then d.(slice := c.slice - c.arr, arr := 0)
    else d.(arr := c.arr - c.slice, slice := 0)
  }

  /** Where the inner loop of an arrival event stops. */
  function GroupEnd(jobs: seq<Job>, ptr: nat): (end: nat)
    requires ptr < |jobs|
    ensures ptr < end <= |jobs|
    decreases |jobs| - ptr
  {
    if ptr + 1 < |jobs| && Gap(jobs, ptr + 1) == 0 then GroupEnd(jobs, ptr + 1) else ptr + 1
  }

  /** `arrival_time` after the inner loop: it keeps its last value, zero, when the queue has run dry. */
  function NextGap(jobs: seq<Job>, ptr: nat): int
    requires ptr <= |jobs|
  {
    if ptr < |jobs| then Gap(jobs, ptr) else 0
  }

  function AfterArrival(c: Clock, jobs: seq<Job>): Clock
    requires c.ptr < |jobs|
  {
    c.(ptr := GroupEnd(jobs, c.ptr), arr := NextGap(jobs, GroupEnd(jobs, c.ptr)))
  }

  function AfterSlice(c: Clock): Clock {
    c.(slice := RR_TIMES_OF_UNIT)
  }

  /** One TIMER_EXPIRED wake-up, as far as the timer is concerned. */
  function AfterTimer(jobs: seq<Job>, rr: bool, c: Clock): Clock
    requires rr || c.ptr < |jobs|
  {
    var passed := TimePassed(c, |jobs|, rr);
    var handled := if ExpireReason(c, |jobs|, rr) == TimesliceOver || c.ptr >= |jobs| then AfterSlice(passed)
                   else AfterArrival(passed, jobs);
    Armed(handled, |jobs|, rr, FireTime(c))
  }

  // ---------- Two timers on one ----------

  ghost predicate IsTie(jobs: seq<Job>, i: nat) {
    i < |jobs| && 0 < jobs[i].arrival && jobs[i].arrival % 500 == 0
  }

  /** No positive arrival time coincides with the end of a time slice. */
  ghost predicate NoTies(jobs: seq<Job>) {
    forall i :: !IsTie(jobs, i)
  }

  lemma NoTiesInNumbers(jobs: seq<Job>)
    ensures NoTies(jobs) <==> forall i :: 0 <= i < |jobs| && 0 < jobs[i].arrival ==> jobs[i].arrival % 500 != 0
  {
    if forall i :: 0 <= i < |jobs| && 0 < jobs[i].arrival ==> jobs[i].arrival % 500 != 0 {
      forall i ensures !IsTie(jobs, i) {
      }
    } else {
      var i :| 0 <= i < |jobs| && 0 < jobs[i].arrival && jobs[i].arrival % 500 == 0;
      assert IsTie(jobs, i);
    }
  }

  /** `slices` time slices have ended.  The countdowns describe the two logical timers exactly: the next
      arrival is due at its arrival time and the next slice ends at a multiple of 500. */
  ghost predicate InStep(jobs: seq<Job>, rr: bool, c: Clock, slices: nat) {
    && c.ptr <= |jobs| && jobs != []
    && 0 <= c.armedAt
    && c.armed == ArmValue(c, |jobs|, rr)
    && (c.raised ==> c.ptr == 0 && c.armedAt == 0 && c.arr == 0 && jobs[0].arrival == 0 && slices == 0)
    && (c.ptr < |jobs| ==> c.armedAt + c.arr == jobs[c.ptr].arrival && (c.raised || 0 < c.arr))
    && (c.ptr == |jobs| ==> c.arr == 0)
    && (0 < c.ptr ==> jobs[c.ptr - 1].arrival <= c.armedAt)
    && (rr ==> c.armedAt + c.slice == RR_TIMES_OF_UNIT * (slices + 1) && 0 < c.slice <= RR_TIMES_OF_UNIT)
    && (!rr ==> slices == 0)
  }

  lemma StartsInStep(jobs: seq<Job>, rr: bool)
    requires jobs != [] && SortedByArrival(jobs)
    ensures InStep(jobs, rr, InitialClock(jobs, rr), 0)
  {
  }

  /** The inner loop admits exactly the maximal group of processes that share an arrival time. */
  lemma {:induction false} GroupIsMaximal(jobs: seq<Job>, ptr: nat)
    requires ptr < |jobs| && SortedByArrival(jobs)
    ensures forall i :: ptr <= i < GroupEnd(jobs, ptr) ==> jobs[i].arrival == jobs[ptr].arrival
    ensures forall i :: GroupEnd(jobs, ptr) <= i < |jobs| ==> jobs[ptr].arrival < jobs[i].arrival
    decreases |jobs| - ptr
  {
    if ptr + 1 < |jobs| && Gap(jobs, ptr + 1) == 0 {
      GroupIsMaximal(jobs, ptr + 1);
    }
  }

  /** The tie: both countdowns of a round-robin clock are about to reach zero together. */
  predicate Tied(jobs: seq<Job>, rr: bool, c: Clock) {
    rr && c.ptr < |jobs| && c.arr == c.slice
  }

  lemma TiedMeansTie(jobs: seq<Job>, rr: bool, c: Clock, slices: nat)
    requires InStep(jobs, rr, c, slices) && Tied(jobs, rr, c)
    ensures IsTie(jobs, c.ptr)
  {
    assert jobs[c.ptr].arrival == RR_TIMES_OF_UNIT * (slices + 1);
  }

  function SlicesAfter(c: Clock, n: nat, rr: bool, slices: nat): nat {
    if ExpireReason(c, n, rr) == TimesliceOver then slices + 1 else slices
  }

  /** Unless the timers tie, a wake-up comes exactly when one of the two logical timers is due, and
      afterwards the countdowns are exact again. */
  lemma StaysInStep(jobs: seq<Job>, rr: bool, c: Clock, slices: nat)
    requires SortedByArrival(jobs) && InStep(jobs, rr, c, slices) && Ticking(c) && !Tied(jobs, rr, c)
    ensures rr || c.ptr < |jobs|
    ensures InStep(jobs, rr, AfterTimer(jobs, rr, c), SlicesAfter(c, |jobs|, rr, slices))
    ensures ExpireReason(c, |jobs|, rr) == ProcessArrival ==>
              c.ptr < |jobs| && FireTime(c) == jobs[c.ptr].arrival
    ensures ExpireReason(c, |jobs|, rr) == TimesliceOver ==>
              FireTime(c) == RR_TIMES_OF_UNIT * (slices + 1) && (c.ptr < |jobs| ==> FireTime(c) < jobs[c.ptr].arrival)
    ensures AfterTimer(jobs, rr, c).armedAt == FireTime(c)
    ensures rr || AfterTimer(jobs, rr, c).ptr < |jobs| ==> Ticking(AfterTimer(jobs, rr, c))
  {
    if ExpireReason(c, |jobs|, rr) == ProcessArrival {
      GroupIsMaximal(jobs, c.ptr);
    }
  }

  /** On a tie the slice wins, the arrival countdown becomes zero and the timer is disarmed for good. */
  lemma TieDisarms(jobs: seq<Job>, c: Clock)
    requires Tied(jobs, true, c) && c.ptr < |jobs|
    ensures !Ticking(AfterTimer(jobs, true, c)) && AfterTimer(jobs, true, c).ptr == c.ptr
  {
  }

  /** The clock after `n` wake-ups of a round-robin timer, or None if it stopped before. */
  ghost function Ticks(jobs: seq<Job>, c: Clock, n: nat): Option<Clock>
    decreases n
  {
    if n == 0 then Some(c)
    else if Ticking(c) then Ticks(jobs, AfterTimer(jobs, true, c), n - 1)
    else None
  }

  lemma {:induction false} NoTiesKeepTicking(jobs: seq<Job>, c: Clock, slices: nat, n: nat)
    requires SortedByArrival(jobs) && NoTies(jobs) && InStep(jobs, true, c, slices) && Ticking(c)
    ensures Ticks(jobs, c, n).Some?
    decreases n
  {
    if 0 < n {
      if Tied(jobs, true, c) {
        TiedMeansTie(jobs, true, c, slices);
      }
      StaysInStep(jobs, true, c, slices);
      NoTiesKeepTicking(jobs, AfterTimer(jobs, true, c), SlicesAfter(c, |jobs|, true, slices), n - 1);
    }
  }

  lemma {:induction false} TieStopsTheTimer(jobs: seq<Job>, c: Clock, slices: nat, i: nat) returns (n: nat)
    requires SortedByArrival(jobs) && InStep(jobs, true, c, slices) && Ticking(c)
    requires IsTie(jobs, i) && c.ptr <= i
    ensures Ticks(jobs, c, n) == None
    decreases i - c.ptr + jobs[i].arrival / RR_TIMES_OF_UNIT - slices
  {
    var next := AfterTimer(jobs, true, c);
    if Tied(jobs, true, c) {
      TieDisarms(jobs, c);
      n := 2;
      assert Ticks(jobs, next, 1) == None;
    } else {
      var m := jobs[i].arrival / RR_TIMES_OF_UNIT;
      assert jobs[i].arrival == RR_TIMES_OF_UNIT * m;
      StaysInStep(jobs, true, c, slices);
      GroupIsMaximal(jobs, c.ptr);
      if ExpireReason(c, |jobs|, true) == ProcessArrival {
        assert jobs[c.ptr].arrival < jobs[i].arrival;
      } else {
        assert slices + 1 < m;
      }
      n := TieStopsTheTimer(jobs, next, SlicesAfter(c, |jobs|, true, slices), i);
      n := n + 1;
    }
  }

  /** The round-robin timer keeps going exactly when no positive arrival time is a multiple of 500. */
  lemma TimerRunsExactlyWithoutTies(jobs: seq<Job>)
    requires jobs != [] && SortedByArrival(jobs)
    ensures (forall n :: Ticks(jobs, InitialClock(jobs, true), n).Some?) <==>
            (forall i :: 0 <= i < |jobs| && 0 < jobs[i].arrival ==> jobs[i].arrival % 500 != 0)
  {
    var c := InitialClock(jobs, true);
    StartsInStep(jobs, true);
    NoTiesInNumbers(jobs);
    if NoTies(jobs) {
      forall n ensures Ticks(jobs, c, n).Some? {
        NoTiesKeepTicking(jobs, c, 0, n);
      }
    } else {
      var i :| IsTie(jobs, i);
      var n := TieStopsTheTimer(jobs, c, 0, i);
    }
  }
}
