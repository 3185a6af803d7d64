/** The process records of scheduler.h and the part of the kernel the scheduler talks to. */
module Processes {

  datatype Option<+T> = None | Some(value: T)

  datatype Priority = Low | High

  datatype Strategy = FIFO | RR | SJF | PSJF

  /** What a scheduling decision can see of one process: its position in the input, its remaining time
      and its pid. */
  datatype Entry = Entry(id: nat, rem: int, pid: int)

  /** `heap_element_lt`: by remaining time, then by pid. */
  predicate Before(lhs: Entry, rhs: Entry) {
    if lhs.rem == rhs.rem then lhs.pid < rhs.pid else lhs.rem < rhs.rem
  }

  predicate AtMost(lhs: Entry, rhs: Entry) {
    !Before(rhs, lhs)
  }

  ghost predicate DistinctPids(s: set<Entry>) {
    forall x, y :: x in s && y in s && x.pid == y.pid ==> x == y
  }

  ghost predicate IsLeast(e: Entry, s: set<Entry>) {
    e in s && forall x :: x in s ==> AtMost(e, x)
  }

  ghost function PidsOf(s: set<Entry>): set<int> {
    set e | e in s :: e.pid
  }

  lemma PidsWithout(s: set<Entry>, e: Entry)
    requires DistinctPids(s) && e in s
    ensures PidsOf(s - {e}) == PidsOf(s) - {e.pid}
  {
  }

  lemma PidsWith(s: set<Entry>, e: Entry)
    ensures PidsOf(s + {e}) == PidsOf(s) + {e.pid}
  {
  }

  lemma LeastIsUnique(e: Entry, f: Entry, s: set<Entry>)
    requires DistinctPids(s) && IsLeast(e, s) && IsLeast(f, s)
    ensures e == f
  {
    assert AtMost(e, f) && AtMost(f, e);
  }

  lemma {:induction false} LeastExists(s: set<Entry>) returns (e: Entry)
    requires s != {}
    ensures IsLeast(e, s)
    decreases s
  {
    var x :| x in s;
    if s == {x} {
      e := x;
    } else {
      assert s == {x} + (s - {x});
      var y := LeastExists(s - {x});
      e := if Before(x, y) then x else y;
      assert forall z :: z in s ==> z == x || z in s - {x};
    }
  }

  /** `struct ProcessInfo`.  `id` is the record's offset in `all_process_info`. */
  class ProcessInfo {
    const id: nat
    const arrivalTime: nat
    const timeNeeded: nat
    var remainingTime: int
    var pid: int

    /** `read_single_entry`, once the numbers have been read. */
    constructor (id: nat, arrivalTime: nat, timeNeeded: nat)
      ensures this.id == id && this.arrivalTime == arrivalTime && this.timeNeeded == timeNeeded
      ensures remainingTime == timeNeeded && pid == 0
    {
      this.id, this.arrivalTime, this.timeNeeded := id, arrivalTime, timeNeeded;
      remainingTime, pid := timeNeeded, 0;
    }

    ghost function Snap(): Entry
      reads this
    {
      Entry(id, remainingTime, pid)
    }
  }

  /** The snapshots of a sequence of records. */
  ghost function Snaps(ps: seq<ProcessInfo?>): (s: seq<Entry>)
    requires null !in ps
    reads ps
    ensures |s| == |ps|
    ensures forall i :: 0 <= i < |ps| ==> s[i] == ps[i].Snap()
  {
    seq(|ps|, i requires 0 <= i < |ps| && null !in ps reads ps => ps[i].Snap())
  }

  /** `suspend_process` and `resume_process` as functions on the kernel's priorities. */
  function Suspended(prio: map<int, Priority>, pid: int): map<int, Priority> {
    prio[pid := Low]
  }

  function Resumed(prio: map<int, Priority>, pid: int): map<int, Priority> {
    prio[pid := High]
  }

  /** The kernel: the scheduling priority of every child that has been forked and not yet reaped.
      `sched_setscheduler` fails on an unknown pid, hence the preconditions. */
  class Kernel {
    var prio: map<int, Priority>
    /** The pids passed to `resume_process` so far. */
    ghost var resumed: seq<int>

    constructor ()
      ensures prio == map[] && resumed == []
    {
      prio, resumed := map[], [];
    }

    /** A child starts with its parent's real-time priority, so it could run at once. */
    method Fork(pid: int)
      requires pid !in prio
      modifies this`prio
      ensures prio == old(prio)[pid := High]
    {
      prio := prio[pid := High];
    }

    method Suspend(pid: int)
      requires pid in prio
      modifies this`prio
      ensures prio == Suspended(old(prio), pid)
    {
      prio := prio[pid := Low];
    }

    method Resume(pid: int)
      requires pid in prio
      modifies this
      ensures prio == Resumed(old(prio), pid) && resumed == old(resumed) + [pid]
    {
      prio := prio[pid := High];
      resumed := resumed + [pid];
    }

    /** Forking a child and suspending it before it can run. */
    method ForkSuspended(pid: int)
      requires pid !in prio
      modifies this`prio
      ensures prio == Suspended(old(prio)[pid := High], pid)
    {
      Fork(pid);
      Suspend(pid);
    }

    method Exit(pid: int)
      requires pid in prio
      modifies this`prio
      ensures prio == old(prio) - {pid}
    {
      prio := prio - {pid};
    }
  }
}
