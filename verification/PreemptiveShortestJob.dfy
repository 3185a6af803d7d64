/** PSJF.c: preemptive shortest job first.  The running process stays in the heap; its remaining time is
    brought up to date only when a process arrives, by lowering the key of the heap's root in place. */
module PreemptiveShortestJob {
  import opened Processes
  import opened Heaps
  import opened HeapContents

  datatype PsjfState = PsjfState(heap: set<Entry>, active: Option<Entry>, cur: int, last: int)

  /** `add_process_PSJF` asserts that the active process is the heap's top and dereferences it. */
  ghost predicate CanAdd(s: PsjfState) {
    s.heap != {} && s.active == Some(Least(s.heap))
  }

  /** The active process as charged for the time since the last context switch. */
  ghost function Charged(s: PsjfState, arrival: int): Entry
    requires s.active.Some?
  {
    s.active.value.(rem := s.active.value.rem - (arrival - s.last))
  }

  ghost function Added(s: PsjfState, e: Entry, arrival: int): PsjfState
    requires CanAdd(s)
  {
    PsjfState(s.heap - {s.active.value} + {Charged(s, arrival)} + {e}, Some(Charged(s, arrival)), arrival, s.last)
  }

  ghost predicate CanRemove(s: PsjfState) {
    s.heap != {} && s.active == Some(Least(s.heap))
  }

  ghost function Removed(s: PsjfState): PsjfState
    requires CanRemove(s)
  {
    PsjfState(s.heap - {s.active.value}, None, s.cur + s.active.value.rem, s.last)
  }

  ghost predicate Switches(s: PsjfState) {
    s.heap != {} && s.active != Some(Least(s.heap))
  }

  ghost function Switched(s: PsjfState): PsjfState {
    if Switches(s) then s.(active := Some(Least(s.heap)), last := s.cur) else s.(last := s.cur)
  }

  ghost function SwitchedPriorities(s: PsjfState, prio: map<int, Priority>): map<int, Priority> {
    if !Switches(s) then prio
    else Resumed(if s.active.Some? then Suspended(prio, s.active.value.pid) else prio, Least(s.heap).pid)
  }

  /** The stated invariant of PSJF.c, and that the clock has been synchronised. */
  ghost predicate Settled(s: PsjfState) {
    s.last == s.cur && (s.heap != {} ==> s.active == Some(Least(s.heap)))
  }

  lemma SwitchSettles(s: PsjfState)
    ensures Settled(Switched(s))
  {
  }

  /** Two arrivals at the same time, without a context switch between them, are handled right exactly if the
      first newcomer does not go before the running process and no time had passed: otherwise the second
      assertion fails, or the running process is charged twice. */
  lemma TwoArrivalsWithoutSwitch(s: PsjfState, e: Entry, f: Entry, arrival: int)
    requires CanAdd(s) && DistinctPids(s.heap) && e.pid !in PidsOf(s.heap) && s.last <= arrival
    ensures var once := Added(s, e, arrival);
            && (CanAdd(once) <==> !Before(e, Charged(s, arrival)))
            && (CanAdd(once) && Added(once, f, arrival).active == Some(Charged(s, arrival)) <==>
                !Before(e, Charged(s, arrival)) && arrival == s.last)
  {
    var once, c := Added(s, e, arrival), Charged(s, arrival);
    forall x | x in s.heap ensures x.pid in PidsOf(s.heap) {
    }
    forall x, y | x in once.heap && y in once.heap && x.pid == y.pid ensures x == y {
    }
    if !Before(e, c) {
      LeastIsUnique(c, Least(once.heap), once.heap);
    }
  }

  // ---------- The scheduler ----------

  class PsjfScheduler {
    const pq: Heap
    var activeProcess: ProcessInfo?
    var lastContextSwitchTime: int
    var currentTime: int

    ghost predicate Valid()
      reads this, pq, pq.pq, pq.Items()
    {
      && pq.Valid() && Unique(pq.Entries())
      && (activeProcess != null ==> activeProcess in pq.Items())
    }

    ghost function State(): PsjfState
      requires Valid()
      reads this, pq, pq.pq, pq.Items(), activeProcess
    {
      PsjfState(SetOf(pq.Entries()), if activeProcess == null then None else Some(activeProcess.Snap()),
                currentTime, lastContextSwitchTime)
    }

    /** Nothing has been added yet. */
    ghost predicate Unused(numProcess: nat)
      reads this, pq
    {
      && pq.heapSize == 0 && pq.pq.Length == numProcess
      && activeProcess == null && currentTime == 0 && lastContextSwitchTime == 0
    }

    lemma StartsEmpty(numProcess: nat)
      requires Unused(numProcess)
      ensures Valid() && State() == PsjfState({}, None, 0, 0) && pq.Items() == []
    {
    }

    constructor (numProcess: nat)
      ensures Valid() && State() == PsjfState({}, None, 0, 0)
      ensures fresh(pq) && fresh(pq.pq) && Unused(numProcess)
    {
      pq := new Heap(numProcess);
      activeProcess, lastContextSwitchTime, currentTime := null, 0, 0;
    }

    /** `active_process->remaining_time -= elapsed`, where the active process is the root of the heap. */
    method ChargeRoot(elapsed: int)
      requires Valid() && 0 < pq.heapSize && activeProcess == pq.pq[0] && 0 <= elapsed
      modifies activeProcess
      ensures Valid()
      ensures activeProcess.Snap() == old(activeProcess.Snap()).(rem := old(activeProcess.remainingTime) - elapsed)
      ensures pq.Entries() == old(pq.Entries())[0 := activeProcess.Snap()]
    {
      ghost var before := pq.Entries();
      activeProcess.remainingTime := activeProcess.remainingTime - elapsed;
      forall i | 0 < i < pq.heapSize ensures pq.pq[i] != activeProcess {
        assert before[0].pid != before[i].pid;
      }
      assert pq.Entries() == before[0 := activeProcess.Snap()];
      LoweredRootKeepsOrder(before, activeProcess.Snap());
    }

    /** The active process is the heap's top, as a pointer, exactly when its entry is the least one. */
    lemma TopIsLeast()
      requires Valid() && 0 < pq.heapSize
      ensures State().heap != {} && Least(State().heap) == pq.pq[0].Snap() == pq.Entries()[0]
      ensures activeProcess == pq.pq[0] <==> State().active == Some(Least(State().heap))
    {
      RootIsTheLeast(pq.Entries());
      if activeProcess != null {
        var i :| 0 <= i < pq.heapSize && pq.pq[i] == activeProcess;
        assert pq.Entries()[i] == activeProcess.Snap();
      }
    }

    lemma NonEmpty()
      requires Valid()
      ensures State().heap == {} <==> pq.heapSize == 0
    {
      if 0 < pq.heapSize {
        assert pq.Entries()[0] in State().heap;
      }
    }

    method Enqueue(p: ProcessInfo)
      requires Valid() && pq.heapSize < pq.pq.Length
      requires p.pid !in PidsOf(State().heap)
      modifies pq, pq.pq
      ensures Valid() && State() == old(State()).(heap := old(State().heap) + {p.Snap()})
      ensures pq.heapSize == old(pq.heapSize) + 1
      ensures forall q :: q in pq.Items() ==> q == p || q in old(pq.Items())
    {
      ghost var before := pq.Entries();
      forall x | x in before ensures x.pid != p.pid {
        assert x in SetOf(before);
      }
      ghost var _ := pq.Insert(p);
      SetAfterInsert(before, pq.Entries(), p.Snap());
    }

    method Dequeue()
      requires Valid() && activeProcess == null && 0 < pq.heapSize
      modifies pq, pq.pq
      ensures Valid() && State() == old(State()).(heap := old(State().heap) - {old(pq.Entries()[0])})
      ensures pq.heapSize == old(pq.heapSize) - 1
      ensures forall q :: q in pq.Items() ==> q in old(pq.Items())
    {
      ghost var before := pq.Entries();
      ghost var _ := pq.Pop();
      SetAfterRemove(before, pq.Entries(), before[0]);
    }

    method Preempt(kernel: Kernel, top: ProcessInfo)
      requires Valid() && 0 < pq.heapSize && top == pq.Top()
      requires PidsOf(State().heap) <= kernel.prio.Keys
      modifies this, kernel
      ensures Valid() && State() == old(State()).(active := Some(top.Snap()))
      ensures kernel.prio == Resumed(match old(State()).active
                                     case None => old(kernel.prio)
                                     case Some(a) => Suspended(old(kernel.prio), a.pid), top.pid)
      ensures kernel.resumed == old(kernel.resumed) + [top.pid]
    {
      TopIsLeast();
      assert top.Snap() in State().heap;
      SuspendActive(kernel);
      ResumeTop(kernel, top);
    }

    method ResumeTop(kernel: Kernel, top: ProcessInfo)
      requires Valid() && 0 < pq.heapSize && top == pq.Top() && top.pid in kernel.prio
      modifies this, kernel
      ensures Valid() && State() == old(State()).(active := Some(top.Snap()))
      ensures kernel.prio == Resumed(old(kernel.prio), top.pid) && kernel.resumed == old(kernel.resumed) + [top.pid]
    {
      activeProcess := top;
      kernel.Resume(top.pid);
    }

    method SuspendActive(kernel: Kernel)
      requires Valid() && PidsOf(State().heap) <= kernel.prio.Keys
      modifies kernel`prio
      ensures kernel.prio == match State().active
                             case None => old(kernel.prio)
                             case Some(a) => Suspended(old(kernel.prio), a.pid)
      ensures old(kernel.prio).Keys == kernel.prio.Keys
    {
      if activeProcess != null {
        ActiveIsKnown();
        kernel.Suspend(activeProcess.pid);
      }
    }

    lemma ActiveIsKnown()
      requires Valid() && activeProcess != null
      ensures activeProcess.Snap() in State().heap
    {
      var i :| 0 <= i < pq.heapSize && pq.pq[i] == activeProcess;
      assert pq.Entries()[i] == activeProcess.Snap();
    }

    /** The clock and key updates of `add_process_PSJF`. */
    method Charge(arrival: int)
      requires Valid() && CanAdd(State()) && lastContextSwitchTime <= arrival
      modifies this, activeProcess
      ensures Valid() && activeProcess == old(activeProcess)
      ensures State() == PsjfState(old(State().heap - {State().active.value}) + {Charged(old(State()), arrival)},
                                   Some(Charged(old(State()), arrival)), arrival, old(State().last))
    {
      NonEmpty();
      TopIsLeast();
      SetAfterLowering(pq.Entries(), Charged(State(), arrival));
      currentTime := arrival;
      ChargeRoot(currentTime - lastContextSwitchTime);
    }

    method AddProcess(p: ProcessInfo)
      requires Valid() && pq.heapSize < pq.pq.Length
      requires CanAdd(State()) && lastContextSwitchTime <= p.arrivalTime
      requires p.pid !in PidsOf(State().heap)
      modifies this, pq, pq.pq, activeProcess
      ensures Valid() && State() == Added(old(State()), old(p.Snap()), p.arrivalTime)
      ensures activeProcess == old(activeProcess) && pq.heapSize == old(pq.heapSize) + 1
      ensures forall q :: q in pq.Items() ==> q == p || q in old(pq.Items())
    {
      assert State().active.value in State().heap;
      Charge(p.arrivalTime);
      Enqueue(p);
    }

    /** The state from which PSJF works: its first process is queued, active and High, and both times are its
        arrival time. */
    method Begin(kernel: Kernel, p: ProcessInfo)
      requires Valid() && State() == PsjfState({}, None, 0, 0) && pq.heapSize < pq.pq.Length && p.pid in kernel.prio
      modifies this, pq, pq.pq, kernel
      ensures Valid() && State() == PsjfState({p.Snap()}, Some(p.Snap()), p.arrivalTime, p.arrivalTime)
      ensures kernel.prio == Resumed(old(kernel.prio), p.pid) && pq.heapSize == old(pq.heapSize) + 1
      ensures forall q :: q in pq.Items() ==> q == p
    {
      NonEmpty();
      Enqueue(p);
      SetTimes(p.arrivalTime);
      assert pq.Top() in pq.Items();
      ResumeTop(kernel, p);
    }

    method SetTimes(t: int)
      requires Valid()
      modifies this`currentTime, this`lastContextSwitchTime
      ensures Valid() && State() == old(State()).(cur := t, last := t)
    {
      currentTime, lastContextSwitchTime := t, t;
    }

    method RemoveCurrentProcess()
      requires Valid() && CanRemove(State())
      modifies this, pq, pq.pq
      ensures Valid() && State() == Removed(old(State()))
      ensures pq.heapSize == old(pq.heapSize) - 1
      ensures forall q :: q in pq.Items() ==> q in old(pq.Items())
    {
      NonEmpty();
      TopIsLeast();
      currentTime := currentTime + activeProcess.remainingTime;
      activeProcess := null;
      Dequeue();
    }

    /** The body of `context_switch_PSJF` up to the clock update. */
    method Reconsider(kernel: Kernel)
      requires Valid() && PidsOf(State().heap) <= kernel.prio.Keys
      modifies this, kernel
      ensures Valid() && State() == Switched(old(State())).(last := old(State().last))
      ensures kernel.prio == SwitchedPriorities(old(State()), old(kernel.prio))
      ensures kernel.resumed == old(kernel.resumed) + (if Switches(old(State())) then [Least(State().heap).pid] else [])
    {
      NonEmpty();
      if !pq.Empty() {
        TopIsLeast();
        if activeProcess != pq.Top() {
          Preempt(kernel, pq.Top());
        }
      }
    }

    method StampSwitch()
      requires Valid()
      modifies this`lastContextSwitchTime
      ensures Valid() && State() == old(State()).(last := old(State().cur))
    {
      lastContextSwitchTime := currentTime;
    }

    method ContextSwitch(kernel: Kernel)
      requires Valid() && PidsOf(State().heap) <= kernel.prio.Keys
      modifies this, kernel
      ensures Valid() && State() == Switched(old(State()))
      ensures kernel.prio == SwitchedPriorities(old(State()), old(kernel.prio))
      ensures kernel.resumed == old(kernel.resumed) + (if Switches(old(State())) then [Least(State().heap).pid] else [])
    {
      Reconsider(kernel);
      StampSwitch();
    }

    method Empty() returns (b: bool)
      requires Valid()
      ensures b <==> State().heap == {} && State().active == None
    {
      NonEmpty();
      b := activeProcess == null && pq.Empty();
    }
  }
}
