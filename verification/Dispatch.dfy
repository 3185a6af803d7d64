/** The functions of main.c that dispatch on the strategy, over the actual schedulers: each does to the
    policy and to the kernel what module Policies says. */
module Dispatch {
  import opened Processes
  import opened HeapContents
  import opened Timers
  import opened EventTimer
  import opened Policies
  import opened IdealClock
  import R = RoundRobin
  import S = ShortestJob
  import P = PreemptiveShortestJob

  /** The functions of main.c that dispatch on the strategy. */
  class Dispatcher {
    const strategy: Strategy
    const kernel: Kernel
    const rr: R.RoundRobinScheduler
    const sjf: S.SjfScheduler
    const psjf: P.PsjfScheduler

    /** The memory of the schedulers, apart from the process records. */
    ghost function Objects(): set<object> {
      {rr, rr.pq, sjf, sjf.inactiveHeap, sjf.inactiveHeap.pq, psjf, psjf.pq, psjf.pq.pq}
    }

    /** The process records the policy holds on to. */
    ghost function Held(): set<ProcessInfo?>
      reads Objects()
    {
      match strategy
      case FIFO => {}
      case RR => set p | p in rr.Items()
      case SJF => (set p | p in sjf.inactiveHeap.Items()) + {sjf.activeProcess}
      case PSJF => set p | p in psjf.pq.Items()
    }

    ghost predicate Valid()
      reads Objects(), Held()
    {
      match strategy
      case FIFO => false
      case RR => rr.Valid()
      case SJF => sjf.Valid()
      case PSJF => psjf.Valid()
    }

    ghost function State(): Policy
      requires Valid()
      reads Objects(), Held()
    {
      match strategy
      case RR => RoundRobin(rr.Data())
      case SJF => Sjf(sjf.State())
      case PSJF => Psjf(psjf.State())
    }

    lemma ActiveIsHeld()
      requires Valid()
      ensures strategy == PSJF && psjf.activeProcess != null ==> psjf.activeProcess in Held()
    {
    }

    /** How many places are left. */
    ghost function Room(): int
      reads Objects()
    {
      match strategy
      case FIFO => 0
      case RR => rr.pq.Length - rr.processCount
      case SJF => sjf.inactiveHeap.pq.Length - sjf.inactiveHeap.heapSize
      case PSJF => psjf.pq.pq.Length - psjf.pq.heapSize
    }

    /** How many places the policy's array has. */
    ghost function Capacity(): nat {
      match strategy
      case FIFO => 0
      case RR => rr.pq.Length
      case SJF => sjf.inactiveHeap.pq.Length
      case PSJF => psjf.pq.pq.Length
    }

    /** The places that are not left are those that the policy occupies. */
    lemma RoomIsWhatIsLeft()
      requires Valid()
      ensures Room() == Capacity() - Slots(State())
    {
      match strategy
      case RR =>
      case SJF => SetIsAsLarge(sjf.inactiveHeap.Entries());
      case PSJF => SetIsAsLarge(psjf.pq.Entries());
    }

    /** Nothing has been added yet. */
    ghost predicate Unused(numProcess: nat)
      reads Objects()
    {
      rr.Unused(numProcess) && sjf.Unused(numProcess) && psjf.Unused(numProcess)
    }

    lemma StartsEmpty(numProcess: nat)
      requires Unused(numProcess) && strategy != FIFO
      ensures Valid() && State() == EmptyPolicy(strategy) && Room() == numProcess && Held() <= {null}
    {
      rr.StartsEmpty(numProcess);
      sjf.StartsEmpty(numProcess);
      psjf.StartsEmpty(numProcess);
    }

    constructor (strategy: Strategy, kernel: Kernel, rr: R.RoundRobinScheduler, sjf: S.SjfScheduler,
                 psjf: P.PsjfScheduler)
      ensures this.strategy == strategy && this.kernel == kernel
      ensures this.rr == rr && this.sjf == sjf && this.psjf == psjf
    {
      this.strategy, this.kernel, this.rr, this.sjf, this.psjf := strategy, kernel, rr, sjf, psjf;
    }

    /** The new pid is stored in a record the policy does not hold yet. */
    method StorePid(p: ProcessInfo, pid: int)
      requires Valid() && p !in Held()
      modifies p`pid
      ensures p.pid == pid && Valid() && State() == old(State()) && Held() == old(Held()) && Room() == old(Room())
    {
      p.pid := pid;
      match strategy
      case RR => assert rr.Data() == old(rr.Data());
      case SJF => assert sjf.State() == old(sjf.State());
      case PSJF => assert psjf.State() == old(psjf.State());
    }

    method AddToPolicy(p: ProcessInfo)
      requires Valid() && 0 < Room() && CanAdd(State()) && p.pid !in PidsOf(Members(State()))
      requires strategy == PSJF ==> psjf.lastContextSwitchTime <= p.arrivalTime
      modifies rr, rr.pq, sjf.inactiveHeap, sjf.inactiveHeap.pq, psjf, psjf.pq, psjf.pq.pq
      modifies if strategy == PSJF then {psjf.activeProcess} else {}
      ensures Valid() && State() == Add(old(State()), old(p.Snap()), p.arrivalTime)
      ensures Room() == old(Room()) - 1
      ensures Held() <= old(Held()) + {p}
    {
      match strategy
      case RR => rr.AddProcess(p);
      case SJF => sjf.AddProcess(p);
      case PSJF => psjf.AddProcess(p);
    }

    /** `fork_a_child` and `suspend_process` do not disturb the schedulers. */
    method ForkChild(pid: int)
      requires Valid() && pid !in kernel.prio
      modifies kernel
      ensures kernel.prio == Suspended(old(kernel.prio)[pid := High], pid)
      ensures Valid() && State() == old(State()) && Held() == old(Held()) && Room() == old(Room())
    {
      kernel.ForkSuspended(pid);
      match strategy
      case RR => assert rr.Data() == old(rr.Data());
      case SJF => assert sjf.State() == old(sjf.State());
      case PSJF => assert psjf.State() == old(psjf.State());
    }

    method ForkSuspended(p: ProcessInfo, pid: int)
      requires Valid() && p !in Held() && pid !in kernel.prio
      modifies p`pid, kernel
      ensures p.pid == pid && kernel.prio == Suspended(old(kernel.prio)[pid := High], pid)
      ensures Valid() && State() == old(State()) && Held() == old(Held()) && Room() == old(Room())
    {
      ForkChild(pid);
      StorePid(p, pid);
    }

    /** `add_process`; `pid` is what `fork_a_child` returns. */
    method AddProcess(p: ProcessInfo, pid: int)
      requires Valid() && 0 < Room() && CanAdd(State()) && p !in Held()
      requires pid !in kernel.prio && pid !in PidsOf(Members(State()))
      requires strategy == PSJF ==> psjf.lastContextSwitchTime <= p.arrivalTime
      modifies p`pid, kernel, rr, rr.pq, sjf.inactiveHeap, sjf.inactiveHeap.pq, psjf, psjf.pq, psjf.pq.pq
      modifies if strategy == PSJF then {psjf.activeProcess} else {}
      ensures Valid() && State() == Add(old(State()), Entry(p.id, old(p.remainingTime), pid), p.arrivalTime)
      ensures kernel.prio == Suspended(old(kernel.prio)[pid := High], pid)
      ensures Room() == old(Room()) - 1
      ensures Held() <= old(Held()) + {p}
    {
      ForkSuspended(p, pid);
      assert p.Snap() == Entry(p.id, old(p.remainingTime), pid);
      AddToPolicy(p);
    }

    /** PSJF with its first process forked and running. */
    method Begin(p: ProcessInfo, pid: int)
      requires Valid() && strategy == PSJF && State() == EmptyPolicy(PSJF) && 0 < Room() && p !in Held()
      requires pid !in kernel.prio
      modifies p`pid, kernel, psjf, psjf.pq, psjf.pq.pq
      ensures Valid() && kernel.prio == old(kernel.prio)[pid := High]
      ensures var e, t := Entry(p.id, old(p.remainingTime), pid), p.arrivalTime;
              State() == Psjf(P.PsjfState({e}, Some(e), t, t))
      ensures Room() == old(Room()) - 1 && Held() <= {p}
    {
      ForkSuspended(p, pid);
      assert p.Snap() == Entry(p.id, old(p.remainingTime), pid);
      psjf.Begin(kernel, p);
    }

    method RemoveCurrentProcess()
      requires Valid() && CanRemove(State())
      modifies rr, rr.pq, sjf, psjf, psjf.pq, psjf.pq.pq
      ensures Valid() && State() == Remove(old(State()))
      ensures Room() >= old(Room())
      ensures Held() <= old(Held()) + {null}
    {
      match strategy
      case RR => rr.RemoveCurrentProcess();
      case SJF => sjf.RemoveCurrentProcess();
      case PSJF => psjf.RemoveCurrentProcess();
    }

    method TimesliceOver()
      requires Valid() && strategy == RR
      modifies rr
      ensures Valid() && State() == RoundRobin(R.SliceOver(old(State()).ring))
      ensures Room() == old(Room())
      ensures Held() <= old(Held()) + {null}
    {
      rr.TimesliceOver();
    }

    method ContextSwitch()
      requires Valid() && CanSwitch(State()) && PidsOf(Members(State())) <= kernel.prio.Keys
      modifies kernel, sjf, sjf.inactiveHeap, sjf.inactiveHeap.pq, psjf
      ensures Valid() && State() == Switch(old(State()))
      ensures kernel.prio == SwitchPriorities(old(State()), old(kernel.prio))
      ensures Room() >= old(Room())
      ensures Held() <= old(Held()) + {null}
    {
      match strategy
      case RR =>
        forall i | 0 <= i < rr.processCount ensures rr.pq[i].pid in kernel.prio {
          assert rr.Data().pq[i] in Members(State());
        }
        rr.ContextSwitch(kernel);
      case SJF =>
        assert sjf.State().waiting <= Members(State());
        sjf.ContextSwitch(kernel);
      case PSJF =>
        psjf.ContextSwitch(kernel);
    }

    method SchedulerEmpty() returns (b: bool)
      requires Valid()
      ensures b <==> Empty(State())
    {
      match strategy
      case RR => b := rr.Empty();
      case SJF => b := sjf.Empty();
      case PSJF => b := psjf.Empty();
    }
  }
}
