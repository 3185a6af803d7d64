/** SJF.c: a heap of waiting processes and a separate slot for the running one; no preemption. */
module ShortestJob {
  import opened Processes
  import opened Heaps
  import opened HeapContents

  datatype SjfState = SjfState(waiting: set<Entry>, active: Option<Entry>)

  ghost function Added(s: SjfState, e: Entry): SjfState {
    s.(waiting := s.waiting + {e})
  }

  ghost function Removed(s: SjfState): SjfState {
    s.(active := None)
  }

  /** `context_switch_SJF`; with nobody active and nobody waiting the C code pops an empty heap. */
  ghost predicate CanSwitch(s: SjfState) {
    s.active.Some? || s.waiting != {}
  }

  ghost function Switched(s: SjfState): SjfState
    requires CanSwitch(s)
  {
    if s.active.Some? then s
    else SjfState(s.waiting - {Least(s.waiting)}, Some(Least(s.waiting)))
  }

  ghost function SwitchedPriorities(s: SjfState, prio: map<int, Priority>): map<int, Priority>
    requires CanSwitch(s)
  {
    if s.active.Some? then prio else Resumed(prio, Least(s.waiting).pid)
  }

  // ---------- Shortest job first is optimal ----------

  /** The sum of the completion times when the processes run one after the other. */
  function TotalCompletion(start: int, s: seq<Entry>): int
    decreases |s|
  {
    if s == [] then 0 else start + s[0].rem + TotalCompletion(start + s[0].rem, s[1..])
  }

  lemma {:induction false} MoveToFrontHelps(start: int, t: seq<Entry>, j: nat)
    requires j < |t| && forall i :: 0 <= i < j ==> t[j].rem <= t[i].rem
    ensures TotalCompletion(start, [t[j]] + (t[..j] + t[j + 1..])) <= TotalCompletion(start, t)
    decreases j
  {
    if j == 0 {
      assert [t[0]] + (t[..0] + t[1..]) == t;
    } else {
      var first, m, u := t[0], t[j], t[1..];
      var rest := u[..j - 1] + u[j..];
      MoveToFrontHelps(start + first.rem, u, j - 1);
      assert t[..j] + t[j + 1..] == [first] + rest;
      assert ([m] + ([first] + rest))[1..] == [first] + rest;
      assert ([first] + rest)[1..] == rest && ([m] + rest)[1..] == rest;
    }
  }

  lemma LeastOfPermutation(s: seq<Entry>, t: seq<Entry>) returns (j: nat)
    requires Sorted(s) && s != [] && multiset(s) == multiset(t)
    ensures j < |t| && t[j] == s[0] && forall i :: 0 <= i < |t| ==> t[j].rem <= t[i].rem
  {
    assert s[0] in multiset(t);
    j :| 0 <= j < |t| && t[j] == s[0];
    forall i | 0 <= i < |t| ensures t[j].rem <= t[i].rem {
      assert t[i] in multiset(t);
      SortedHead(s, t[i]);
    }
  }

  /** Moving the least process of `t` to the front leaves a permutation of the rest of `s` behind it. */
  lemma LeastToFront(start: int, s: seq<Entry>, t: seq<Entry>) returns (rest: seq<Entry>)
    requires Sorted(s) && s != [] && multiset(s) == multiset(t)
    ensures multiset(s[1..]) == multiset(rest)
    ensures TotalCompletion(start, [s[0]] + rest) <= TotalCompletion(start, t)
  {
    var j := LeastOfPermutation(s, t);
    rest := t[..j] + t[j + 1..];
    MoveToFrontHelps(start, t, j);
    WithoutAt(t, j);
    SplitHead(s);
  }

  lemma HeadCompletes(start: int, m: Entry, rest: seq<Entry>)
    ensures TotalCompletion(start, [m] + rest) == start + m.rem + TotalCompletion(start + m.rem, rest)
  {
    assert ([m] + rest)[1..] == rest;
  }

  /** No order of the same processes has a smaller total completion time than the sorted one. */
  lemma {:induction false} SortedIsOptimal(start: int, s: seq<Entry>, t: seq<Entry>)
    requires Sorted(s) && multiset(s) == multiset(t)
    ensures TotalCompletion(start, s) <= TotalCompletion(start, t)
    decreases |s|
  {
    if s == [] {
      assert |t| == |multiset(t)| == |multiset(s)| == 0;
    } else {
      var rest := LeastToFront(start, s, t);
      SortedIsOptimal(start + s[0].rem, s[1..], rest);
      HeadCompletes(start, s[0], rest);
    }
  }

  /** `order` has run, `waiting` has not, together they are `all`. */
  ghost predicate RanInOrder(order: seq<Entry>, waiting: set<Entry>, all: set<Entry>) {
    && DistinctPids(all) && SetOf(order) + waiting == all && SetOf(order) !! waiting
    && Unique(order) && Sorted(order)
    && forall x, y :: x in order && y in waiting ==> AtMost(x, y)
  }

  lemma RunLeastNext(order: seq<Entry>, waiting: set<Entry>, all: set<Entry>)
    requires RanInOrder(order, waiting, all) && waiting != {}
    ensures RanInOrder(order + [Least(waiting)], waiting - {Least(waiting)}, all)
  {
    var e := Least(waiting);
    forall i | 0 <= i < |order| ensures order[i].pid != e.pid {
      assert order[i] in SetOf(order);
    }
    assert SetOf(order + [e]) == SetOf(order) + {e};
  }

  /** What the kernel has seen since `prio` and `resumed`: the processes in `order` were resumed, one after the other,
      and have exited. */
  ghost predicate KernelSaw(prio: map<int, Priority>, prio': map<int, Priority>, resumed: seq<int>, resumed': seq<int>,
                            order: seq<Entry>, gone: set<Entry>) {
    && prio' == prio - PidsOf(gone) && |resumed'| == |resumed| + |order|
    && forall i :: 0 <= i < |order| ==> resumed'[|resumed| + i] == order[i].pid
  }

  lemma KernelSeesNext(prio: map<int, Priority>, prio': map<int, Priority>, resumed: seq<int>, resumed': seq<int>,
                       order: seq<Entry>, all: set<Entry>, waiting: set<Entry>, e: Entry)
    requires KernelSaw(prio, prio', resumed, resumed', order, all - waiting) && e in waiting && waiting <= all
    ensures KernelSaw(prio, prio' - {e.pid}, resumed, resumed' + [e.pid], order + [e], all - (waiting - {e}))
  {
    assert all - (waiting - {e}) == (all - waiting) + {e};
    PidsWith(all - waiting, e);
  }

  lemma InOrderIsOptimal(start: int, order: seq<Entry>, all: set<Entry>)
    requires RanInOrder(order, {}, all)
    ensures SetOf(order) == all && Unique(order) && Sorted(order)
    ensures forall t :: SetOf(t) == all && Unique(t) ==>
              TotalCompletion(start, order) <= TotalCompletion(start, t)
  {
    forall t | SetOf(t) == all && Unique(t)
      ensures TotalCompletion(start, order) <= TotalCompletion(start, t)
    {
      SameSetSameContents(order, t);
      SortedIsOptimal(start, order, t);
    }
  }

  // ---------- The scheduler ----------

  class SjfScheduler {
    const inactiveHeap: Heap
    var activeProcess: ProcessInfo?

    ghost predicate Valid()
      reads this, inactiveHeap, inactiveHeap.pq, inactiveHeap.Items()
    {
      inactiveHeap.Valid() && Unique(inactiveHeap.Entries())
    }

    ghost function State(): SjfState
      requires Valid()
      reads this, inactiveHeap, inactiveHeap.pq, inactiveHeap.Items(), activeProcess
    {
      SjfState(SetOf(inactiveHeap.Entries()), if activeProcess == null then None else Some(activeProcess.Snap()))
    }

    /** Nothing has been added yet. */
    ghost predicate Unused(numProcess: nat)
      reads this, inactiveHeap
    {
      inactiveHeap.heapSize == 0 && inactiveHeap.pq.Length == numProcess && activeProcess == null
    }

    lemma StartsEmpty(numProcess: nat)
      requires Unused(numProcess)
      ensures Valid() && State() == SjfState({}, None) && inactiveHeap.Items() == []
    {
    }

    constructor (numProcess: nat)
      ensures Valid() && State() == SjfState({}, None)
      ensures fresh(inactiveHeap) && fresh(inactiveHeap.pq) && Unused(numProcess)
    {
      inactiveHeap := new Heap(numProcess);
      activeProcess := null;
    }

    method AddProcess(p: ProcessInfo)
      requires Valid() && inactiveHeap.heapSize < inactiveHeap.pq.Length
      requires p.pid !in PidsOf(State().waiting)
      modifies inactiveHeap, inactiveHeap.pq
      ensures Valid() && State() == Added(old(State()), p.Snap())
      ensures inactiveHeap.heapSize == old(inactiveHeap.heapSize) + 1
      ensures forall q :: q in inactiveHeap.Items() ==>
                q == p || q in old(inactiveHeap.Items())
    {
      ghost var before := inactiveHeap.Entries();
      ghost var _ := inactiveHeap.Insert(p);
      forall x | x in before ensures x.pid != p.pid {
        assert x in SetOf(before);
      }
      SetAfterInsert(before, inactiveHeap.Entries(), p.Snap());
    }

    method RemoveCurrentProcess()
      requires Valid()
      modifies this
      ensures Valid() && State() == Removed(old(State()))
    {
      activeProcess := null;
    }

    /** `heap_top` followed by `heap_pop`. */
    method TakeShortest() returns (p: ProcessInfo)
      requires Valid() && State().waiting != {}
      modifies inactiveHeap, inactiveHeap.pq
      ensures Valid() && inactiveHeap.heapSize == old(inactiveHeap.heapSize) - 1
      ensures p.Snap() == Least(old(State().waiting)) == old(inactiveHeap.Entries()[0])
      ensures SetOf(inactiveHeap.Entries()) == old(State().waiting) - {p.Snap()}
      ensures p in old(inactiveHeap.Items())
      ensures forall q :: q in inactiveHeap.Items() ==>
                q in old(inactiveHeap.Items())
    {
      ghost var before := inactiveHeap.Entries();
      RootIsTheLeast(before);
      p := inactiveHeap.Top();
      ghost var _ := inactiveHeap.Pop();
      SetAfterRemove(before, inactiveHeap.Entries(), before[0]);
    }

    /** The branch of `context_switch_SJF` that starts the shortest waiting process. */
    method StartShortest(kernel: Kernel)
      requires Valid() && activeProcess == null && State().waiting != {}
      requires PidsOf(State().waiting) <= kernel.prio.Keys
      modifies this, inactiveHeap, inactiveHeap.pq, kernel
      ensures Valid() && State() == Switched(old(State()))
      ensures kernel.prio == SwitchedPriorities(old(State()), old(kernel.prio))
      ensures kernel.resumed == old(kernel.resumed) + [Least(old(State().waiting)).pid]
      ensures inactiveHeap.heapSize == old(inactiveHeap.heapSize) - 1
      ensures activeProcess != null && activeProcess.Snap() == old(inactiveHeap.Entries()[0])
      ensures activeProcess in old(inactiveHeap.Items())
      ensures forall q :: q in inactiveHeap.Items() ==>
                q in old(inactiveHeap.Items())
    {
      var top := TakeShortest();
      Activate(kernel, top);
    }

    method Activate(kernel: Kernel, p: ProcessInfo)
      requires Valid() && p.pid in kernel.prio
      modifies this, kernel
      ensures Valid() && activeProcess == p && State() == old(State()).(active := Some(p.Snap()))
      ensures kernel.prio == Resumed(old(kernel.prio), p.pid) && kernel.resumed == old(kernel.resumed) + [p.pid]
    {
      activeProcess := p;
      kernel.Resume(p.pid);
    }

    method ContextSwitch(kernel: Kernel)
      requires Valid() && CanSwitch(State())
      requires PidsOf(State().waiting) <= kernel.prio.Keys
      modifies this, inactiveHeap, inactiveHeap.pq, kernel
      ensures Valid() && State() == Switched(old(State()))
      ensures kernel.prio == SwitchedPriorities(old(State()), old(kernel.prio))
      ensures old(activeProcess) == null ==> kernel.resumed == old(kernel.resumed) + [activeProcess.pid]
      ensures old(activeProcess) != null ==> kernel.resumed == old(kernel.resumed)
      ensures activeProcess != null && inactiveHeap.heapSize <= old(inactiveHeap.heapSize)
      ensures activeProcess == old(activeProcess) || activeProcess in old(inactiveHeap.Items())
      ensures forall q :: q in inactiveHeap.Items() ==>
                q in old(inactiveHeap.Items())
    {
      if activeProcess != null {
        return;
      }
      StartShortest(kernel);
    }

    method Empty() returns (b: bool)
      requires Valid()
      ensures b <==> State().waiting == {} && State().active == None
    {
      if inactiveHeap.heapSize > 0 {
        assert inactiveHeap.Entries()[0] in State().waiting;
      }
      b := inactiveHeap.Empty() && activeProcess == null;
    }

    /** The active child exits and is removed. */
    method Reap(kernel: Kernel)
      requires Valid() && activeProcess != null && activeProcess.pid in kernel.prio
      modifies this, kernel
      ensures Valid() && activeProcess == null && State() == Removed(old(State()))
      ensures kernel.prio == old(kernel.prio) - {old(activeProcess.pid)} && kernel.resumed == old(kernel.resumed)
    {
      kernel.Exit(activeProcess.pid);
      RemoveCurrentProcess();
    }

    method StartLeast(kernel: Kernel, ghost e: Entry)
      requires Valid() && State().active == None && State().waiting != {} && e == Least(State().waiting)
      requires PidsOf(State().waiting) <= kernel.prio.Keys
      modifies this, inactiveHeap, inactiveHeap.pq, kernel
      ensures inactiveHeap.heapSize < old(inactiveHeap.heapSize) && activeProcess != null
      ensures Valid() && State() == SjfState(old(State().waiting) - {e}, Some(e)) && activeProcess.pid == e.pid
      ensures kernel.prio == Resumed(old(kernel.prio), e.pid) && kernel.resumed == old(kernel.resumed) + [e.pid]
    {
      StartShortest(kernel);
    }

    /** One turn of the event loop once every process has been admitted: a context switch, the exit of the
        child it started, and its removal. */
    method RunShortest(kernel: Kernel) returns (ghost e: Entry)
      requires Valid() && State().active == None && State().waiting != {}
      requires PidsOf(State().waiting) <= kernel.prio.Keys
      modifies this, inactiveHeap, inactiveHeap.pq, kernel
      ensures inactiveHeap.heapSize < old(inactiveHeap.heapSize)
      ensures e == Least(old(State().waiting)) && kernel.resumed == old(kernel.resumed) + [e.pid]
      ensures Valid() && State() == SjfState(old(State().waiting) - {e}, None)
      ensures PidsOf(State().waiting) <= kernel.prio.Keys && kernel.prio == old(kernel.prio) - {e.pid}
    {
      e := Least(State().waiting);
      UniqueIsDistinct(inactiveHeap.Entries());
      PidsWithout(State().waiting, e);
      StartLeast(kernel, e);
      Reap(kernel);
    }

    /** The event loop once every process has been admitted.  The processes are resumed in sorted order, one after
        the other, and no order of the same processes has a smaller total completion time. */
    method RunAll(kernel: Kernel, start: int) returns (ghost order: seq<Entry>)
      requires Valid() && activeProcess == null
      requires PidsOf(State().waiting) <= kernel.prio.Keys
      modifies this, inactiveHeap, inactiveHeap.pq, kernel
      ensures Valid() && State() == SjfState({}, None)
      ensures |kernel.resumed| == old(|kernel.resumed|) + |order|
      ensures forall i :: 0 <= i < |order| ==> kernel.resumed[old(|kernel.resumed|) + i] == order[i].pid
      ensures kernel.prio == old(kernel.prio) - PidsOf(old(State().waiting))
      ensures SetOf(order) == old(State().waiting) && Unique(order) && Sorted(order)
      ensures forall t :: SetOf(t) == old(State().waiting) && Unique(t) ==>
                TotalCompletion(start, order) <= TotalCompletion(start, t)
    {
      ghost var all, waiting := State().waiting, State().waiting;
      UniqueIsDistinct(inactiveHeap.Entries());
      order := [];
      while 0 < inactiveHeap.heapSize
        invariant Valid() && State() == SjfState(waiting, None)
        invariant PidsOf(waiting) <= kernel.prio.Keys
        invariant RanInOrder(order, waiting, all)
        invariant KernelSaw(old(kernel.prio), kernel.prio, old(kernel.resumed), kernel.resumed, order, all - waiting)
        decreases inactiveHeap.heapSize
      {
        assert inactiveHeap.Entries()[0] in waiting;
        KernelSeesNext(old(kernel.prio), kernel.prio, old(kernel.resumed), kernel.resumed, order, all, waiting,
                       Least(waiting));
        RunLeastNext(order, waiting, all);
        ghost var e := RunShortest(kernel);
        order, waiting := order + [e], waiting - {e};
      }
      InOrderIsOptimal(start, order, all);
    }
  }
}
