/** The binary heap of heap.c.  The sift loops are specified by functions on the sequence of snapshots;
    the lemmas show that those functions implement a priority queue over a multiset. */
module Heaps {
  import opened Processes

  function Parent(i: nat): nat
    requires 0 < i
  {
    (i - 1) / 2
  }

  function Swap<T>(s: seq<T>, i: nat, j: nat): seq<T>
    requires i < |s| && j < |s|
  {
    s[i := s[j]][j := s[i]]
  }

  function Upheap(s: seq<Entry>, child: nat): (r: seq<Entry>)
    requires child < |s|
    ensures |r| == |s|
    decreases child
  {
    if 0 < child && Before(s[child], s[Parent(child)]) then
      Upheap(Swap(s, Parent(child), child), Parent(child))
    else s
  }

  /** The index `downheap` swaps with: the least of the parent and its children. */
  function LeastIndex(s: seq<Entry>, parent: nat): (m: nat)
    requires 2 * parent + 1 < |s|
    ensures m < |s|
    ensures m == parent || m == 2 * parent + 1 || m == 2 * parent + 2
  {
    var m := if Before(s[2 * parent + 1], s[parent]) then 2 * parent + 1 else parent;
    if 2 * parent + 2 < |s| && Before(s[2 * parent + 2], s[m]) then 2 * parent + 2 else m
  }

  function Downheap(s: seq<Entry>, parent: nat): (r: seq<Entry>)
    ensures |r| == |s|
    decreases |s| - parent
  {
    if |s| <= 2 * parent + 1 || LeastIndex(s, parent) == parent then s
    else Downheap(Swap(s, parent, LeastIndex(s, parent)), LeastIndex(s, parent))
  }

  function Inserted(s: seq<Entry>, e: Entry): seq<Entry> {
    Upheap(s + [e], |s|)
  }

  function Popped(s: seq<Entry>): seq<Entry>
    requires s != []
  {
    Downheap(Swap(s, |s| - 1, 0)[..|s| - 1], 0)
  }

  // ---------- Heap order ----------

  ghost predicate IsHeap(s: seq<Entry>) {
    forall i :: 0 < i < |s| ==> AtMost(s[Parent(i)], s[i])
  }

  /** Heap order everywhere except between `hole` and its parent. */
  ghost predicate IsHeapBelow(s: seq<Entry>, hole: nat) {
    && (forall i :: 0 < i < |s| && i != hole ==> AtMost(s[Parent(i)], s[i]))
    && (forall i :: 0 < i < |s| && 0 < hole && Parent(i) == hole ==> AtMost(s[Parent(hole)], s[i]))
  }

  /** Heap order everywhere except between `hole` and its children. */
  ghost predicate IsHeapAbove(s: seq<Entry>, hole: nat) {
    && (forall i :: 0 < i < |s| && Parent(i) != hole ==> AtMost(s[Parent(i)], s[i]))
    && (forall i :: 0 < i < |s| && 0 < hole && Parent(i) == hole ==> AtMost(s[Parent(hole)], s[i]))
  }

  lemma SwapKeepsContents<T>(s: seq<T>, i: nat, j: nat)
    requires i < |s| && j < |s|
    ensures multiset(Swap(s, i, j)) == multiset(s)
  {
  }

  lemma UpheapStep(s: seq<Entry>, child: nat)
    requires 0 < child < |s| && IsHeapBelow(s, child) && Before(s[child], s[Parent(child)])
    ensures IsHeapBelow(Swap(s, Parent(child), child), Parent(child))
  {
    var p := Parent(child);
    var t := Swap(s, p, child);
    forall i | 0 < i < |t| && i != p ensures AtMost(t[Parent(i)], t[i]) {
      if i != child {
        assert AtMost(s[Parent(i)], s[i]);
      }
    }
    forall i | 0 < i < |t| && 0 < p && Parent(i) == p ensures AtMost(t[Parent(p)], t[i]) {
      assert AtMost(s[Parent(p)], s[p]);
      if i != child {
        assert AtMost(s[p], s[i]);
      }
    }
  }

  lemma {:induction false} UpheapRestores(s: seq<Entry>, child: nat)
    requires child < |s| && IsHeapBelow(s, child)
    ensures IsHeap(Upheap(s, child))
    ensures multiset(Upheap(s, child)) == multiset(s)
    decreases child
  {
    if 0 < child && Before(s[child], s[Parent(child)]) {
      UpheapStep(s, child);
      SwapKeepsContents(s, Parent(child), child);
      UpheapRestores(Swap(s, Parent(child), child), Parent(child));
    }
  }

  lemma DownheapStep(s: seq<Entry>, parent: nat)
    requires 2 * parent + 1 < |s| && IsHeapAbove(s, parent) && LeastIndex(s, parent) != parent
    ensures IsHeapAbove(Swap(s, parent, LeastIndex(s, parent)), LeastIndex(s, parent))
  {
    var m := LeastIndex(s, parent);
    var t := Swap(s, parent, m);
    forall i | 0 < i < |t| && Parent(i) != m ensures AtMost(t[Parent(i)], t[i]) {
      if Parent(i) == parent {
        assert i == 2 * parent + 1 || i == 2 * parent + 2;
      } else if i != parent {
        assert AtMost(s[Parent(i)], s[i]);
      }
    }
    forall i | 0 < i < |t| && Parent(i) == m ensures AtMost(t[Parent(m)], t[i]) {
      assert i != parent && AtMost(s[m], s[i]);
    }
  }

  lemma DownheapDone(s: seq<Entry>, parent: nat)
    requires IsHeapAbove(s, parent)
    requires |s| <= 2 * parent + 1 || LeastIndex(s, parent) == parent
    ensures IsHeap(s)
  {
    forall i | 0 < i < |s| ensures AtMost(s[Parent(i)], s[i]) {
      if Parent(i) == parent {
        assert i == 2 * parent + 1 || i == 2 * parent + 2;
      }
    }
  }

  lemma {:induction false} DownheapRestores(s: seq<Entry>, parent: nat)
    requires IsHeapAbove(s, parent)
    ensures IsHeap(Downheap(s, parent))
    ensures multiset(Downheap(s, parent)) == multiset(s)
    decreases |s| - parent
  {
    if |s| <= 2 * parent + 1 || LeastIndex(s, parent) == parent {
      DownheapDone(s, parent);
    } else {
      var m := LeastIndex(s, parent);
      DownheapStep(s, parent);
      SwapKeepsContents(s, parent, m);
      DownheapRestores(Swap(s, parent, m), m);
    }
  }

  lemma {:induction false} RootIsLeast(s: seq<Entry>, i: nat)
    requires IsHeap(s) && i < |s|
    ensures AtMost(s[0], s[i])
    decreases i
  {
    if 0 < i {
      RootIsLeast(s, Parent(i));
    }
  }

  // ---------- The heap is a multiset priority queue ----------

  lemma InsertAddsOne(s: seq<Entry>, e: Entry)
    requires IsHeap(s)
    ensures IsHeap(Inserted(s, e))
    ensures multiset(Inserted(s, e)) == multiset(s) + multiset{e}
  {
    UpheapRestores(s + [e], |s|);
  }

  lemma WithoutRoot<T>(s: seq<T>)
    requires s != []
    ensures multiset(Swap(s, |s| - 1, 0)[..|s| - 1]) == multiset(s) - multiset{s[0]}
  {
    var t := Swap(s, |s| - 1, 0);
    SwapKeepsContents(s, |s| - 1, 0);
    assert t == t[..|s| - 1] + [s[0]];
  }

  lemma PopRemovesLeast(s: seq<Entry>)
    requires IsHeap(s) && s != []
    ensures IsHeap(Popped(s))
    ensures multiset(Popped(s)) == multiset(s) - multiset{s[0]}
    ensures forall e :: e in multiset(s) ==> AtMost(s[0], e)
  {
    var t := Swap(s, |s| - 1, 0);
    WithoutRoot(s);
    assert IsHeapAbove(t[..|s| - 1], 0);
    DownheapRestores(t[..|s| - 1], 0);
    forall e | e in multiset(s) ensures AtMost(s[0], e) {
      var i :| 0 <= i < |s| && s[i] == e;
      RootIsLeast(s, i);
    }
  }

  /** Lowering the key of the root in place needs no sifting. */
  lemma LoweredRootKeepsOrder(s: seq<Entry>, e: Entry)
    requires IsHeap(s) && s != [] && AtMost(e, s[0])
    ensures IsHeap(s[0 := e])
  {
    forall i | 0 < i < |s| ensures AtMost(s[0 := e][Parent(i)], s[0 := e][i]) {
      assert AtMost(s[Parent(i)], s[i]);
    }
  }

  // ---------- Draining ----------

  ghost predicate Sorted(s: seq<Entry>) {
    forall i, j :: 0 <= i < j < |s| ==> AtMost(s[i], s[j])
  }

  ghost predicate PidsDiffer(m: multiset<Entry>) {
    forall x, y :: x in m && y in m && x.pid == y.pid ==> x == y
  }

  function Drained(s: seq<Entry>): (r: seq<Entry>)
    ensures |r| == |s|
    decreases |s|
  {
    if s == [] then [] else [s[0]] + Drained(Popped(s))
  }

  lemma {:induction false} DrainSorts(s: seq<Entry>)
    requires IsHeap(s)
    ensures Sorted(Drained(s))
    ensures multiset(Drained(s)) == multiset(s)
    decreases |s|
  {
    if s != [] {
      PopRemovesLeast(s);
      DrainSorts(Popped(s));
      var rest := Drained(Popped(s));
      assert multiset(rest) == multiset(s) - multiset{s[0]};
      ConsSorted(s[0], rest);
    }
  }

  lemma ConsSorted(e: Entry, rest: seq<Entry>)
    requires Sorted(rest) && forall x :: x in multiset(rest) ==> AtMost(e, x)
    ensures Sorted([e] + rest)
  {
    forall j | 0 <= j < |rest| ensures AtMost(e, rest[j]) {
      assert rest[j] in multiset(rest);
    }
  }

  lemma SortedHead(s: seq<Entry>, x: Entry)
    requires Sorted(s) && x in multiset(s)
    ensures AtMost(s[0], x)
  {
    var i :| 0 <= i < |s| && s[i] == x;
  }

  lemma SplitHead(s: seq<Entry>)
    requires s != []
    ensures multiset(s[1..]) == multiset(s) - multiset{s[0]}
  {
    assert s == [s[0]] + s[1..];
  }

  lemma SortedHeadsAgree(s: seq<Entry>, t: seq<Entry>)
    requires Sorted(s) && Sorted(t) && multiset(s) == multiset(t) && PidsDiffer(multiset(s)) && s != []
    ensures t != [] && s[0] == t[0] && multiset(s[1..]) == multiset(t[1..])
  {
    assert s[0] in multiset(t);
    assert t[0] in multiset(s);
    SortedHead(s, t[0]);
    SortedHead(t, s[0]);
    SplitHead(s);
    SplitHead(t);
  }

  lemma TailIsSorted(s: seq<Entry>)
    requires Sorted(s) && s != [] && PidsDiffer(multiset(s))
    ensures Sorted(s[1..]) && PidsDiffer(multiset(s[1..]))
  {
    SplitHead(s);
  }

  lemma TailsAgree(s: seq<Entry>, t: seq<Entry>)
    requires Sorted(s) && Sorted(t) && s != [] && multiset(s) == multiset(t) && PidsDiffer(multiset(s))
    ensures t != [] && s[0] == t[0] && Sorted(s[1..]) && Sorted(t[1..])
    ensures multiset(s[1..]) == multiset(t[1..]) && PidsDiffer(multiset(s[1..]))
  {
    SortedHeadsAgree(s, t);
    TailIsSorted(s);
    TailIsSorted(t);
  }

  lemma {:induction false} SortedIsUnique(s: seq<Entry>, t: seq<Entry>)
    requires Sorted(s) && Sorted(t) && multiset(s) == multiset(t) && PidsDiffer(multiset(s))
    ensures s == t
    decreases |s|
  {
    if s == [] {
      assert |t| == |multiset(t)| == |multiset(s)| == 0;
    } else {
      TailsAgree(s, t);
      SortedIsUnique(s[1..], t[1..]);
      assert s == [s[0]] + s[1..] && t == [t[0]] + t[1..];
    }
  }

  /** The pop sequence depends only on which processes are queued: two heaps with the same contents, in
      whatever layout and built in whatever order, drain alike. */
  lemma DrainForgetsLayout(s: seq<Entry>, t: seq<Entry>)
    requires IsHeap(s) && IsHeap(t) && multiset(s) == multiset(t) && PidsDiffer(multiset(s))
    ensures Drained(s) == Drained(t)
  {
    DrainSorts(s);
    DrainSorts(t);
    SortedIsUnique(Drained(s), Drained(t));
  }

  function InsertedAll(s: seq<Entry>, es: seq<Entry>): seq<Entry>
    decreases |es|
  {
    if es == [] then s else InsertedAll(Inserted(s, es[0]), es[1..])
  }

  lemma {:induction false} InsertAllAddsAll(s: seq<Entry>, es: seq<Entry>)
    requires IsHeap(s)
    ensures IsHeap(InsertedAll(s, es))
    ensures multiset(InsertedAll(s, es)) == multiset(s) + multiset(es)
    decreases |es|
  {
    if es != [] {
      InsertAddsOne(s, es[0]);
      InsertAllAddsAll(Inserted(s, es[0]), es[1..]);
      assert es == [es[0]] + es[1..];
    }
  }

  /** Inserting in any order and draining sorts: the result is the sorted permutation. */
  lemma InsertThenDrainSorts(es: seq<Entry>, fs: seq<Entry>)
    requires multiset(es) == multiset(fs) && PidsDiffer(multiset(es))
    ensures Sorted(Drained(InsertedAll([], es)))
    ensures multiset(Drained(InsertedAll([], es))) == multiset(es)
    ensures Drained(InsertedAll([], es)) == Drained(InsertedAll([], fs))
  {
    InsertAllAddsAll([], es);
    InsertAllAddsAll([], fs);
    DrainSorts(InsertedAll([], es));
    DrainForgetsLayout(InsertedAll([], es), InsertedAll([], fs));
  }

  // ---------- Cost ----------

  function Pow2(k: nat): nat {
    if k == 0 then 1 else 2 * Pow2(k - 1)
  }

  /** `Pow2` doubles with every step; so a heap of 32-bit size takes at most 30 swaps to sift. */
  lemma {:induction false} Pow2Doubles(k: nat)
    ensures Pow2(0) == 1 && Pow2(k + 1) == 2 * Pow2(k) && k < Pow2(k)
    ensures Pow2(k) <= 0x7FFF_FFFF ==> k <= 30
  {
    if 0 < k {
      Pow2Doubles(k - 1);
    }
    if 30 < k {
      Pow2Grows(31, k);
      assert Pow2(10) == 1024 && Pow2(20) == 1024 * 1024 by {
        Pow2Adds(10, 10);
      }
      Pow2Adds(20, 10);
    }
  }

  lemma {:induction false} Pow2Adds(j: nat, k: nat)
    ensures Pow2(j + k) == Pow2(j) * Pow2(k)
    decreases k
  {
    if 0 < k {
      Pow2Adds(j, k - 1);
    }
  }

  lemma {:induction false} Pow2Grows(j: nat, k: nat)
    requires j <= k
    ensures Pow2(j) <= Pow2(k)
    decreases k
  {
    if j < k {
      Pow2Grows(j, k - 1);
    }
  }

  function UpheapSwaps(s: seq<Entry>, child: nat): nat
    requires child < |s|
    decreases child
  {
    if 0 < child && Before(s[child], s[Parent(child)]) then
      1 + UpheapSwaps(Swap(s, Parent(child), child), Parent(child))
    else 0
  }

  function DownheapSwaps(s: seq<Entry>, parent: nat): nat
    decreases |s| - parent
  {
    if |s| <= 2 * parent + 1 || LeastIndex(s, parent) == parent then 0
    else 1 + DownheapSwaps(Swap(s, parent, LeastIndex(s, parent)), LeastIndex(s, parent))
  }

  /** At most log2(child + 1) swaps. */
  lemma {:induction false} UpheapIsLogarithmic(s: seq<Entry>, child: nat)
    requires child < |s|
    ensures Pow2(UpheapSwaps(s, child)) <= child + 1
    decreases child
  {
    if 0 < child && Before(s[child], s[Parent(child)]) {
      UpheapIsLogarithmic(Swap(s, Parent(child), child), Parent(child));
    }
  }

  /** At most log2(|s| / (parent + 1)) swaps; log2(|s|) from the root. */
  lemma {:induction false} DownheapIsLogarithmic(s: seq<Entry>, parent: nat)
    requires parent < |s|
    ensures Pow2(DownheapSwaps(s, parent)) * (parent + 1) <= |s|
    decreases |s| - parent
  {
    if 2 * parent + 1 < |s| && LeastIndex(s, parent) != parent {
      var m := LeastIndex(s, parent);
      var t := Swap(s, parent, m);
      DownheapIsLogarithmic(t, m);
      DoublingStep(Pow2(DownheapSwaps(t, m)), parent, m, |s|);
    }
  }

  lemma DownheapFromRoot(s: seq<Entry>)
    ensures if s == [] then DownheapSwaps(s, 0) == 0 else Pow2(DownheapSwaps(s, 0)) <= |s|
  {
    if s != [] {
      DownheapIsLogarithmic(s, 0);
    }
  }

  lemma DoublingStep(k: nat, parent: nat, m: nat, n: nat)
    requires 2 * parent + 1 <= m && k * (m + 1) <= n
    ensures (2 * k) * (parent + 1) <= n
  {
    assert k * (2 * (parent + 1)) <= k * (m + 1);
  }

  lemma SameMembers<T>(s: seq<T>, t: seq<T>)
    requires multiset(s) == multiset(t)
    ensures forall x :: x in s <==> x in t
  {
    forall x ensures x in s <==> x in t {
      assert x in s <==> x in multiset(s);
      assert x in t <==> x in multiset(t);
    }
  }

  // ---------- The in-place heap ----------

  class Heap {
    const pq: array<ProcessInfo?>
    var heapSize: nat
    /** How many swaps have been made. */
    ghost var swapCount: nat

    ghost predicate Shaped()
      reads this, pq
    {
      heapSize <= pq.Length && null !in Items()
    }

    /** The occupied part of the array. */
    ghost function Items(): seq<ProcessInfo?>
      reads this, pq
    {
      if heapSize <= pq.Length then pq[..heapSize] else []
    }

    ghost function Entries(): seq<Entry>
      requires Shaped()
      reads this, pq, Items()
    {
      Snaps(Items())
    }

    ghost predicate Valid()
      reads this, pq, Items()
    {
      Shaped() && IsHeap(Entries())
    }

    constructor (maxSize: nat)
      ensures Valid() && heapSize == 0 && pq.Length == maxSize && fresh(pq)
    {
      pq := new ProcessInfo?[maxSize];
      heapSize, swapCount := 0, 0;
    }

    /** `heap_swap`, the one place where two elements change places. */
    method SwapElements(i: nat, j: nat)
      requires Shaped() && i < heapSize && j < heapSize
      modifies pq, this`swapCount
      ensures swapCount == old(swapCount) + 1
      ensures Shaped() && Items() == Swap(old(Items()), i, j)
      ensures Entries() == Swap(old(Entries()), i, j)
      ensures multiset(Items()) == multiset(old(Items()))
    {
      SwapKeepsContents(Items(), i, j);
      pq[i], pq[j] := pq[j], pq[i];
      swapCount := swapCount + 1;
      assert Items() == Swap(old(Items()), i, j);
    }

    predicate ElementLt(i: nat, j: nat)
      requires Shaped() && i < heapSize && j < heapSize
      reads this, pq, Items()
      ensures ElementLt(i, j) <==> Before(Entries()[i], Entries()[j])
      ensures pq[i].remainingTime == pq[j].remainingTime ==> (ElementLt(i, j) <==> pq[i].pid < pq[j].pid)
    {
      var lhs, rhs := pq[i], pq[j];
      if lhs.remainingTime == rhs.remainingTime then lhs.pid < rhs.pid
      else lhs.remainingTime < rhs.remainingTime
    }

    method SiftUp(start: nat)
      requires Shaped() && start < heapSize
      modifies pq, this`swapCount
      ensures Shaped() && Entries() == Upheap(old(Entries()), start)
      ensures multiset(Items()) == multiset(old(Items()))
      ensures swapCount == old(swapCount) + UpheapSwaps(old(Entries()), start)
    {
      var child := start;
      while 0 < child && ElementLt(child, (child - 1) / 2)
        invariant 0 <= child <= start && Shaped()
        invariant Upheap(Entries(), child) == Upheap(old(Entries()), start)
        invariant multiset(Items()) == multiset(old(Items()))
        invariant swapCount + UpheapSwaps(Entries(), child) == old(swapCount) + UpheapSwaps(old(Entries()), start)
        decreases child
      {
        var parent := (child - 1) / 2;
        SwapElements(parent, child);
        child := parent;
      }
    }

    /** The least of a position and its children, as `downheap` finds it. */
    function LeastOf(parent: nat): (least: nat)
      requires Shaped() && 2 * parent + 1 < heapSize
      reads this, pq, Items()
      ensures least == LeastIndex(Entries(), parent)
    {
      var least := if ElementLt(2 * parent + 1, parent) then 2 * parent + 1 else parent;
      if 2 * parent + 2 < heapSize && ElementLt(2 * parent + 2, least) then 2 * parent + 2 else least
    }

    method SiftDown(start: nat)
      requires Shaped()
      modifies pq, this`swapCount
      ensures Shaped() && Entries() == Downheap(old(Entries()), start)
      ensures multiset(Items()) == multiset(old(Items()))
      ensures swapCount == old(swapCount) + DownheapSwaps(old(Entries()), start)
    {
      var parent := start;
      while 2 * parent + 1 < heapSize && LeastOf(parent) != parent
        invariant Shaped()
        invariant Downheap(Entries(), parent) == Downheap(old(Entries()), start)
        invariant multiset(Items()) == multiset(old(Items()))
        invariant swapCount + DownheapSwaps(Entries(), parent) == old(swapCount) + DownheapSwaps(old(Entries()), start)
        decreases heapSize - parent
      {
        var least := LeastOf(parent);
        SwapElements(parent, least);
        parent := least;
      }
    }

    /** `pq[heap_size] = p; heap_size++` */
    method Append(p: ProcessInfo)
      requires Shaped() && heapSize < pq.Length
      modifies pq, this`heapSize
      ensures Shaped() && heapSize == old(heapSize) + 1
      ensures Entries() == old(Entries()) + [p.Snap()]
      ensures forall q :: q in Items() <==> q == p || q in old(Items())
    {
      pq[heapSize] := p;
      heapSize := heapSize + 1;
      assert Items() == old(Items()) + [p];
    }

    /** Sifts the last element up. */
    method SiftLast(ghost before: seq<Entry>, ghost e: Entry) returns (ghost swaps: nat)
      requires Shaped() && IsHeap(before) && heapSize == |before| + 1 && Entries() == before + [e]
      modifies pq, this`swapCount
      ensures Valid() && Entries() == Inserted(before, e)
      ensures multiset(Entries()) == multiset(before) + multiset{e}
      ensures forall q :: q in Items() <==> q in old(Items())
      ensures swapCount == old(swapCount) + swaps && Pow2(swaps) <= heapSize
    {
      ghost var items := Items();
      swaps := UpheapSwaps(Entries(), heapSize - 1);
      UpheapIsLogarithmic(Entries(), heapSize - 1);
      InsertAddsOne(before, e);
      SiftUp(heapSize - 1);
      SameMembers(items, Items());
    }

    /** `swaps` swaps are made, at most log2 of the new size. */
    method Insert(p: ProcessInfo) returns (ghost swaps: nat)
      requires Valid() && heapSize < pq.Length
      modifies this, pq
      ensures Valid() && heapSize == old(heapSize) + 1
      ensures Entries() == Inserted(old(Entries()), p.Snap())
      ensures multiset(Entries()) == multiset(old(Entries())) + multiset{p.Snap()}
      ensures forall q :: q in Items() <==> q == p || q in old(Items())
      ensures swapCount == old(swapCount) + swaps && Pow2(swaps) <= heapSize
    {
      ghost var before := Entries();
      Append(p);
      swaps := SiftLast(before, p.Snap());
    }

    function Top(): ProcessInfo
      requires Shaped() && 0 < heapSize
      reads this, pq
    {
      pq[0]
    }

    predicate Empty()
      reads this
    {
      heapSize == 0
    }

    method DropLast()
      requires Shaped() && 0 < heapSize
      modifies this`heapSize
      ensures Shaped() && heapSize == old(heapSize) - 1
      ensures Items() == old(Items())[..heapSize] && Entries() == old(Entries())[..heapSize]
    {
      heapSize := heapSize - 1;
    }

    /** Swaps the root with the last element and shrinks the heap. */
    method DropRoot()
      requires Shaped() && 0 < heapSize
      modifies this, pq
      ensures Shaped() && heapSize == old(heapSize) - 1 && swapCount == old(swapCount) + 1
      ensures Entries() == Swap(old(Entries()), heapSize, 0)[..heapSize]
      ensures forall q :: q in Items() ==> q in old(Items())
    {
      ghost var items := Items();
      SwapElements(heapSize - 1, 0);
      SameMembers(items, Items());
      DropLast();
    }

    /** Sifts the root down. */
    method SiftRoot(ghost before: seq<Entry>) returns (ghost swaps: nat)
      requires Shaped() && IsHeap(before) && before != [] && heapSize == |before| - 1
      requires Entries() == Swap(before, heapSize, 0)[..heapSize]
      modifies pq, this`swapCount
      ensures Valid() && Entries() == Popped(before)
      ensures multiset(Entries()) == multiset(before) - multiset{before[0]}
      ensures forall q :: q in Items() ==> q in old(Items())
      ensures swapCount == old(swapCount) + swaps && if heapSize == 0 then swaps == 0 else Pow2(swaps) <= heapSize
    {
      ghost var rest := Items();
      swaps := DownheapSwaps(Entries(), 0);
      DownheapFromRoot(Entries());
      PopRemovesLeast(before);
      SiftDown(0);
      SameMembers(rest, Items());
    }

    /** One swap to move the last element to the root and `swaps`, at most log2 of the new size, to sift it down. */
    method Pop() returns (ghost swaps: nat)
      requires Valid() && 0 < heapSize
      modifies this, pq
      ensures Valid() && heapSize == old(heapSize) - 1
      ensures Entries() == Popped(old(Entries()))
      ensures multiset(Entries()) == multiset(old(Entries())) - multiset{old(Entries()[0])}
      ensures forall q :: q in Items() ==> q in old(Items())
      ensures swapCount == old(swapCount) + 1 + swaps
      ensures if heapSize == 0 then swaps == 0 else Pow2(swaps) <= heapSize
    {
      ghost var before := Entries();
      DropRoot();
      swaps := SiftRoot(before);
    }
  }
}
