/** RR.c: a circular schedule in a flat array with a current and a possibly stale previous index.  The
    array and its indices form a `Ring`; a ring implements a plain FIFO queue. */
module RoundRobin {
  import opened Processes

  datatype RingData = RingData(pq: seq<Entry>, cur: int, prev: int)

  predicate IsRing(r: RingData) {
    if r.pq == [] then r.cur == -1 && r.prev == -1
    else 0 <= r.cur < |r.pq| && -1 <= r.prev < |r.pq|
  }

  type Ring = r: RingData | IsRing(r) witness RingData([], -1, -1)

  const EMPTY_RING: Ring := RingData([], -1, -1)

  function Advance(n: int, count: nat): int {
    if n < 0 then n
    else if n + 1 == count then 0
    else n + 1
  }

  function Added(r: Ring, e: Entry): Ring {
    if r.pq == [] then RingData([e], 0, r.prev)
    else RingData(r.pq[..r.cur] + [e] + r.pq[r.cur..], r.cur + 1, r.prev)
  }

  function Removed(r: Ring): Ring
    requires r.pq != []
  {
    var pq := r.pq[..r.cur] + r.pq[r.cur + 1..];
    RingData(pq, if pq == [] then -1 else if r.cur == |pq| then 0 else r.cur, -1)
  }

  function SliceOver(r: Ring): Ring {
    RingData(r.pq, Advance(r.cur, |r.pq|), r.cur)
  }

  /** The priorities after `context_switch_RR`. */
  function Switched(r: Ring, prio: map<int, Priority>): map<int, Priority> {
    var stopped := if r.prev >= 0 then Suspended(prio, r.pq[r.prev].pid) else prio;
    if r.cur >= 0 then Resumed(stopped, r.pq[r.cur].pid) else stopped
  }

  // ---------- Refinement of a FIFO queue ----------

  /** The processes in the order in which they will run. */
  function Queue(r: Ring): seq<Entry> {
    if r.pq == [] then [] else r.pq[r.cur..] + r.pq[..r.cur]
  }

  lemma AddAppends(r: Ring, e: Entry)
    ensures Queue(Added(r, e)) == Queue(r) + [e]
  {
    if r.pq != [] {
      var s := Added(r, e);
      assert s.pq[s.cur..] == r.pq[r.cur..];
      assert s.pq[..s.cur] == r.pq[..r.cur] + [e];
    }
  }

  lemma QueueOfParts(s: Ring, a: seq<Entry>, b: seq<Entry>)
    requires s.pq == a + b && s.cur == if a + b == [] then -1 else if b == [] then 0 else |a|
    ensures Queue(s) == b + a
  {
    if b == [] {
      assert a + b == a;
      assert s.pq[0..] + s.pq[..0] == s.pq;
    } else {
      assert s.pq[|a|..] == b && s.pq[..|a|] == a;
    }
  }

  lemma RemoveDropsHead(r: Ring)
    requires r.pq != []
    ensures Queue(r) == [r.pq[r.cur]] + Queue(Removed(r))
  {
    var a, b := r.pq[..r.cur], r.pq[r.cur + 1..];
    QueueOfParts(Removed(r), a, b);
    assert r.pq[r.cur..] == [r.pq[r.cur]] + b;
    assert ([r.pq[r.cur]] + b) + a == [r.pq[r.cur]] + (b + a);
  }

  lemma SliceRotates(r: Ring)
    ensures Queue(SliceOver(r)) == if r.pq == [] then [] else Queue(r)[1..] + [Queue(r)[0]]
  {
    if r.pq != [] {
      var s := SliceOver(r);
      if s.cur == 0 {
        assert r.pq == r.pq[..r.cur] + [r.pq[r.cur]];
      } else {
        assert s.pq[..s.cur] == r.pq[..r.cur] + [r.pq[r.cur]];
      }
    }
  }

  /** The ring is empty exactly when there is no current process, and then no previous one either. */
  lemma EmptyExactly(r: Ring)
    ensures (r.cur == -1 <==> r.pq == []) && (r.pq == [] ==> r.prev == -1)
    ensures Queue(r) == [] <==> r.pq == []
    ensures multiset(Queue(r)) == multiset(r.pq)
  {
    if r.pq != [] {
      assert r.pq == r.pq[..r.cur] + r.pq[r.cur..];
    }
  }

  // ---------- Bounded waiting ----------

  datatype RingEvent = Arrive(e: Entry) | Leave | Slice

  function Apply(r: Ring, ev: RingEvent): Ring {
    match ev
    case Arrive(e) => Added(r, e)
    case Leave => if r.pq == [] then r else Removed(r)
    case Slice => SliceOver(r)
  }

  function ApplyAll(r: Ring, evs: seq<RingEvent>): Ring
    decreases |evs|
  {
    if evs == [] then r else ApplyAll(Apply(r, evs[0]), evs[1..])
  }

  /** How often the current process gave up its turn. */
  function Turns(evs: seq<RingEvent>): nat {
    if evs == [] then 0 else (if evs[0].Arrive? then 0 else 1) + Turns(evs[1..])
  }

  /** Positions `j..k` of `before` are the first positions of `after`. */
  ghost predicate MovedUp(before: seq<Entry>, after: seq<Entry>, j: nat, k: nat) {
    && j <= k < |before| && k - j < |after|
    && forall i :: j <= i <= k ==> after[i - j] == before[i]
  }

  lemma OneTurn(r: Ring, ev: RingEvent, k: nat)
    requires k < |Queue(r)| && (!ev.Arrive? ==> 0 < k)
    ensures MovedUp(Queue(r), Queue(Apply(r, ev)), if ev.Arrive? then 0 else 1, k)
  {
    match ev
    case Arrive(e) => AddAppends(r, e);
    case Leave => RemoveDropsHead(r);
    case Slice => SliceRotates(r);
  }

  lemma MoveUpTwice(p: seq<Entry>, q: seq<Entry>, r: seq<Entry>, i: nat, j: nat, k: nat)
    requires MovedUp(p, q, i, k) && MovedUp(q, r, j, k - i)
    ensures MovedUp(p, r, i + j, k)
  {
    forall x | i + j <= x <= k ensures r[x - (i + j)] == p[x] {
      assert q[x - i] == p[x];
      assert r[(x - i) - j] == q[x - i];
    }
  }

  lemma {:induction false} AllMoveUp(r: Ring, evs: seq<RingEvent>, k: nat)
    requires k < |Queue(r)| && Turns(evs) <= k
    ensures MovedUp(Queue(r), Queue(ApplyAll(r, evs)), Turns(evs), k)
    decreases |evs|
  {
    if evs == [] {
    } else {
      var i := if evs[0].Arrive? then 0 else 1;
      OneTurn(r, evs[0], k);
      AllMoveUp(Apply(r, evs[0]), evs[1..], k - i);
      MoveUpTwice(Queue(r), Queue(Apply(r, evs[0])), Queue(ApplyAll(Apply(r, evs[0]), evs[1..])),
                  i, Turns(evs[1..]), k);
    }
  }

  /** Whatever arrives meanwhile, the first `k` processes of the schedule take the next `k` turns in
      order: after `j <= k` turns the process at position `j` is the current one and those up to `k` have
      moved up by exactly `j`.  So nobody overtakes, and the process at position `k` becomes current
      after exactly `k` turns. */
  lemma BoundedWaiting(r: Ring, evs: seq<RingEvent>, k: nat)
    requires k < |Queue(r)| && Turns(evs) <= k
    ensures MovedUp(Queue(r), Queue(ApplyAll(r, evs)), Turns(evs), k)
    ensures var after := ApplyAll(r, evs); 0 <= after.cur && after.pq[after.cur] == Queue(r)[Turns(evs)]
  {
    AllMoveUp(r, evs, k);
    assert Queue(ApplyAll(r, evs))[0] == Queue(r)[Turns(evs)];
  }

  // ---------- The in-place schedule ----------

  /** `t` is `s` with `x` put in at position `i`. */
  ghost predicate InsertedAt<T>(s: seq<T>, t: seq<T>, i: nat, x: T) {
    && i <= |s| && |t| == |s| + 1 && t[i] == x
    && (forall j :: 0 <= j < i ==> t[j] == s[j])
    && (forall j :: i < j < |t| ==> t[j] == s[j - 1])
  }

  lemma InsertedAtMeans<T>(s: seq<T>, t: seq<T>, i: nat, x: T)
    requires InsertedAt(s, t, i, x)
    ensures t == s[..i] + [x] + s[i..]
  {
  }

  lemma InsertedBefore<T>(s: seq<T>, t: seq<T>, i: nat)
    requires i < |t| && InsertedAt(s, t, i, t[i])
    ensures s == t[..i] + t[i + 1..]
  {
  }

  lemma InsertedMembers<T>(s: seq<T>, t: seq<T>, i: nat, x: T)
    requires InsertedAt(s, t, i, x)
    ensures forall q :: q in t ==> q == x || q in s
  {
    forall j | 0 <= j < |t| ensures t[j] == x || t[j] in s {
      assert t[j] == if j < i then s[j] else if j == i then x else s[j - 1];
    }
  }

  lemma RemovedMembers<T>(s: seq<T>, t: seq<T>, i: nat)
    requires i < |t| && InsertedAt(s, t, i, t[i])
    ensures forall q :: q in s ==> q in t
  {
    forall j | 0 <= j < |s| ensures s[j] in t {
      assert s[j] == if j < i then t[j] else t[j + 1];
    }
  }

  lemma SnapsInsertedAt(ps: seq<ProcessInfo?>, qs: seq<ProcessInfo?>, i: nat)
    requires null !in ps && i < |qs| && qs[i] != null && InsertedAt(ps, qs, i, qs[i])
    ensures null !in qs
    ensures InsertedAt(Snaps(ps), Snaps(qs), i, qs[i].Snap())
  {
    forall j | 0 <= j < |qs| ensures qs[j] != null {
      assert j < i ==> qs[j] in ps;
      assert i < j ==> qs[j] == ps[j - 1] && ps[j - 1] in ps;
    }
  }

  lemma SnapsRemovedAt(ps: seq<ProcessInfo?>, qs: seq<ProcessInfo?>, i: nat)
    requires null !in qs && i < |qs| && InsertedAt(ps, qs, i, qs[i])
    ensures null !in ps
    ensures InsertedAt(Snaps(ps), Snaps(qs), i, qs[i].Snap())
  {
    forall j | 0 <= j < |ps| ensures ps[j] != null {
      assert j < i ==> ps[j] == qs[j];
      assert i <= j ==> ps[j] == qs[j + 1];
    }
  }

  class RoundRobinScheduler {
    const pq: array<ProcessInfo?>
    var currentProcessId: int
    var previousActiveId: int
    var processCount: nat

    ghost predicate Shaped()
      reads this, pq
    {
      processCount <= pq.Length && null !in Items()
    }

    /** The occupied part of the array. */
    ghost function Items(): seq<ProcessInfo?>
      reads this, pq
    {
      if processCount <= pq.Length then pq[..processCount] else []
    }

    ghost function Data(): RingData
      requires Shaped()
      reads this, pq, Items()
    {
      RingData(Snaps(Items()), currentProcessId, previousActiveId)
    }

    ghost predicate Valid()
      reads this, pq, Items()
    {
      Shaped() && IsRing(Data())
    }

    /** Nothing has been added yet. */
    ghost predicate Unused(numProcess: nat)
      reads this
    {
      pq.Length == numProcess && processCount == 0 && currentProcessId == -1 && previousActiveId == -1
    }

    lemma StartsEmpty(numProcess: nat)
      requires Unused(numProcess)
      ensures Valid() && Data() == EMPTY_RING && Items() == []
    {
    }

    constructor (numProcess: nat)
      ensures Valid() && fresh(pq) && Unused(numProcess) && Data() == EMPTY_RING
    {
      pq := new ProcessInfo?[numProcess];
      currentProcessId, previousActiveId, processCount := -1, -1, 0;
    }

    /** Shifts the processes from the current position on to the right and stores `p` in the gap. */
    method ShiftIn(p: ProcessInfo)
      requires Shaped() && 0 <= currentProcessId < processCount < pq.Length
      modifies pq
      ensures InsertedAt(old(pq[..processCount]), pq[..processCount + 1], currentProcessId, p)
    {
      var i := processCount - 1;
      while i >= currentProcessId
        invariant currentProcessId - 1 <= i < processCount
        invariant forall j :: 0 <= j <= i ==> pq[j] == old(pq[j])
        invariant forall j :: i + 1 < j <= processCount ==> pq[j] == old(pq[j - 1])
      {
        pq[i + 1] := pq[i];
        i := i - 1;
      }
      pq[currentProcessId] := p;
    }

    /** Shifts the processes behind the current position to the left, over the current one. */
    method ShiftOut()
      requires Shaped() && 0 <= currentProcessId < processCount
      modifies pq
      ensures InsertedAt(pq[..processCount - 1], old(pq[..processCount]), currentProcessId, old(pq[currentProcessId]))
    {
      var i := currentProcessId + 1;
      while i < processCount
        invariant currentProcessId < i <= processCount
        invariant forall j :: 0 <= j < currentProcessId || i <= j < processCount ==> pq[j] == old(pq[j])
        invariant forall j :: currentProcessId < j < i ==> pq[j - 1] == old(pq[j])
      {
        pq[i - 1] := pq[i];
        i := i + 1;
      }
    }

    method InsertAtCurrent(p: ProcessInfo)
      requires Shaped() && 0 <= currentProcessId < processCount < pq.Length
      modifies pq
      ensures null !in pq[..processCount + 1]
      ensures var s := old(Snaps(pq[..processCount]));
              Snaps(pq[..processCount + 1]) == s[..currentProcessId] + [p.Snap()] + s[currentProcessId..]
      ensures forall q :: q in pq[..processCount + 1] ==> q == p || q in old(pq[..processCount])
    {
      ghost var before := pq[..processCount];
      ShiftIn(p);
      ghost var after := pq[..processCount + 1];
      InsertedMembers(before, after, currentProcessId, p);
      SnapsInsertedAt(before, after, currentProcessId);
      InsertedAtMeans(Snaps(before), Snaps(after), currentProcessId, p.Snap());
    }

    method RemoveAtCurrent()
      requires Shaped() && 0 <= currentProcessId < processCount
      modifies pq
      ensures null !in pq[..processCount - 1]
      ensures var s := old(Snaps(pq[..processCount]));
              Snaps(pq[..processCount - 1]) == s[..currentProcessId] + s[currentProcessId + 1..]
      ensures forall q :: q in pq[..processCount - 1] ==> q in old(pq[..processCount])
    {
      ghost var before := pq[..processCount];
      ShiftOut();
      ghost var after := pq[..processCount - 1];
      RemovedMembers(after, before, currentProcessId);
      SnapsRemovedAt(after, before, currentProcessId);
      InsertedBefore(Snaps(after), Snaps(before), currentProcessId);
    }

    method AddProcess(p: ProcessInfo)
      requires Valid() && processCount < pq.Length
      modifies this, pq
      ensures Valid() && Data() == Added(old(Data()), p.Snap())
      ensures forall q :: q in Items() ==> q == p || q in old(Items())
    {
      if processCount == 0 {
        assert previousActiveId < 0;
        currentProcessId := 0;
        pq[currentProcessId] := p;
        assert pq[..1] == [p];
      } else {
        InsertAtCurrent(p);
        currentProcessId := currentProcessId + 1;
      }
      processCount := processCount + 1;
    }

    method RemoveCurrentProcess()
      requires Valid() && 0 < processCount
      modifies this, pq
      ensures Valid() && Data() == Removed(old(Data()))
      ensures forall q :: q in Items() ==> q in old(Items())
    {
      ghost var ring := Data();
      RemoveAtCurrent();
      previousActiveId := -1;
      processCount := processCount - 1;
      assert Snaps(Items()) == ring.pq[..ring.cur] + ring.pq[ring.cur + 1..];
      if processCount == 0 {
        currentProcessId := -1;
      } else if currentProcessId == processCount {
        currentProcessId := 0;
      }
    }

    method TimesliceOver()
      requires Valid()
      modifies this
      ensures Valid() && Data() == SliceOver(old(Data()))
      ensures processCount == old(processCount)
    {
      previousActiveId := currentProcessId;
      if currentProcessId >= 0 {
        var n := currentProcessId + 1;
        currentProcessId := if n == processCount then 0 else n;
      }
    }

    /** Both indices are in bounds whenever they are used, however stale the previous one is. */
    method ContextSwitch(kernel: Kernel)
      requires Valid()
      requires forall i :: 0 <= i < processCount ==> pq[i].pid in kernel.prio
      modifies kernel
      ensures kernel.prio == Switched(Data(), old(kernel.prio))
      ensures kernel.resumed == old(kernel.resumed) + (if processCount == 0 then [] else [pq[currentProcessId].pid])
    {
      if previousActiveId >= 0 {
        kernel.Suspend(pq[previousActiveId].pid);
      }
      if currentProcessId >= 0 {
        kernel.Resume(pq[currentProcessId].pid);
      }
    }

    method Empty() returns (b: bool)
      requires Valid()
      ensures b <==> Queue(Data()) == []
    {
      EmptyExactly(Data());
      b := processCount == 0 && currentProcessId < 0;
    }
  }
}
