/** PSJF's event-driven, lazily accounted schedule is the one of a simulator that, at every tick, recomputes
    the shortest remaining time from scratch. */
module SrtSimulation {
  import opened Processes
  import opened HeapContents
  import opened Timers
  import opened Policies
  import opened IdealClock
  import opened RunInvariants
  import opened RunTheorems
  import opened BusyPeriods
  import P = PreemptiveShortestJob

  // ---------- The tick-by-tick reference ----------

  /** The processes that have arrived by tick `t` and still need CPU time, keyed by what they need. */
  ghost function ReadyAt(pr: Params, left: seq<nat>, t: int): set<Entry>
    requires |left| == |pr.jobs| == |pr.pids|
  {
    set i | 0 <= i < |left| && pr.jobs[i].arrival <= t && 0 < left[i] :: Entry(i, left[i], pr.pids[i])
  }

  /** What every process still needs at the beginning of tick `t`. */
  ghost function LeftAt(pr: Params, t: nat): (left: seq<nat>)
    requires |pr.jobs| == |pr.pids|
    ensures |left| == |pr.jobs|
    decreases t
  {
    if t == 0 then Needed(pr.jobs) else OneTick(pr, LeftAt(pr, t - 1), t - 1)
  }

  /** A tick goes to the process with the least remaining time, and among equals to the least pid. */
  ghost function OneTick(pr: Params, left: seq<nat>, t: int): (next: seq<nat>)
    requires |left| == |pr.jobs| == |pr.pids|
    ensures |next| == |left|
  {
    var ready := ReadyAt(pr, left, t);
    if ready == {} then left else left[Least(ready).id := left[Least(ready).id] - 1]
  }

  /** With `left` to be done at tick `t`, the simulator gives the tick to process `i`. */
  ghost predicate Picks(pr: Params, left: seq<nat>, t: int, i: nat)
    requires |left| == |pr.jobs| == |pr.pids|
  {
    var ready := ReadyAt(pr, left, t);
    ready != {} && Least(ready).id == i
  }

  /** In numbers: every process that has arrived and is not finished has more left to do, or the same and no
      smaller pid. */
  lemma PicksInNumbers(pr: Params, left: seq<nat>, t: int, i: nat)
    requires |left| == |pr.jobs| == |pr.pids| && Picks(pr, left, t, i)
    ensures i < |left| && pr.jobs[i].arrival <= t && 0 < left[i]
    ensures forall j :: 0 <= j < |left| && pr.jobs[j].arrival <= t && 0 < left[j] ==>
              left[i] < left[j] || (left[i] == left[j] && pr.pids[i] <= pr.pids[j])
  {
    var ready := ReadyAt(pr, left, t);
    assert Least(ready) in ready;
    forall j | 0 <= j < |left| && pr.jobs[j].arrival <= t && 0 < left[j]
      ensures left[i] < left[j] || (left[i] == left[j] && pr.pids[i] <= pr.pids[j])
    {
      assert AtMost(Least(ready), Entry(j, left[j], pr.pids[j]));
    }
  }

  /** In the simulation process `i` completes at time `t`. */
  ghost predicate CompletesAt(pr: Params, i: nat, t: nat)
    requires |pr.jobs| == |pr.pids|
  {
    && i < |pr.jobs| && pr.jobs[i].arrival <= t && LeftAt(pr, t)[i] == 0
    && forall u: nat :: pr.jobs[i].arrival <= u < t ==> 0 < LeftAt(pr, u)[i]
  }

  // ---------- Lazy accounting is exact ----------

  /** The keys of `heap` are what `work` says is left. */
  ghost predicate KeysExact(heap: set<Entry>, work: seq<nat>) {
    forall e :: e in heap ==> e.id < |work| && e.rem == work[e.id]
  }

  /** At every context switch PSJF's clock is the real time and every key is the real remaining time. */
  ghost predicate Exact(pr: Params, w: World) {
    && Shaped(pr, w) && w.pol.Psjf? && P.Settled(w.pol.psjf) && w.pol.psjf.cur == w.now
    && KeysExact(w.pol.psjf.heap, w.work)
  }

  lemma RunsTheLeast(pr: Params, w: World)
    requires Inv(pr, w) && Exact(pr, w) && w.live != {}
    ensures w.pol.psjf.heap != {}
    ensures Running(pr, w) == Some(Least(w.pol.psjf.heap).id) && w.pol.psjf.active == Some(Least(w.pol.psjf.heap))
  {
    RunningIsCurrent(pr, w);
  }

  lemma OneArrivalAtATime(pr: Params, w: World)
    requires Guarded(pr) && pr.strategy == PSJF && Inv(pr, w) && Enabled(pr, w, TimerExpired)
    requires AloneAt(pr.jobs, w.clock.ptr)
    ensures w.clock.ptr < |pr.jobs| && GroupEnd(pr.jobs, w.clock.ptr) == w.clock.ptr + 1
    ensures pr.jobs[w.clock.ptr].arrival == FireTime(w.clock) && ArrivalIsDue(pr, w)
    ensures var e := Elapse(pr, w, FireTime(w.clock)).(clock := AfterTimer(pr.jobs, false, w.clock));
            AdmitAll(pr, e, w.clock.ptr, w.clock.ptr + 1) ==
            if CanAdd(e.pol) then Some(AdmitOne(pr, e, w.clock.ptr)) else None
  {
    ClockStep(pr, w);
    GroupIsMaximal(pr.jobs, w.clock.ptr);
  }

  /** The world just before the context switch that ends a step. */
  lemma ArrivalStages(pr: Params, w: World, w': World) returns (e: World, f: World)
    requires Guarded(pr) && pr.strategy == PSJF && Inv(pr, w) && Steps(pr, w, TimerExpired, w')
    requires AloneAt(pr.jobs, w.clock.ptr)
    ensures e == Elapse(pr, w, FireTime(w.clock)).(clock := AfterTimer(pr.jobs, false, w.clock))
    ensures Shaped(pr, e) && CanAdd(e.pol) && w.clock.ptr < |pr.jobs| && f == AdmitOne(pr, e, w.clock.ptr)
    ensures w' == f.(pol := w'.pol, prio := w'.prio) && w'.pol == Switch(f.pol)
    ensures pr.jobs[w.clock.ptr].arrival == w'.now == FireTime(w.clock)
  {
    OneArrivalAtATime(pr, w);
    e := Elapse(pr, w, FireTime(w.clock)).(clock := AfterTimer(pr.jobs, false, w.clock));
    f := AdmitOne(pr, e, w.clock.ptr);
  }

  lemma ExitStages(pr: Params, w: World, w': World) returns (e: World)
    requires Steps(pr, w, ChildTerminated, w')
    ensures Running(pr, w).Some? && e == Elapse(pr, w, w.now + w.work[Running(pr, w).value]) && CanRemove(e.pol)
    ensures var i := Running(pr, w).value;
            && w'.log == e.log + [Finished(i, e.now)] && w'.live == w.live - {i} && w'.work == e.work
            && w'.now == e.now == w.now + w.work[i] && w'.clock == e.clock && w'.pol == Switch(Remove(e.pol))
  {
    e := Elapse(pr, w, w.now + w.work[Running(pr, w).value]);
  }

  lemma ElapseExtendsLog(pr: Params, w: World, t: int)
    requires Shaped(pr, w) && w.now <= t && Running(pr, w).Some? && t <= w.now + w.work[Running(pr, w).value]
    ensures var e, i := Elapse(pr, w, t), Running(pr, w).value;
            && e.log == w.log + [Ran(i, w.now, t)] && e.work == w.work[i := w.work[i] - (t - w.now)]
            && e.live == w.live && e.now == t && e.pol == w.pol
  {
  }

  lemma ExactAfterSwitch(pr: Params, w: World, s: P.PsjfState)
    requires Shaped(pr, w) && w.pol.Psjf? && w.pol.psjf == P.Switched(s) && s.cur == w.now
    requires KeysExact(s.heap, w.work)
    ensures Exact(pr, w)
  {
  }

  /** Charging the active process for the time it has really run makes all keys exact again. */
  lemma AddIsExact(s: P.PsjfState, e: Entry, arrival: int, work: seq<nat>)
    requires P.CanAdd(s) && KeysExact(s.heap, work) && s.last <= arrival <= s.last + s.active.value.rem
    requires forall x :: x in s.heap && x != s.active.value ==> x.id != s.active.value.id
    requires e.id < |work| && e.rem == work[e.id] && forall x :: x in s.heap ==> x.id != e.id
    ensures var a := s.active.value;
            a.id < |work| && KeysExact(P.Added(s, e, arrival).heap, work[a.id := a.rem - (arrival - s.last)])
  {
    assert s.active.value in s.heap;
  }

  lemma HeapIds(pr: Params, w: World)
    requires Inv(pr, w) && w.pol.Psjf?
    ensures forall x, y :: x in w.pol.psjf.heap && y in w.pol.psjf.heap && x.id == y.id ==> x == y
    ensures forall x :: x in w.pol.psjf.heap ==> x.id < w.clock.ptr
  {
    forall x | x in w.pol.psjf.heap ensures x.id < w.clock.ptr {
      assert x.id in IdsOf(Members(w.pol));
    }
    forall x, y | x in w.pol.psjf.heap && y in w.pol.psjf.heap && x.id == y.id ensures x == y {
      SameIdSameEntry(pr, w, x, y);
    }
  }

  lemma CanAddMeansLive(pr: Params, w: World)
    requires Inv(pr, w) && w.pol.Psjf? && P.CanAdd(w.pol.psjf)
    ensures w.live != {}
  {
    NoIdsNoMembers(Members(w.pol));
  }

  lemma ArrivalStaysExact(pr: Params, w: World, w': World)
    requires Guarded(pr) && Inv(pr, w) && Exact(pr, w) && Steps(pr, w, TimerExpired, w')
    requires AloneAt(pr.jobs, w.clock.ptr)
    ensures w.live != {} && Exact(pr, w')
  {
    var i := w.clock.ptr;
    var entry := Entry(i, pr.jobs[i].needed, pr.pids[i]);
    var e, f := ArrivalStages(pr, w, w');
    assert e.pol == w.pol;
    CanAddMeansLive(pr, w);
    RunsTheLeast(pr, w);
    HeapIds(pr, w);
    ElapseExtendsLog(pr, w, FireTime(w.clock));
    AddIsExact(w.pol.psjf, entry, w'.now, w.work);
    ExactAfterSwitch(pr, w', P.Added(w.pol.psjf, entry, w'.now));
  }

  lemma ExitStaysExact(pr: Params, w: World, w': World)
    requires Guarded(pr) && Inv(pr, w) && Exact(pr, w) && Steps(pr, w, ChildTerminated, w')
    ensures Exact(pr, w')
  {
    var e := ExitStages(pr, w, w');
    RunningIsCurrent(pr, w);
    RunsTheLeast(pr, w);
    HeapIds(pr, w);
    ExactAfterSwitch(pr, w', P.Removed(w.pol.psjf));
  }

  lemma StepStaysExact(pr: Params, w: World, ev: Event, w': World)
    requires Guarded(pr) && Inv(pr, w) && Exact(pr, w) && Steps(pr, w, ev, w')
    requires ev == TimerExpired ==> AloneAt(pr.jobs, w.clock.ptr)
    ensures w.live != {} && Exact(pr, w')
  {
    RunningIsCurrent(pr, w);
    match ev
    case TimerExpired => ArrivalStaysExact(pr, w, w');
    case ChildTerminated => ExitStaysExact(pr, w, w');
  }

  // ---------- Tick by tick ----------

  /** `heap` holds, with their keys, at least all processes that are ready at `t`, and only processes that
      have arrived. */
  ghost predicate HeapIsReady(pr: Params, heap: set<Entry>, work: seq<nat>, t: int) {
    && |work| == |pr.jobs| == |pr.pids| && DistinctPids(heap)
    && (forall e :: e in heap ==>
          e.id < |work| && e == Entry(e.id, work[e.id], pr.pids[e.id]) && pr.jobs[e.id].arrival <= t)
    && (forall j :: 0 <= j < |work| && pr.jobs[j].arrival <= t && 0 < work[j] ==>
          Entry(j, work[j], pr.pids[j]) in heap)
  }

  /** After the least process `a` of the heap has run for `k` ticks, the simulator would pick it again. */
  lemma SimulatorAgrees(pr: Params, heap: set<Entry>, work: seq<nat>, a: Entry, t: int, k: nat)
    requires HeapIsReady(pr, heap, work, t) && IsLeast(a, heap) && k < a.rem
    ensures var left := work[a.id := a.rem - k];
            var ready := ReadyAt(pr, left, t);
            ready != {} && Least(ready).id == a.id && forall e :: e in heap ==> 0 < left[e.id]
  {
    var left := work[a.id := a.rem - k];
    var ready := ReadyAt(pr, left, t);
    var c := Entry(a.id, left[a.id], pr.pids[a.id]);
    assert c in ready;
    forall x | x in ready ensures AtMost(c, x) && (x == c || (x in heap && x.id != a.id)) {
      if x.id != a.id {
        assert x == Entry(x.id, work[x.id], pr.pids[x.id]);
        assert AtMost(a, x);
      }
    }
    forall x, y | x in ready && y in ready && x.pid == y.pid ensures x == y {
      assert x != c && y != c ==> x in heap && y in heap;
    }
    LeastIsUnique(c, Least(ready), ready);
    forall e | e in heap ensures 0 < left[e.id] {
      assert AtMost(a, e);
    }
  }

  ghost predicate PickedThroughout(pr: Params, i: nat, from: int, to: int)
    requires |pr.jobs| == |pr.pids|
  {
    0 <= from && forall t: nat :: from <= t < to ==> Picks(pr, LeftAt(pr, t), t, i)
  }

  ghost predicate NeedsMoreThroughout(pr: Params, i: nat, from: int, to: int)
    requires |pr.jobs| == |pr.pids| && i < |pr.jobs|
  {
    forall t: nat :: from <= t < to ==> 0 < LeftAt(pr, t)[i]
  }

  lemma OneMoreTick(pr: Params, heap: set<Entry>, work: seq<nat>, a: Entry, t: nat, k: nat)
    requires HeapIsReady(pr, heap, work, t) && IsLeast(a, heap) && k < a.rem
    ensures var left := work[a.id := a.rem - k];
            && OneTick(pr, left, t) == work[a.id := a.rem - (k + 1)]
            && Picks(pr, left, t, a.id)
            && forall e :: e in heap ==> 0 < left[e.id]
  {
    SimulatorAgrees(pr, heap, work, a, t, k);
    var left := work[a.id := a.rem - k];
    assert OneTick(pr, left, t) == left[a.id := left[a.id] - 1];
  }

  lemma NextTick(pr: Params, t: nat)
    requires |pr.jobs| == |pr.pids|
    ensures LeftAt(pr, t + 1) == OneTick(pr, LeftAt(pr, t), t)
  {
  }

  /** Process `a` is the least one at `now` and stays alone with the heap for `d` ticks. */
  ghost predicate StaysLeast(pr: Params, heap: set<Entry>, work: seq<nat>, a: Entry, now: nat, d: nat) {
    && |work| == |pr.jobs| == |pr.pids|
    && (forall t :: now <= t < now + d ==> HeapIsReady(pr, heap, work, t))
    && a.id < |work| && a.rem == work[a.id] && IsLeast(a, heap) && d <= a.rem
  }

  ghost predicate CanRunFor(pr: Params, heap: set<Entry>, work: seq<nat>, a: Entry, now: nat, d: nat) {
    StaysLeast(pr, heap, work, a, now, d) && LeftAt(pr, now) == work
  }

  /** Entries `k` and `k + 1` of a table of simulator states are one tick apart. */
  ghost predicate TableStep(pr: Params, table: seq<seq<nat>>, now: nat, k: nat)
    requires |pr.jobs| == |pr.pids|
  {
    k + 1 < |table| && |table[k]| == |pr.jobs| && table[k + 1] == OneTick(pr, table[k], now + k)
  }

  lemma {:induction false} RunTable(pr: Params, heap: set<Entry>, work: seq<nat>, a: Entry, now: nat, d: nat,
                                    table: seq<seq<nat>>, k: nat)
    requires StaysLeast(pr, heap, work, a, now, d) && k <= d < |table| && table[0] == work
    requires forall j :: 0 <= j < d ==> TableStep(pr, table, now, j)
    ensures table[k] == work[a.id := a.rem - k]
    decreases k
  {
    if k == 0 {
      assert work[a.id := a.rem] == work;
    } else {
      RunTable(pr, heap, work, a, now, d, table, k - 1);
      assert TableStep(pr, table, now, k - 1);
      OneMoreTick(pr, heap, work, a, now + (k - 1), k - 1);
    }
  }

  ghost function Table(pr: Params, now: nat, d: nat): (table: seq<seq<nat>>)
    requires |pr.jobs| == |pr.pids|
    ensures |table| == d + 1 && forall k :: 0 <= k <= d ==> table[k] == LeftAt(pr, now + k)
  {
    seq(d + 1, k requires 0 <= k => LeftAt(pr, now + k))
  }

  lemma TableSteps(pr: Params, now: nat, d: nat)
    requires |pr.jobs| == |pr.pids|
    ensures forall k :: 0 <= k < d ==> TableStep(pr, Table(pr, now, d), now, k)
  {
    var table := Table(pr, now, d);
    forall k | 0 <= k < d ensures TableStep(pr, table, now, k) {
      NextTick(pr, now + k);
      assert table[k + 1] == LeftAt(pr, now + (k + 1));
    }
  }

  /** After `k` of the `d` ticks the simulator has charged them to `a`; it picks `a` again, and nobody else is
      done either. */
  lemma RunTicks(pr: Params, heap: set<Entry>, work: seq<nat>, a: Entry, now: nat, d: nat, k: nat, left: seq<nat>)
    requires CanRunFor(pr, heap, work, a, now, d) && k <= d && left == LeftAt(pr, now + k)
    ensures left == work[a.id := a.rem - k]
    ensures k < d ==> Picks(pr, left, now + k, a.id) && forall e :: e in heap ==> e.id < |work| && 0 < left[e.id]
  {
    var table := Table(pr, now, d);
    TableSteps(pr, now, d);
    assert table[0] == LeftAt(pr, now + 0);
    RunTable(pr, heap, work, a, now, d, table, k);
    if k < d {
      OneMoreTick(pr, heap, work, a, now + k, k);
    }
  }

  lemma HeapStaysReady(pr: Params, w: World, t: int)
    requires Inv(pr, w) && Exact(pr, w) && w.now <= t
    requires w.clock.ptr < |pr.jobs| ==> t < pr.jobs[w.clock.ptr].arrival
    ensures HeapIsReady(pr, w.pol.psjf.heap, w.work, t)
  {
    var heap := w.pol.psjf.heap;
    forall e | e in heap
      ensures e.id < |w.work| && e == Entry(e.id, w.work[e.id], pr.pids[e.id]) && pr.jobs[e.id].arrival <= t
    {
      assert e.id in IdsOf(Members(w.pol));
      assert pr.jobs[e.id].arrival <= pr.jobs[w.clock.ptr - 1].arrival;
    }
    forall j | 0 <= j < |w.work| && pr.jobs[j].arrival <= t && 0 < w.work[j]
      ensures Entry(j, w.work[j], pr.pids[j]) in heap
    {
      assert j < w.clock.ptr;
      var e :| e in Members(w.pol) && e.id == j;
    }
  }

  /** Nothing happens in the simulation before the first arrival. */
  lemma {:induction false} NothingBeforeFirstArrival(pr: Params, t: nat)
    requires ValidParams(pr) && t <= pr.jobs[0].arrival
    ensures LeftAt(pr, t) == Needed(pr.jobs)
  {
    if 0 < t {
      NothingBeforeFirstArrival(pr, t - 1);
      assert ReadyAt(pr, LeftAt(pr, t - 1), t - 1) == {};
    }
  }

  // ---------- The refinement ----------

  ghost predicate Confirmed(pr: Params, entry: LogEntry)
    requires |pr.jobs| == |pr.pids|
  {
    match entry
    case Ran(i, from, to) => PickedThroughout(pr, i, from, to)
    case Finished(i, at) => 0 <= at && CompletesAt(pr, i, at)
    case _ => true
  }

  /** The log says who got tick `t`. */
  ghost predicate SomebodyRan(log: seq<LogEntry>, t: int) {
    exists k :: 0 <= k < |log| && log[k].Ran? && log[k].from <= t < log[k].to
  }

  /** The process that ran during a step, and the entry that closes the step in the log. */
  ghost predicate Extends(pr: Params, w: World, w': World, i: nat, entry: LogEntry) {
    && i < |w.work| && w.now <= w'.now <= w.now + w.work[i]
    && w'.log == w.log + [Ran(i, w.now, w'.now)] + [entry]
    && w'.work == w.work[i := w.work[i] - (w'.now - w.now)]
  }

  lemma StagesExtend(pr: Params, w: World, t: int, e: World, w': World, entry: LogEntry)
    requires Shaped(pr, w) && w.now <= t && Running(pr, w).Some? && t <= w.now + w.work[Running(pr, w).value]
    requires e.log == Elapse(pr, w, t).log && e.work == Elapse(pr, w, t).work
    requires w'.now == t && w'.log == e.log + [entry] && w'.work == e.work
    ensures Extends(pr, w, w', Running(pr, w).value, entry)
  {
    ElapseExtendsLog(pr, w, t);
  }

  lemma ArrivalExtendsLog(pr: Params, w: World, w': World)
    requires Guarded(pr) && Inv(pr, w) && Exact(pr, w) && Steps(pr, w, TimerExpired, w')
    requires AloneAt(pr.jobs, w.clock.ptr)
    ensures Running(pr, w).Some? && w.clock.ptr < |pr.jobs| && pr.jobs[w.clock.ptr].arrival == w'.now
    ensures Extends(pr, w, w', Running(pr, w).value, Admitted(w.clock.ptr, w'.now))
    ensures w'.live == w.live + {w.clock.ptr} && w.live != {} && Running(pr, w).value < |pr.pids|
    ensures forall j :: j in w'.live ==> j in w.live || (j < |pr.jobs| && pr.jobs[j].arrival == w'.now)
  {
    var e, f := ArrivalStages(pr, w, w');
    assert e.pol == w.pol && e.live == w.live;
    CanAddMeansLive(pr, w);
    RunningIsCurrent(pr, w);
    StagesExtend(pr, w, w'.now, e, w', Admitted(w.clock.ptr, w'.now));
  }

  lemma ExitBeforeNextArrival(pr: Params, w: World)
    requires Inv(pr, w) && Enabled(pr, w, ChildTerminated) && w.clock.ptr < |pr.jobs|
    ensures w.now + w.work[Running(pr, w).value] <= pr.jobs[w.clock.ptr].arrival
  {
    NextArrivalIsDue(pr, w);
  }

  lemma ExitStagesExtend(pr: Params, w: World, w': World)
    requires Steps(pr, w, ChildTerminated, w')
    ensures Running(pr, w).Some? && w'.now == w.now + w.work[Running(pr, w).value]
    ensures Extends(pr, w, w', Running(pr, w).value, Finished(Running(pr, w).value, w'.now))
    ensures w'.live == w.live - {Running(pr, w).value}
  {
    var e := ExitStages(pr, w, w');
    StagesExtend(pr, w, w'.now, e, w', Finished(Running(pr, w).value, w'.now));
  }

  lemma ExitExtendsLog(pr: Params, w: World, w': World)
    requires Guarded(pr) && Inv(pr, w) && Exact(pr, w) && Steps(pr, w, ChildTerminated, w')
    ensures Running(pr, w).Some? && w'.now == w.now + w.work[Running(pr, w).value]
    ensures Extends(pr, w, w', Running(pr, w).value, Finished(Running(pr, w).value, w'.now))
    ensures w'.live == w.live - {Running(pr, w).value}
    ensures w.clock.ptr < |pr.jobs| ==> w'.now <= pr.jobs[w.clock.ptr].arrival
  {
    ExitStagesExtend(pr, w, w');
    if w.clock.ptr < |pr.jobs| {
      ExitBeforeNextArrival(pr, w);
    }
  }

  lemma NextArrivalIsDue(pr: Params, w: World)
    requires Inv(pr, w) && w.clock.ptr < |pr.jobs|
    ensures Ticking(w.clock) && FireTime(w.clock) <= pr.jobs[w.clock.ptr].arrival
  {
  }

  ghost predicate Covers(heap: set<Entry>, live: set<nat>) {
    forall j :: j in live ==> exists e :: e in heap && e.id == j
  }

  lemma SleepCanRun(pr: Params, w: World, i: nat, d: nat)
    requires Inv(pr, w) && Exact(pr, w) && 0 <= w.now && LeftAt(pr, w.now) == w.work && w.live != {}
    requires Running(pr, w) == Some(i) && d <= w.work[i]
    requires w.clock.ptr < |pr.jobs| ==> w.now + d <= pr.jobs[w.clock.ptr].arrival
    ensures CanRunFor(pr, w.pol.psjf.heap, w.work, Entry(i, w.work[i], pr.pids[i]), w.now, d)
    ensures Covers(w.pol.psjf.heap, w.live)
  {
    RunsTheLeast(pr, w);
    forall j | j in w.live ensures exists e :: e in w.pol.psjf.heap && e.id == j {
      var e :| e in Members(w.pol) && e.id == j;
    }
    assert Least(w.pol.psjf.heap) in Members(w.pol);
    forall u | w.now <= u < w.now + d ensures HeapIsReady(pr, w.pol.psjf.heap, w.work, u) {
      HeapStaysReady(pr, w, u);
    }
  }

  lemma NeedsMoreJoins(pr: Params, i: nat, from: int, mid: int, to: int)
    requires |pr.jobs| == |pr.pids| && i < |pr.jobs|
    requires NeedsMoreThroughout(pr, i, from, mid) && NeedsMoreThroughout(pr, i, mid, to)
    ensures NeedsMoreThroughout(pr, i, from, to)
  {
  }

  lemma CoverageGrows(log: seq<LogEntry>, log': seq<LogEntry>, i: nat, first: int, now: int, now': int)
    requires |log| < |log'| && log'[..|log|] == log && log'[|log|] == Ran(i, now, now')
    requires forall t :: first <= t < now ==> SomebodyRan(log, t)
    ensures forall t :: first <= t < now' ==> SomebodyRan(log', t)
  {
    forall t | first <= t < now' ensures SomebodyRan(log', t) {
      if t < now {
        assert SomebodyRan(log, t);
        var k :| 0 <= k < |log| && log[k].Ran? && log[k].from <= t < log[k].to;
        assert log'[k] == log'[..|log|][k];
      } else {
        assert log'[|log|].Ran?;
      }
    }
  }

  ghost predicate AllConfirmed(pr: Params, log: seq<LogEntry>)
    requires |pr.jobs| == |pr.pids|
  {
    forall k :: 0 <= k < |log| ==> Confirmed(pr, log[k])
  }

  lemma LogStaysConfirmed(pr: Params, log: seq<LogEntry>, ran: LogEntry, entry: LogEntry)
    requires |pr.jobs| == |pr.pids| && AllConfirmed(pr, log) && Confirmed(pr, ran) && Confirmed(pr, entry)
    ensures AllConfirmed(pr, log + [ran] + [entry])
  {
  }

  /** The log and the remaining work agree with the simulator up to `now`. */
  ghost predicate Agrees(pr: Params, log: seq<LogEntry>, live: set<nat>, work: seq<nat>, now: int)
    requires |pr.jobs| == |pr.pids| && pr.jobs != []
  {
    && pr.jobs[0].arrival <= now && LeftAt(pr, now) == work && AllConfirmed(pr, log)
    && (forall t :: pr.jobs[0].arrival <= t < now ==> SomebodyRan(log, t))
    && (forall i :: i in live ==> i < |pr.jobs| && NeedsMoreThroughout(pr, i, pr.jobs[i].arrival, now))
  }

  /** What the simulator does while the scheduler sleeps for `d` ticks. */
  lemma SleepIsSimulated(pr: Params, heap: set<Entry>, live: set<nat>, work: seq<nat>, a: Entry, now: int, d: nat)
    requires 0 <= now && CanRunFor(pr, heap, work, a, now, d) && Covers(heap, live)
    requires forall j :: j in live ==> j < |work|
    ensures LeftAt(pr, now + d) == work[a.id := a.rem - d]
    ensures PickedThroughout(pr, a.id, now, now + d)
    ensures forall j :: j in live ==> NeedsMoreThroughout(pr, j, now, now + d)
  {
    RunTicks(pr, heap, work, a, now, d, d, LeftAt(pr, now + d));
    forall t: nat | now <= t < now + d
      ensures Picks(pr, LeftAt(pr, t), t, a.id) && forall j :: j in live ==> 0 < LeftAt(pr, t)[j]
    {
      RunTicks(pr, heap, work, a, now, d, t - now, LeftAt(pr, t));
    }
  }

  /** The process `a` runs for `d` ticks and the log is closed with `entry`: an admission, or the completion
      of `a` if its work is done. */
  lemma AgreesAfterSleep(pr: Params, log: seq<LogEntry>, heap: set<Entry>, live: set<nat>, work: seq<nat>, a: Entry,
                         now: int, d: nat, entry: LogEntry)
    requires |pr.jobs| == |pr.pids| && pr.jobs != [] && Agrees(pr, log, live, work, now)
    requires CanRunFor(pr, heap, work, a, now, d) && Covers(heap, live)
    requires entry.Admitted? || (entry == Finished(a.id, now + d) && d == a.rem && a.id in live &&
                                 pr.jobs[a.id].arrival <= now)
    ensures Agrees(pr, log + [Ran(a.id, now, now + d)] + [entry], live, work[a.id := a.rem - d], now + d)
  {
    var log' := log + [Ran(a.id, now, now + d)] + [entry];
    SleepIsSimulated(pr, heap, live, work, a, now, d);
    forall j | j in live ensures NeedsMoreThroughout(pr, j, pr.jobs[j].arrival, now + d) {
      NeedsMoreJoins(pr, j, pr.jobs[j].arrival, now, now + d);
    }
    LogStaysConfirmed(pr, log, Ran(a.id, now, now + d), entry);
    CoverageGrows(log, log', a.id, pr.jobs[0].arrival, now, now + d);
  }

  lemma StepAgrees(pr: Params, w: World, w': World, i: nat, entry: LogEntry)
    requires |pr.jobs| == |pr.pids| && pr.jobs != [] && w.pol.Psjf?
    requires Agrees(pr, w.log, w.live, w.work, w.now) && Extends(pr, w, w', i, entry) && i < |pr.pids|
    requires CanRunFor(pr, w.pol.psjf.heap, w.work, Entry(i, w.work[i], pr.pids[i]), w.now, w'.now - w.now)
    requires Covers(w.pol.psjf.heap, w.live)
    requires entry.Admitted? || (entry == Finished(i, w'.now) && w'.now == w.now + w.work[i] && i in w.live &&
                                 pr.jobs[i].arrival <= w.now)
    requires forall j :: j in w'.live ==> j in w.live || (j < |pr.jobs| && pr.jobs[j].arrival == w'.now)
    ensures Agrees(pr, w'.log, w'.live, w'.work, w'.now)
  {
    AgreesAfterSleep(pr, w.log, w.pol.psjf.heap, w.live, w.work, Entry(i, w.work[i], pr.pids[i]), w.now,
                     w'.now - w.now, entry);
  }

  ghost predicate Simulated(pr: Params, w: World) {
    Inv(pr, w) && Exact(pr, w) && Agrees(pr, w.log, w.live, w.work, w.now)
  }

  lemma SleepAgrees(pr: Params, w: World, w': World, i: nat, entry: LogEntry)
    requires Simulated(pr, w) && pr.jobs != [] && Running(pr, w) == Some(i) && i < |pr.pids| && w.live != {}
    requires Extends(pr, w, w', i, entry)
    requires w.clock.ptr < |pr.jobs| ==> w'.now <= pr.jobs[w.clock.ptr].arrival
    requires entry.Admitted? || (entry == Finished(i, w'.now) && w'.now == w.now + w.work[i] && i in w.live &&
                                 pr.jobs[i].arrival <= w.now)
    requires forall j :: j in w'.live ==> j in w.live || (j < |pr.jobs| && pr.jobs[j].arrival == w'.now)
    ensures Agrees(pr, w'.log, w'.live, w'.work, w'.now)
  {
    SleepCanRun(pr, w, i, w'.now - w.now);
    StepAgrees(pr, w, w', i, entry);
  }

  lemma ArrivalStaysSimulated(pr: Params, w: World, w': World)
    requires Guarded(pr) && Simulated(pr, w) && Steps(pr, w, TimerExpired, w')
    requires AloneAt(pr.jobs, w.clock.ptr)
    ensures Agrees(pr, w'.log, w'.live, w'.work, w'.now)
  {
    ArrivalExtendsLog(pr, w, w');
    SleepAgrees(pr, w, w', Running(pr, w).value, Admitted(w.clock.ptr, w'.now));
  }

  lemma ExitStaysSimulated(pr: Params, w: World, w': World)
    requires Guarded(pr) && Simulated(pr, w) && Steps(pr, w, ChildTerminated, w')
    ensures Agrees(pr, w'.log, w'.live, w'.work, w'.now)
  {
    ExitExtendsLog(pr, w, w');
    SleepAgrees(pr, w, w', Running(pr, w).value, Finished(Running(pr, w).value, w'.now));
  }

  lemma StepStaysSimulated(pr: Params, w: World, ev: Event, w': World)
    requires Guarded(pr) && Simulated(pr, w) && Steps(pr, w, ev, w')
    requires ev == TimerExpired ==> AloneAt(pr.jobs, w.clock.ptr)
    ensures Simulated(pr, w')
  {
    StepKeepsInv(pr, w, ev);
    StepStaysExact(pr, w, ev, w');
    match ev
    case TimerExpired => ArrivalStaysSimulated(pr, w, w');
    case ChildTerminated => ExitStaysSimulated(pr, w, w');
  }

  lemma NextSimulated(pr: Params, ws: seq<World>, evs: seq<Event>, k: nat)
    requires Guarded(pr) && Increasing(pr.jobs) && IsPath(pr, ws, evs) && 0 < k <= |evs| && Simulated(pr, ws[k - 1])
    ensures Simulated(pr, ws[k])
  {
    StepAt(pr, ws, evs, k - 1);
    StepStaysSimulated(pr, ws[k - 1], evs[k - 1], ws[k]);
  }

  lemma WarmStartIsSimulated(pr: Params)
    requires Guarded(pr) && pr.strategy == PSJF
    ensures Simulated(pr, WarmPsjf(pr))
  {
    var w := WarmPsjf(pr);
    WarmStartIsInv(pr);
    NothingBeforeFirstArrival(pr, pr.jobs[0].arrival);
    var e := Entry(0, pr.jobs[0].needed, pr.pids[0]);
    assert Least({e}) == e;
  }

  lemma {:induction false} PsjfRun(pr: Params, ws: seq<World>, evs: seq<Event>, k: nat)
    requires ValidParams(pr) && Increasing(pr.jobs) && pr.strategy == PSJF && IsRun(pr, ws, evs) && k <= |evs|
    ensures Simulated(pr, ws[k])
    decreases k
  {
    if k == 0 {
      WarmStartIsSimulated(pr);
    } else {
      PsjfRun(pr, ws, evs, k - 1);
      NextSimulated(pr, ws, evs, k);
    }
  }

  /** In every PSJF run each tick since the first arrival has gone to the process that the simulator picks,
      and every process has completed exactly when it completes in the simulation. */
  lemma PsjfIsShortestRemainingTime(pr: Params, ws: seq<World>, evs: seq<Event>, k: nat)
    requires ValidParams(pr) && Increasing(pr.jobs) && pr.strategy == PSJF && IsRun(pr, ws, evs) && k <= |evs|
    ensures forall t :: pr.jobs[0].arrival <= t < ws[k].now ==> SomebodyRan(ws[k].log, t)
    ensures forall j :: 0 <= j < |ws[k].log| && ws[k].log[j].Ran? ==>
              var Ran(i, from, to) := ws[k].log[j];
              0 <= from && forall t: nat :: from <= t < to ==> Picks(pr, LeftAt(pr, t), t, i)
    ensures forall j :: 0 <= j < |ws[k].log| && ws[k].log[j].Finished? ==>
              var Finished(i, at) := ws[k].log[j];
              0 <= at && CompletesAt(pr, i, at)
    ensures 0 <= ws[k].now && LeftAt(pr, ws[k].now) == ws[k].work
  {
    PsjfRun(pr, ws, evs, k);
    var log := ws[k].log;
    forall j | 0 <= j < |log|
      ensures Confirmed(pr, log[j])
    {
    }
  }
}
