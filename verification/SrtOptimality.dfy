/** Shortest remaining time is optimal: no preemptive schedule of the same jobs has a smaller sum of completion
    times.  At every tick the simulator is ahead of any other schedule: whichever processes one may leave out
    of account there, one may leave out as many here and have no more work left. */
module SrtOptimality {
  import opened Processes
  import opened HeapContents
  import opened Timers
  import opened IdealClock
  import opened RunInvariants
  import opened RunTheorems
  import opened BusyPeriods
  import opened SrtSimulation

  // ---------- Being ahead ----------

  function Masked(v: seq<nat>, k: set<nat>): (m: seq<nat>)
    ensures |m| == |v| && forall i :: 0 <= i < |v| ==> m[i] == if i in k then 0 else v[i]
  {
    seq(|v|, i requires 0 <= i < |v| => if i in k then 0 else v[i])
  }

  /** All but `l` of `a` is no more work than all but `k` of `b`. */
  ghost predicate NoMoreWork(a: seq<nat>, l: set<nat>, b: seq<nat>, k: set<nat>) {
    |l| <= |k| && Total(Masked(a, l)) <= Total(Masked(b, k))
  }

  ghost predicate Matches(a: seq<nat>, b: seq<nat>, k: set<nat>) {
    exists l :: NoMoreWork(a, l, b, k)
  }

  ghost predicate Ahead(a: seq<nat>, b: seq<nat>) {
    |a| == |b| && forall k :: Matches(a, b, k)
  }

  lemma {:induction false} TotalGrows(a: seq<nat>, b: seq<nat>)
    requires |a| == |b| && forall i :: 0 <= i < |a| ==> a[i] <= b[i]
    ensures Total(a) <= Total(b)
    decreases |a|
  {
    if a != [] {
      TotalGrows(a[..|a| - 1], b[..|b| - 1]);
    }
  }

  lemma AheadOfItself(a: seq<nat>)
    ensures Ahead(a, a)
  {
    forall k ensures Matches(a, a, k) {
      assert NoMoreWork(a, k, a, k);
    }
  }

  lemma ArrivalMatches(a: seq<nat>, b: seq<nat>, i: nat, p: nat, k: set<nat>)
    requires Matches(a, b, k - {i}) && i < |a| == |b| && a[i] == 0 == b[i]
    ensures Matches(a[i := p], b[i := p], k)
  {
    var a', b' := a[i := p], b[i := p];
    var l :| NoMoreWork(a, l, b, k - {i});
    if i in k {
      assert |k - {i}| == |k| - 1;
      assert Masked(b', k) == Masked(b, k - {i});
      assert Masked(a', l + {i}) == Masked(a, l);
      assert NoMoreWork(a', l + {i}, b', k);
    } else {
      assert k - {i} == k;
      assert Masked(b', k) == Masked(b, k)[i := p];
      assert Masked(a', l - {i}) == Masked(a, l)[i := p];
      TotalUpdate(Masked(b, k), i, p);
      TotalUpdate(Masked(a, l), i, p);
      SubsetIsSmaller(l - {i}, l);
      assert NoMoreWork(a', l - {i}, b', k);
    }
  }

  /** A process that arrives here and there changes nothing. */
  lemma ArrivalKeepsAhead(a: seq<nat>, b: seq<nat>, i: nat, p: nat)
    requires Ahead(a, b) && i < |a| && a[i] == 0 == b[i]
    ensures Ahead(a[i := p], b[i := p])
  {
    var a', b' := a[i := p], b[i := p];
    forall k ensures Matches(a', b', k) {
      assert Matches(a, b, k - {i});
      ArrivalMatches(a, b, i, p, k);
    }
  }

  ghost predicate IsShortest(a: seq<nat>, m: nat) {
    m < |a| && 0 < a[m] && forall j :: 0 <= j < |a| && 0 < a[j] ==> a[m] <= a[j]
  }

  /** A tick for the shortest process lowers the work outside `l0`, possibly outside another set of the same
      size. */
  lemma ShortestTickHelps(a: seq<nat>, m: nat, l0: set<nat>) returns (l: set<nat>)
    requires IsShortest(a, m) && 0 < Total(Masked(a, l0))
    ensures |l| <= |l0| && Total(Masked(a[m := a[m] - 1], l)) < Total(Masked(a, l0))
  {
    var a' := a[m := a[m] - 1];
    var v := Masked(a, l0);
    if m !in l0 {
      l := l0;
      assert Masked(a', l) == v[m := a[m] - 1];
      TotalUpdate(v, m, a[m] - 1);
    } else {
      if forall j :: 0 <= j < |a| ==> v[j] == 0 {
        TotalOfZeros(v);
      }
      var j :| 0 <= j < |a| && v[j] != 0;
      l := l0 - {m} + {j};
      assert |l0 - {m}| == |l0| - 1;
      assert Masked(a', l) == v[j := 0][m := a[m] - 1];
      TotalUpdate(v, j, 0);
      TotalUpdate(v[j := 0], m, a[m] - 1);
    }
  }

  /** At most one tick of work is done on something. */
  ghost predicate AtMostATick(b: seq<nat>, b': seq<nat>) {
    |b| == |b'| && (b' == b || exists x :: 0 <= x < |b| && 0 < b[x] && b' == b[x := b[x] - 1])
  }

  lemma TickIsOne(b: seq<nat>, b': seq<nat>, k: set<nat>)
    requires AtMostATick(b, b')
    ensures Total(Masked(b, k)) <= Total(Masked(b', k)) + 1
  {
    if b' != b {
      var x :| 0 <= x < |b| && 0 < b[x] && b' == b[x := b[x] - 1];
      var v := Masked(b, k);
      if x in k {
        assert Masked(b', k) == v;
      } else {
        assert Masked(b', k) == v[x := b[x] - 1];
        TotalUpdate(v, x, b[x] - 1);
      }
    }
  }

  lemma TickMatches(a: seq<nat>, m: nat, b: seq<nat>, b': seq<nat>, k: set<nat>)
    requires Matches(a, b, k) && IsShortest(a, m) && AtMostATick(b, b')
    ensures Matches(a[m := a[m] - 1], b', k)
  {
    var a' := a[m := a[m] - 1];
    var l0 :| NoMoreWork(a, l0, b, k);
    TickIsOne(b, b', k);
    if Total(Masked(a, l0)) == 0 {
      TotalGrows(Masked(a', l0), Masked(a, l0));
      assert NoMoreWork(a', l0, b', k);
    } else {
      var l := ShortestTickHelps(a, m, l0);
      assert NoMoreWork(a', l, b', k);
    }
  }

  /** While the shortest process gets a tick here, any process may get one there. */
  lemma TickKeepsAhead(a: seq<nat>, m: nat, b: seq<nat>, b': seq<nat>)
    requires Ahead(a, b) && IsShortest(a, m) && AtMostATick(b, b')
    ensures Ahead(a[m := a[m] - 1], b')
  {
    var a' := a[m := a[m] - 1];
    forall k ensures Matches(a', b', k) {
      assert Matches(a, b, k);
      TickMatches(a, m, b, b', k);
    }
  }

  /** Who has nothing to do is ahead of everybody. */
  lemma IdleIsAhead(a: seq<nat>, b: seq<nat>)
    requires |a| == |b| && forall i :: 0 <= i < |a| ==> a[i] == 0
    ensures Ahead(a, b)
  {
    forall k ensures Matches(a, b, k) {
      TotalOfZeros(Masked(a, k));
      assert NoMoreWork(a, k, b, k);
    }
  }

  // ---------- Fewer processes are pending ----------

  function Pending(v: seq<nat>): (p: seq<nat>)
    ensures |p| == |v| && forall i :: 0 <= i < |v| ==> p[i] == if 0 < v[i] then 1 else 0
  {
    seq(|v|, i requires 0 <= i < |v| => if 0 < v[i] then 1 else 0)
  }

  function PendingSet(v: seq<nat>): set<nat> {
    set i: nat | i < |v| && 0 < v[i]
  }

  lemma {:induction false} PendingCounts(v: seq<nat>)
    ensures Total(Pending(v)) == |PendingSet(v)|
    decreases |v|
  {
    if v != [] {
      var n := |v| - 1;
      var u := v[..n];
      PendingCounts(u);
      assert Pending(v)[..n] == Pending(u);
      assert PendingSet(v) == PendingSet(u) + (if 0 < v[n] then {n} else {});
    }
  }

  lemma {:induction false} SubsetIsSmaller(s: set<nat>, t: set<nat>)
    requires s <= t
    ensures |s| <= |t|
    decreases s
  {
    if s != {} {
      var x :| x in s;
      SubsetIsSmaller(s - {x}, t - {x});
    }
  }

  lemma NothingOutside(a: seq<nat>, l: set<nat>)
    requires Total(Masked(a, l)) == 0
    ensures PendingSet(a) <= l
  {
    forall i | i in PendingSet(a) ensures i in l {
      PartOfTotal(Masked(a, l), i);
    }
  }

  lemma AheadMeansFewerPending(a: seq<nat>, b: seq<nat>)
    requires Ahead(a, b)
    ensures Total(Pending(a)) <= Total(Pending(b))
  {
    var k := PendingSet(b);
    TotalOfZeros(Masked(b, k));
    assert Matches(a, b, k);
    var l :| NoMoreWork(a, l, b, k);
    NothingOutside(a, l);
    SubsetIsSmaller(PendingSet(a), l);
    PendingCounts(a);
    PendingCounts(b);
  }

  // ---------- Tick schedules ----------

  /** A schedule gives tick `t` to at most one process, which has arrived and is not finished. */
  ghost predicate IsTick(pr: Params, left: seq<nat>, t: int, next: seq<nat>) {
    && |left| == |next| == |pr.jobs|
    && (next == left ||
        exists x :: 0 <= x < |left| && pr.jobs[x].arrival <= t && 0 < left[x] && next == left[x := left[x] - 1])
  }

  /** What every process still needs at the beginning of each tick of a preemptive schedule. */
  ghost predicate IsSchedule(pr: Params, lefts: seq<seq<nat>>) {
    && |lefts| > 0 && lefts[0] == Needed(pr.jobs) && (forall t :: 0 <= t < |lefts| ==> |lefts[t]| == |pr.jobs|)
    && forall t :: 0 <= t < |lefts| - 1 ==> IsTick(pr, lefts[t], t, lefts[t + 1])
  }

  lemma {:induction false} UntouchedBeforeArrival(pr: Params, lefts: seq<seq<nat>>, t: nat, i: nat)
    requires IsSchedule(pr, lefts) && t < |lefts| && i < |pr.jobs| && t <= pr.jobs[i].arrival
    ensures |lefts[t]| == |pr.jobs| && lefts[t][i] == pr.jobs[i].needed
    decreases t
  {
    if 0 < t {
      UntouchedBeforeArrival(pr, lefts, t - 1, i);
      assert IsTick(pr, lefts[t - 1], t - 1, lefts[t - 1 + 1]);
    }
  }

  lemma {:induction false} StaysDone(pr: Params, lefts: seq<seq<nat>>, c: nat, t: nat, i: nat)
    requires IsSchedule(pr, lefts) && c <= t < |lefts| && i < |pr.jobs| == |lefts[c]| && lefts[c][i] == 0
    ensures |lefts[t]| == |pr.jobs| && lefts[t][i] == 0
    decreases t
  {
    if c < t {
      StaysDone(pr, lefts, c, t - 1, i);
      assert IsTick(pr, lefts[t - 1], t - 1, lefts[t - 1 + 1]);
    }
  }

  /** The simulator up to tick `h`. */
  lemma SimulatorIsSchedule(pr: Params, h: nat)
    requires |pr.jobs| == |pr.pids|
    ensures IsSchedule(pr, Table(pr, 0, h))
  {
    var table := Table(pr, 0, h);
    forall t | 0 <= t < |table| - 1 ensures IsTick(pr, table[t], t, table[t + 1]) {
      NextTick(pr, t);
      TickOfSimulator(pr, LeftAt(pr, t), t);
      assert table[t] == LeftAt(pr, 0 + t) && table[t + 1] == LeftAt(pr, 0 + (t + 1));
    }
  }

  lemma TickOfSimulator(pr: Params, left: seq<nat>, t: int)
    requires |left| == |pr.jobs| == |pr.pids|
    ensures IsTick(pr, left, t, OneTick(pr, left, t))
  {
    var ready := ReadyAt(pr, left, t);
    if ready != {} {
      assert Least(ready) in ready;
    }
  }

  /** What is left of the processes that have arrived by tick `t`. */
  ghost function Visible(pr: Params, left: seq<nat>, t: int): (v: seq<nat>)
    requires |left| == |pr.jobs|
    ensures |v| == |left| && forall i :: 0 <= i < |v| ==> v[i] == if pr.jobs[i].arrival <= t then left[i] else 0
  {
    seq(|left|, i requires 0 <= i < |left| => if pr.jobs[i].arrival <= t then left[i] else 0)
  }

  lemma VisibleTick(pr: Params, left: seq<nat>, t: int, next: seq<nat>)
    requires IsTick(pr, left, t, next)
    ensures AtMostATick(Visible(pr, left, t), Visible(pr, next, t))
  {
    var v := Visible(pr, left, t);
    if next == left {
      assert Visible(pr, next, t) == v;
    } else {
      var x :| 0 <= x < |left| && pr.jobs[x].arrival <= t && 0 < left[x] && next == left[x := left[x] - 1];
      assert Visible(pr, next, t) == v[x := v[x] - 1];
    }
  }

  /** The simulator's tick goes to the shortest visible process, if there is one. */
  lemma SimulatorTick(pr: Params, left: seq<nat>, t: int)
    requires |left| == |pr.jobs| == |pr.pids|
    ensures var v, ready := Visible(pr, left, t), ReadyAt(pr, left, t);
            if ready == {} then
              Visible(pr, OneTick(pr, left, t), t) == v && forall i :: 0 <= i < |v| ==> v[i] == 0
            else
              var m := Least(ready).id;
              IsShortest(v, m) && Visible(pr, OneTick(pr, left, t), t) == v[m := v[m] - 1]
  {
    var v, ready := Visible(pr, left, t), ReadyAt(pr, left, t);
    forall i | 0 <= i < |v| && 0 < v[i] ensures Entry(i, left[i], pr.pids[i]) in ready {
    }
    if ready != {} {
      assert Least(ready) in ready;
      var m := Least(ready).id;
      forall j | 0 <= j < |v| && 0 < v[j] ensures v[m] <= v[j] {
        assert AtMost(Least(ready), Entry(j, left[j], pr.pids[j]));
      }
    }
  }

  /** The arrivals of one moment, up to process `n`. */
  ghost function Arriving(pr: Params, left: seq<nat>, t: int, n: nat): (v: seq<nat>)
    requires |left| == |pr.jobs|
    ensures |v| == |left|
    ensures forall i :: 0 <= i < |v| ==>
              v[i] == if pr.jobs[i].arrival <= (if i < n then t + 1 else t) then left[i] else 0
  {
    seq(|left|, i requires 0 <= i < |left| =>
      if pr.jobs[i].arrival <= (if i < n then t + 1 else t) then left[i] else 0)
  }

  lemma NextArrivalKeepsAhead(pr: Params, left: seq<nat>, other: seq<nat>, t: int, n: nat)
    requires |left| == |other| == |pr.jobs| && n < |pr.jobs|
    requires pr.jobs[n].arrival == t + 1 ==> left[n] == other[n]
    requires Ahead(Arriving(pr, left, t, n), Arriving(pr, other, t, n))
    ensures Ahead(Arriving(pr, left, t, n + 1), Arriving(pr, other, t, n + 1))
  {
    var a, b := Arriving(pr, left, t, n), Arriving(pr, other, t, n);
    if pr.jobs[n].arrival == t + 1 {
      ArrivalKeepsAhead(a, b, n, left[n]);
      assert Arriving(pr, left, t, n + 1) == a[n := left[n]];
      assert Arriving(pr, other, t, n + 1) == b[n := left[n]];
    } else {
      assert Arriving(pr, left, t, n + 1) == a && Arriving(pr, other, t, n + 1) == b;
    }
  }

  lemma {:induction false} ArrivalsKeepAhead(pr: Params, left: seq<nat>, other: seq<nat>, t: int, n: nat)
    requires |left| == |other| == |pr.jobs| && n <= |pr.jobs|
    requires forall i :: 0 <= i < |pr.jobs| && pr.jobs[i].arrival == t + 1 ==> left[i] == other[i]
    requires Ahead(Visible(pr, left, t), Visible(pr, other, t))
    ensures Ahead(Arriving(pr, left, t, n), Arriving(pr, other, t, n))
    decreases n
  {
    if n == 0 {
      assert Arriving(pr, left, t, 0) == Visible(pr, left, t);
      assert Arriving(pr, other, t, 0) == Visible(pr, other, t);
    } else {
      ArrivalsKeepAhead(pr, left, other, t, n - 1);
      NextArrivalKeepsAhead(pr, left, other, t, n - 1);
    }
  }

  lemma MomentKeepsAhead(pr: Params, left: seq<nat>, other: seq<nat>, t: int)
    requires |left| == |other| == |pr.jobs|
    requires forall i :: 0 <= i < |pr.jobs| && pr.jobs[i].arrival == t + 1 ==> left[i] == other[i]
    requires Ahead(Visible(pr, left, t), Visible(pr, other, t))
    ensures Ahead(Visible(pr, left, t + 1), Visible(pr, other, t + 1))
  {
    ArrivalsKeepAhead(pr, left, other, t, |pr.jobs|);
    assert Arriving(pr, left, t, |pr.jobs|) == Visible(pr, left, t + 1);
    assert Arriving(pr, other, t, |pr.jobs|) == Visible(pr, other, t + 1);
  }

  lemma TickStaysAhead(pr: Params, left: seq<nat>, other: seq<nat>, t: int, next: seq<nat>)
    requires |left| == |pr.jobs| == |pr.pids| && IsTick(pr, other, t, next)
    requires Ahead(Visible(pr, left, t), Visible(pr, other, t))
    ensures Ahead(Visible(pr, OneTick(pr, left, t), t), Visible(pr, next, t))
  {
    SimulatorTick(pr, left, t);
    VisibleTick(pr, other, t, next);
    var ready := ReadyAt(pr, left, t);
    if ready == {} {
      IdleIsAhead(Visible(pr, left, t), Visible(pr, next, t));
    } else {
      TickKeepsAhead(Visible(pr, left, t), Least(ready).id, Visible(pr, other, t), Visible(pr, next, t));
    }
  }

  lemma SameOnArrival(pr: Params, lefts: seq<seq<nat>>, t: nat, i: nat)
    requires |pr.jobs| == |pr.pids| && IsSchedule(pr, lefts) && t < |lefts| && i < |pr.jobs|
    requires pr.jobs[i].arrival == t
    ensures |lefts[t]| == |pr.jobs| && LeftAt(pr, t)[i] == lefts[t][i]
  {
    SimulatorIsSchedule(pr, t);
    UntouchedBeforeArrival(pr, Table(pr, 0, t), t, i);
    assert Table(pr, 0, t)[t] == LeftAt(pr, 0 + t);
    UntouchedBeforeArrival(pr, lefts, t, i);
  }

  /** From tick `t` to the next one. */
  lemma NextTickStaysAhead(pr: Params, lefts: seq<seq<nat>>, t: nat, left: seq<nat>, next: seq<nat>)
    requires |pr.jobs| == |pr.pids| && IsSchedule(pr, lefts) && t + 1 < |lefts|
    requires left == LeftAt(pr, t) && next == LeftAt(pr, t + 1) && |lefts[t]| == |lefts[t + 1]| == |pr.jobs|
    requires Ahead(Visible(pr, left, t), Visible(pr, lefts[t], t))
    ensures Ahead(Visible(pr, next, t + 1), Visible(pr, lefts[t + 1], t + 1))
  {
    TickStaysAhead(pr, left, lefts[t], t, lefts[t + 1]);
    NextTick(pr, t);
    forall i | 0 <= i < |pr.jobs| && pr.jobs[i].arrival == t + 1 ensures next[i] == lefts[t + 1][i] {
      SameOnArrival(pr, lefts, t + 1, i);
    }
    MomentKeepsAhead(pr, next, lefts[t + 1], t);
  }

  /** At every tick the simulator is ahead of any other schedule. */
  lemma {:induction false} SimulatorIsAhead(pr: Params, lefts: seq<seq<nat>>, t: nat, left: seq<nat>)
    requires |pr.jobs| == |pr.pids| && IsSchedule(pr, lefts) && t < |lefts| && left == LeftAt(pr, t)
    ensures |lefts[t]| == |pr.jobs| && Ahead(Visible(pr, left, t), Visible(pr, lefts[t], t))
    decreases t
  {
    if t == 0 {
      AheadOfItself(Visible(pr, Needed(pr.jobs), 0));
    } else {
      var before := LeftAt(pr, t - 1);
      SimulatorIsAhead(pr, lefts, t - 1, before);
      NextTickStaysAhead(pr, lefts, t - 1, before, left);
    }
  }

  // ---------- Completion times ----------

  /** In the schedule, process `i` completes at time `c`. */
  ghost predicate CompletesIn(pr: Params, lefts: seq<seq<nat>>, i: nat, c: nat)
    requires IsSchedule(pr, lefts)
  {
    && i < |pr.jobs| && pr.jobs[i].arrival <= c < |lefts|
    && lefts[c][i] == 0 && forall u: nat :: pr.jobs[i].arrival <= u < c ==> 0 < lefts[u][i]
  }

  function Plus(a: seq<nat>, b: seq<nat>): (c: seq<nat>)
    requires |a| == |b|
    ensures |c| == |a| && forall i :: 0 <= i < |a| ==> c[i] == a[i] + b[i]
  {
    seq(|a|, i requires 0 <= i < |a| => a[i] + b[i])
  }

  lemma {:induction false} TotalOfPlus(a: seq<nat>, b: seq<nat>)
    requires |a| == |b|
    ensures Total(Plus(a, b)) == Total(a) + Total(b)
    decreases |a|
  {
    if a != [] {
      var n := |a| - 1;
      TotalOfPlus(a[..n], b[..n]);
      assert Plus(a, b)[..n] == Plus(a[..n], b[..n]);
    }
  }

  /** How long every process has been pending by tick `t`. */
  ghost function Waits(pr: Params, lefts: seq<seq<nat>>, t: nat): (w: seq<nat>)
    requires IsSchedule(pr, lefts) && t <= |lefts|
    ensures |w| == |pr.jobs|
  {
    if t == 0 then seq(|pr.jobs|, i => 0)
    else Plus(Waits(pr, lefts, t - 1), Pending(Visible(pr, lefts[t - 1], t - 1)))
  }

  /** How long process `i` has been pending by tick `t` if it completes at `c`. */
  function WaitUntil(arrival: nat, c: nat, t: nat): nat {
    if t <= arrival || c <= arrival then 0 else if t <= c then t - arrival else c - arrival
  }

  lemma {:induction false} WaitIsDelay(pr: Params, lefts: seq<seq<nat>>, i: nat, c: nat, t: nat)
    requires IsSchedule(pr, lefts) && t <= |lefts| && CompletesIn(pr, lefts, i, c)
    ensures Waits(pr, lefts, t)[i] == WaitUntil(pr.jobs[i].arrival, c, t)
    decreases t
  {
    if 0 < t {
      WaitIsDelay(pr, lefts, i, c, t - 1);
      if c <= t - 1 {
        StaysDone(pr, lefts, c, t - 1, i);
      }
    }
  }

  ghost function Arrivals(jobs: seq<Job>): (a: seq<nat>)
    ensures |a| == |jobs| && forall i :: 0 <= i < |jobs| ==> a[i] == jobs[i].arrival
  {
    seq(|jobs|, i requires 0 <= i < |jobs| => jobs[i].arrival)
  }

  lemma CompletionIsWait(pr: Params, lefts: seq<seq<nat>>, i: nat, c: nat, w: seq<nat>)
    requires IsSchedule(pr, lefts) && CompletesIn(pr, lefts, i, c) && w == Waits(pr, lefts, |lefts|)
    ensures c == Arrivals(pr.jobs)[i] + w[i]
  {
    WaitIsDelay(pr, lefts, i, c, |lefts|);
  }

  /** The sum of the completion times is the sum of the arrival times and of all waiting. */
  lemma CompletionsAreWaits(pr: Params, lefts: seq<seq<nat>>, cs: seq<nat>, w: seq<nat>)
    requires IsSchedule(pr, lefts) && |cs| == |pr.jobs| && w == Waits(pr, lefts, |lefts|)
    requires forall i :: 0 <= i < |cs| ==> CompletesIn(pr, lefts, i, cs[i])
    ensures Total(cs) == Total(Arrivals(pr.jobs)) + Total(w)
  {
    forall i | 0 <= i < |cs| ensures cs[i] == Arrivals(pr.jobs)[i] + w[i] {
      CompletionIsWait(pr, lefts, i, cs[i], w);
    }
    assert cs == Plus(Arrivals(pr.jobs), w);
    TotalOfPlus(Arrivals(pr.jobs), w);
  }

  lemma {:induction false} SimulatorWaitsLess(pr: Params, lefts: seq<seq<nat>>, table: seq<seq<nat>>, t: nat)
    requires |pr.jobs| == |pr.pids| && IsSchedule(pr, lefts) && IsSimulated(pr, table) && |table| == |lefts|
    requires t <= |lefts|
    ensures Total(Waits(pr, table, t)) <= Total(Waits(pr, lefts, t))
    decreases t
  {
    if 0 < t {
      SimulatorWaitsLess(pr, lefts, table, t - 1);
      SimulatorIsAhead(pr, lefts, t - 1, table[t - 1]);
      var a, b := Visible(pr, table[t - 1], t - 1), Visible(pr, lefts[t - 1], t - 1);
      AheadMeansFewerPending(a, b);
      TotalOfPlus(Waits(pr, table, t - 1), Pending(a));
      TotalOfPlus(Waits(pr, lefts, t - 1), Pending(b));
    }
  }

  /** The simulator is done when the other schedule is. */
  lemma SimulatorIsDone(pr: Params, lefts: seq<seq<nat>>, h: nat, left: seq<nat>)
    requires |pr.jobs| == |pr.pids| && IsSchedule(pr, lefts) && h < |lefts| && left == LeftAt(pr, h)
    requires forall i :: 0 <= i < |pr.jobs| ==> lefts[h][i] == 0 && pr.jobs[i].arrival <= h
    ensures forall i :: 0 <= i < |pr.jobs| ==> left[i] == 0
  {
    SimulatorIsAhead(pr, lefts, h, left);
    var a, b := Visible(pr, left, h), Visible(pr, lefts[h], h);
    AheadMeansFewerPending(a, b);
    TotalOfZeros(Pending(b));
    forall i | 0 <= i < |pr.jobs| ensures left[i] == 0 {
      PartOfTotal(Pending(a), i);
    }
  }

  /** The simulator as a schedule. */
  ghost predicate IsSimulated(pr: Params, table: seq<seq<nat>>)
    requires |pr.jobs| == |pr.pids|
  {
    IsSchedule(pr, table) && forall u :: 0 <= u < |table| ==> table[u] == LeftAt(pr, u)
  }

  lemma SimulatorCompletes(pr: Params, table: seq<seq<nat>>, i: nat, d: nat)
    requires |pr.jobs| == |pr.pids| && IsSimulated(pr, table) && CompletesAt(pr, i, d)
    requires table[|table| - 1][i] == 0 && pr.jobs[i].arrival < |table|
    ensures CompletesIn(pr, table, i, d)
  {
    var h := |table| - 1;
    assert table[h] == LeftAt(pr, h);
    assert !(pr.jobs[i].arrival <= h < d);
  }

  lemma DoneAtTheEnd(pr: Params, lefts: seq<seq<nat>>, i: nat, c: nat)
    requires IsSchedule(pr, lefts) && CompletesIn(pr, lefts, i, c)
    ensures lefts[|lefts| - 1][i] == 0 && pr.jobs[i].arrival <= |lefts| - 1
  {
    StaysDone(pr, lefts, c, |lefts| - 1, i);
  }

  lemma SimulatorTable(pr: Params, h: nat) returns (table: seq<seq<nat>>)
    requires |pr.jobs| == |pr.pids|
    ensures IsSimulated(pr, table) && |table| == h + 1
  {
    table := Table(pr, 0, h);
    SimulatorIsSchedule(pr, h);
    forall u | 0 <= u < |table| ensures table[u] == LeftAt(pr, u) {
      assert table[u] == LeftAt(pr, 0 + u);
    }
  }

  /** No preemptive schedule that gives each tick to at most one process has a smaller sum of completion times
      than the simulator. */
  lemma ShortestRemainingTimeIsOptimal(pr: Params, lefts: seq<seq<nat>>, cs: seq<nat>, ds: seq<nat>)
    requires |pr.jobs| == |pr.pids| && IsSchedule(pr, lefts) && |cs| == |ds| == |pr.jobs|
    requires forall i :: 0 <= i < |cs| ==> CompletesIn(pr, lefts, i, cs[i])
    requires forall i :: 0 <= i < |ds| ==> CompletesAt(pr, i, ds[i])
    ensures Total(ds) <= Total(cs)
  {
    var h := |lefts| - 1;
    var table := SimulatorTable(pr, h);
    forall i | 0 <= i < |pr.jobs| ensures lefts[h][i] == 0 && pr.jobs[i].arrival <= h {
      DoneAtTheEnd(pr, lefts, i, cs[i]);
    }
    SimulatorIsDone(pr, lefts, h, table[h]);
    forall i | 0 <= i < |ds| ensures CompletesIn(pr, table, i, ds[i]) {
      SimulatorCompletes(pr, table, i, ds[i]);
    }
    CompletionsAreWaits(pr, lefts, cs, Waits(pr, lefts, |lefts|));
    CompletionsAreWaits(pr, table, ds, Waits(pr, table, |table|));
    SimulatorWaitsLess(pr, lefts, table, |lefts|);
  }

  // ---------- Runs of PSJF ----------

  lemma PsjfExitsWithChild(pr: Params, w: World, ev: Event)
    requires Guarded(pr) && pr.strategy == PSJF && Inv(pr, w) && Exact(pr, w) && Enabled(pr, w, ev)
    requires ev == TimerExpired ==> AloneAt(pr.jobs, w.clock.ptr)
    requires Handle(pr, w, ev).Exits?
    ensures ev == ChildTerminated
  {
    if ev == TimerExpired {
      OneArrivalAtATime(pr, w);
    }
  }

  lemma LastExitExtendsLog(pr: Params, w: World, w': World, i: nat)
    requires Shaped(pr, w) && Enabled(pr, w, ChildTerminated) && Handle(pr, w, ChildTerminated) == Exits(w')
    requires Running(pr, w) == Some(i)
    ensures w'.now == w.now + w.work[i] && w'.live == w.live - {i}
    ensures Extends(pr, w, w', i, Finished(i, w'.now))
  {
    StagesExtend(pr, w, w'.now, Elapse(pr, w, w.now + w.work[i]), w', Finished(i, w'.now));
  }

  lemma LastExitInTime(pr: Params, w: World, i: nat)
    requires Inv(pr, w) && Enabled(pr, w, ChildTerminated) && Running(pr, w) == Some(i)
    ensures w.clock.ptr < |pr.jobs| ==> w.now + w.work[i] <= pr.jobs[w.clock.ptr].arrival
  {
    if w.clock.ptr < |pr.jobs| {
      ExitBeforeNextArrival(pr, w);
    }
  }

  /** The last exit completes its process when the simulator does. */
  lemma LastExitIsSimulated(pr: Params, w: World, w': World)
    requires Guarded(pr) && Simulated(pr, w) && Enabled(pr, w, ChildTerminated)
    requires Handle(pr, w, ChildTerminated) == Exits(w')
    ensures Agrees(pr, w'.log, w'.live, w'.work, w'.now)
  {
    var i := Running(pr, w).value;
    LastExitExtendsLog(pr, w, w', i);
    LastExitInTime(pr, w, i);
    SleepAgrees(pr, w, w', i, Finished(i, w'.now));
  }

  lemma WholeRunIsSimulated(pr: Params, ws: seq<World>, evs: seq<Event>, ev: Event, w': World)
    requires ValidParams(pr) && Increasing(pr.jobs) && pr.strategy == PSJF && EndsIn(pr, ws, evs, ev, w')
    ensures AllConfirmed(pr, w'.log)
  {
    PsjfRun(pr, ws, evs, |evs|);
    PsjfExitsWithChild(pr, ws[|evs|], ev);
    LastExitIsSimulated(pr, ws[|evs|], w');
  }

  lemma {:induction false} FinishIsLogged(log: seq<LogEntry>, i: nat) returns (at: int)
    requires i in Finishes(log)
    ensures Finished(i, at) in log
    decreases |log|
  {
    var last := log[|log| - 1];
    if last.Finished? && last.id == i {
      at := last.at;
    } else {
      at := FinishIsLogged(log[..|log| - 1], i);
    }
  }

  /** The times at which the log says the first `n` processes have finished. */
  lemma {:induction false} FinishTimes(pr: Params, log: seq<LogEntry>, n: nat) returns (ds: seq<nat>)
    requires |pr.jobs| == |pr.pids| && AllConfirmed(pr, log) && forall i: nat :: i < n ==> i in Finishes(log)
    ensures |ds| == n && forall i :: 0 <= i < n ==> Finished(i, ds[i]) in log && CompletesAt(pr, i, ds[i])
  {
    if n == 0 {
      ds := [];
    } else {
      var init := FinishTimes(pr, log, n - 1);
      var at := FinishIsLogged(log, n - 1);
      var k :| 0 <= k < |log| && log[k] == Finished(n - 1, at);
      assert Confirmed(pr, log[k]);
      ds := init + [at];
    }
  }

  /** Every whole PSJF run without simultaneous arrivals is optimal: no preemptive schedule of the same jobs has a
      smaller sum of completion times than the times in the run's log. */
  lemma PsjfIsOptimal(pr: Params, ws: seq<World>, evs: seq<Event>, ev: Event, w': World, lefts: seq<seq<nat>>,
                      cs: seq<nat>)
    returns (ds: seq<nat>)
    requires ValidParams(pr) && Increasing(pr.jobs) && pr.strategy == PSJF && EndsIn(pr, ws, evs, ev, w')
    requires IsSchedule(pr, lefts) && |cs| == |pr.jobs|
    requires forall i :: 0 <= i < |cs| ==> CompletesIn(pr, lefts, i, cs[i])
    ensures |ds| == |pr.jobs| && forall i :: 0 <= i < |ds| ==> Finished(i, ds[i]) in w'.log
    ensures Total(ds) <= Total(cs)
  {
    WholeRunIsSimulated(pr, ws, evs, ev, w');
    ExitMeansAllDone(pr, ws, evs, ev, w');
    ds := FinishTimes(pr, w'.log, |pr.jobs|);
    ShortestRemainingTimeIsOptimal(pr, lefts, cs, ds);
  }
}
