/** PSJF when several processes arrive together.  `add_process_PSJF` charges the running process once per
    arrival, although time has passed only once; and after an arrival that preempts, the next one finds an
    active process that is not the top of the heap.  So PSJF is right exactly without such arrivals. */
module SimultaneousArrivals {
  import opened Processes
  import opened HeapContents
  import opened Timers
  import opened Policies
  import opened IdealClock
  import opened RunInvariants
  import opened RunTheorems
  import opened BusyPeriods
  import opened SrtSimulation
  import opened PsjfTheorems
  import P = PreemptiveShortestJob

  // ---------- Charging more than once ----------

  /** Process `id` is active, in the heap, and left with at most `rem`. */
  ghost predicate ActiveIs(s: P.PsjfState, id: nat, rem: int) {
    s.active.Some? && s.active.value in s.heap && s.active.value.id == id && s.active.value.rem <= rem
  }

  lemma ChargeOnce(pr: Params, w: World, i: nat, id: nat, rem: int)
    requires Shaped(pr, w) && i < |pr.jobs| && w.pol.Psjf? && P.CanAdd(w.pol.psjf) && ActiveIs(w.pol.psjf, id, rem)
    ensures AdmitOne(pr, w, i).pol.Psjf? && AdmitOne(pr, w, i).pol.psjf.last == w.pol.psjf.last
    ensures ActiveIs(AdmitOne(pr, w, i).pol.psjf, id, rem - (pr.jobs[i].arrival - w.pol.psjf.last))
  {
  }

  lemma {:induction false} ChargesNeverRaise(pr: Params, w: World, lo: nat, hi: nat, id: nat, rem: int)
    requires Shaped(pr, w) && lo <= hi <= |pr.jobs| && w.pol.Psjf? && ActiveIs(w.pol.psjf, id, rem)
    requires forall i :: lo <= i < hi ==> w.pol.psjf.last <= pr.jobs[i].arrival
    ensures var r := AdmitAll(pr, w, lo, hi); r.Some? ==> r.value.pol.Psjf? && ActiveIs(r.value.pol.psjf, id, rem)
    decreases hi - lo
  {
    if lo < hi && P.CanAdd(w.pol.psjf) {
      ChargeOnce(pr, w, lo, id, rem);
      ChargesNeverRaise(pr, AdmitOne(pr, w, lo), lo + 1, hi, id, rem);
    }
  }

  lemma GroupIsCharged(pr: Params, w: World, lo: nat, hi: nat, id: nat, rem: int, t: int)
    requires Shaped(pr, w) && lo < hi <= |pr.jobs| && w.pol.Psjf? && ActiveIs(w.pol.psjf, id, rem)
    requires w.pol.psjf.last <= t && forall i :: lo <= i < hi ==> pr.jobs[i].arrival == t
    ensures var r := AdmitAll(pr, w, lo, hi);
            r.Some? ==> r.value.pol.Psjf? && ActiveIs(r.value.pol.psjf, id, rem - (t - w.pol.psjf.last))
  {
    if P.CanAdd(w.pol.psjf) {
      ChargeOnce(pr, w, lo, id, rem);
      ChargesNeverRaise(pr, AdmitOne(pr, w, lo), lo + 1, hi, id, rem - (t - w.pol.psjf.last));
    }
  }

  /** A group of at least two is charged at least twice, if it is admitted at all. */
  lemma GroupIsChargedTwice(pr: Params, w: World, lo: nat, hi: nat, id: nat, rem: int, t: int)
    requires Shaped(pr, w) && lo + 2 <= hi <= |pr.jobs| && w.pol.Psjf? && ActiveIs(w.pol.psjf, id, rem)
    requires w.pol.psjf.last <= t && forall i :: lo <= i < hi ==> pr.jobs[i].arrival == t
    ensures var r := AdmitAll(pr, w, lo, hi);
            r.Some? ==> r.value.pol.Psjf? && ActiveIs(r.value.pol.psjf, id, rem - 2 * (t - w.pol.psjf.last))
  {
    if P.CanAdd(w.pol.psjf) {
      ChargeOnce(pr, w, lo, id, rem);
      GroupIsCharged(pr, AdmitOne(pr, w, lo), lo + 1, hi, id, rem - (t - w.pol.psjf.last), t);
    }
  }

  // ---------- The first shared arrival time ----------

  /** Process `n` is the first one with which another one arrives. */
  ghost predicate FirstShared(jobs: seq<Job>, n: nat) {
    n < |jobs| && !AloneAt(jobs, n) && forall i: nat :: i < n ==> AloneAt(jobs, i)
  }

  lemma {:induction false} SomeFirstShared(jobs: seq<Job>, k: nat) returns (n: nat)
    requires !AloneAt(jobs, k) && k < |jobs|
    ensures FirstShared(jobs, n)
    decreases k
  {
    if i: nat :| i < k && !AloneAt(jobs, i) {
      n := SomeFirstShared(jobs, i);
    } else {
      n := k;
    }
  }

  lemma EarlierThanShared(jobs: seq<Job>, i: nat, n: nat)
    requires SortedByArrival(jobs) && FirstShared(jobs, n) && i < n
    ensures jobs[i].arrival < jobs[n].arrival
  {
    assert AloneAt(jobs, i);
  }

  // ---------- Runs that go wrong ----------

  /** The run neither crashes nor ever loses track of a remaining time or of the clock. */
  ghost predicate StaysCorrect(pr: Params, ws: seq<World>, evs: seq<Event>)
    requires |ws| == |evs| + 1
  {
    (forall k :: 0 <= k <= |evs| ==> Exact(pr, ws[k])) && forall ev :: !CrashesAfter(pr, ws, evs, ev)
  }

  ghost predicate GoesWrong(pr: Params, ws: seq<World>, evs: seq<Event>) {
    IsPath(pr, ws, evs) && !StaysCorrect(pr, ws, evs)
  }

  /** Somebody is running when the group arrives and has been running for a while. */
  ghost predicate MeetsGroup(pr: Params, w: World) {
    && pr.strategy == PSJF && PsjfInv(pr, w) && w.live != {} && Enabled(pr, w, TimerExpired)
    && w.clock.ptr < |pr.jobs| && !AloneAt(pr.jobs, w.clock.ptr) && w.now < pr.jobs[w.clock.ptr].arrival
  }

  lemma GroupArrives(pr: Params, w: World)
    requires Guarded(pr) && MeetsGroup(pr, w)
    ensures ArrivalIsDue(pr, w) && FireTime(w.clock) == pr.jobs[w.clock.ptr].arrival
    ensures w.clock.ptr + 2 <= GroupEnd(pr.jobs, w.clock.ptr)
    ensures forall i :: w.clock.ptr <= i < GroupEnd(pr.jobs, w.clock.ptr) ==> pr.jobs[i].arrival == FireTime(w.clock)
  {
    ClockStep(pr, w);
    GroupIsMaximal(pr.jobs, w.clock.ptr);
  }

  /** The timer has fired for the group, and process `a` is to be charged for the time since `w`. */
  ghost predicate GroupAwaits(pr: Params, w: World, e: World, a: nat, t: int) {
    && Shaped(pr, e) && e.pol.Psjf? && P.CanAdd(e.pol.psjf) && e.pol.psjf.last == w.now < t
    && a < |w.work| == |e.work| && e.work[a] == w.work[a] - (t - w.now)
    && e.pol.psjf.active.value.id == a && e.pol.psjf.active.value.rem == w.work[a]
    && DistinctPids(e.pol.psjf.heap)
  }

  lemma GroupWakes(pr: Params, w: World)
    requires Guarded(pr) && MeetsGroup(pr, w)
    ensures Running(pr, w).Some? && GroupAwaits(pr, w, Woken(pr, w), Running(pr, w).value, FireTime(w.clock))
    ensures Woken(pr, w).pol == w.pol
  {
    GroupArrives(pr, w);
    RunsTheLeast(pr, w);
    ElapseExtendsLog(pr, w, FireTime(w.clock));
  }

  lemma ArrivalOutcome(pr: Params, w: World, w': World)
    requires Steps(pr, w, TimerExpired, w') && ArrivalIsDue(pr, w)
    ensures var r := AdmitAll(pr, Woken(pr, w), w.clock.ptr, GroupEnd(pr.jobs, w.clock.ptr));
            r.Some? && CanSwitch(r.value.pol) && w'.pol == Switch(r.value.pol) && w'.work == Woken(pr, w).work
  {
  }

  lemma LowKeyIsNotExact(pr: Params, w: World, s: P.PsjfState, a: nat, rem: int)
    requires ActiveIs(s, a, rem) && w.pol == Psjf(P.Switched(s)) && a < |w.work| && rem < w.work[a]
    ensures !Exact(pr, w)
  {
    assert s.active.value in w.pol.psjf.heap;
  }

  /** The running process is charged twice for the time that has passed, so its key ends up too low. */
  lemma GroupSpoilsKey(pr: Params, w: World, w': World)
    requires Guarded(pr) && MeetsGroup(pr, w) && Steps(pr, w, TimerExpired, w')
    ensures !Exact(pr, w')
  {
    GroupArrives(pr, w);
    GroupWakes(pr, w);
    ArrivalOutcome(pr, w, w');
    var a, t, e := Running(pr, w).value, FireTime(w.clock), Woken(pr, w);
    var lo, hi := w.clock.ptr, GroupEnd(pr.jobs, w.clock.ptr);
    GroupIsChargedTwice(pr, e, lo, hi, a, w.work[a], t);
    LowKeyIsNotExact(pr, w', AdmitAll(pr, e, lo, hi).value.pol.psjf, a, w.work[a] - 2 * (t - w.now));
  }

  lemma PsjfNeverExitsEarly(pr: Params, w: World, ev: Event)
    requires Shaped(pr, w) && Enabled(pr, w, ev) && w.pol.Psjf? && w.clock.ptr < |pr.jobs|
    requires ev == TimerExpired ==> ArrivalIsDue(pr, w)
    ensures !Handle(pr, w, ev).Exits?
  {
    if ev == TimerExpired {
      var r := AdmitAll(pr, Woken(pr, w), w.clock.ptr, GroupEnd(pr.jobs, w.clock.ptr));
      AdmittedIsNotEmpty(pr, Woken(pr, w), w.clock.ptr, GroupEnd(pr.jobs, w.clock.ptr));
    }
  }

  lemma {:induction false} AdmittedIsNotEmpty(pr: Params, w: World, lo: nat, hi: nat)
    requires Shaped(pr, w) && lo <= hi <= |pr.jobs| && w.pol.Psjf?
    ensures var r := AdmitAll(pr, w, lo, hi); r.Some? ==> r.value.pol.Psjf? && (lo < hi ==> !Empty(r.value.pol))
    decreases hi - lo
  {
    if lo < hi && P.CanAdd(w.pol.psjf) {
      AdmittedIsNotEmpty(pr, AdmitOne(pr, w, lo), lo + 1, hi);
    }
  }

  // ---------- A run to the first group ----------

  /** PSJF on its way to the group that starts with process `n`. */
  ghost predicate BeforeGroup(pr: Params, w: World, n: nat) {
    && Guarded(pr) && pr.strategy == PSJF && PidsDistinct(pr) && PsjfInv(pr, w)
    && FirstShared(pr.jobs, n) && w.clock.ptr <= n && w.now < pr.jobs[n].arrival
  }

  lemma SingleArrivalGoesOn(pr: Params, w: World, n: nat)
    requires BeforeGroup(pr, w, n) && w.live != {} && Enabled(pr, w, TimerExpired) && w.clock.ptr < n
    ensures var o := Handle(pr, w, TimerExpired); o.Continues? && BeforeGroup(pr, o.w, n)
  {
    assert AloneAt(pr.jobs, w.clock.ptr);
    PsjfBusyIsSafe(pr, w, TimerExpired);
    ClockStep(pr, w);
    GroupIsMaximal(pr.jobs, w.clock.ptr);
    PsjfNeverExitsEarly(pr, w, TimerExpired);
    var w' := Handle(pr, w, TimerExpired).w;
    PsjfStep(pr, w, TimerExpired, w');
    NextPtrIsReached(pr, w, TimerExpired);
    EarlierThanShared(pr.jobs, w.clock.ptr, n);
    TimerPassesTime(pr, w, w');
  }

  lemma ExitGoesOn(pr: Params, w: World, n: nat)
    requires BeforeGroup(pr, w, n) && w.live != {}
    requires Enabled(pr, w, ChildTerminated) && !Enabled(pr, w, TimerExpired)
    ensures var o := Handle(pr, w, ChildTerminated); o.Continues? && BeforeGroup(pr, o.w, n)
  {
    PsjfBusyIsSafe(pr, w, ChildTerminated);
    PsjfNeverExitsEarly(pr, w, ChildTerminated);
    var w' := Handle(pr, w, ChildTerminated).w;
    PsjfStep(pr, w, ChildTerminated, w');
    ExitMovesSo(pr, w, w');
    ForksAreFresh(pr, w);
    NextArrivalIsDue(pr, w);
    assert pr.jobs[w.clock.ptr].arrival <= pr.jobs[n].arrival;
  }

  lemma StepTowardsGroup(pr: Params, w: World, n: nat) returns (ev: Event)
    requires BeforeGroup(pr, w, n)
    ensures Enabled(pr, w, ev)
    ensures match Handle(pr, w, ev)
            case Crashes => true
            case Exits(w') => false
            case Continues(w') => !Exact(pr, w') ||
                                  (BeforeGroup(pr, w', n) && 0 <= EventsLeft(pr, w') < EventsLeft(pr, w))
  {
    SomeEventIsEnabled(pr, w);
    ev := if Enabled(pr, w, TimerExpired) then TimerExpired else ChildTerminated;
    if w.live == {} {
      PsjfIdleCrashes(pr, w);
    } else if ev == ChildTerminated {
      ExitGoesOn(pr, w, n);
      EventsFall(pr, w, ev);
    } else if w.clock.ptr < n {
      SingleArrivalGoesOn(pr, w, n);
      EventsFall(pr, w, ev);
    } else {
      GroupArrives(pr, w);
      PsjfNeverExitsEarly(pr, w, ev);
      if Handle(pr, w, ev).Continues? {
        GroupSpoilsKey(pr, w, Handle(pr, w, ev).w);
      }
    }
  }

  lemma EventsFall(pr: Params, w: World, ev: Event)
    requires Guarded(pr) && Inv(pr, w) && Enabled(pr, w, ev) && Handle(pr, w, ev).Continues?
    ensures var w' := Handle(pr, w, ev).w;
            Shaped(pr, w') && 0 <= EventsLeft(pr, w') < EventsLeft(pr, w)
  {
    StepKeepsInv(pr, w, ev);
    StepUsesEvents(pr, w, ev, Handle(pr, w, ev).w);
    EventsLeftIsNatural(pr, Handle(pr, w, ev).w);
  }

  lemma LastStepGoesWrong(pr: Params, w: World, ev: Event) returns (ws: seq<World>, evs: seq<Event>)
    requires Shaped(pr, w) && Enabled(pr, w, ev)
    requires Handle(pr, w, ev) == Crashes || (Handle(pr, w, ev).Continues? && !Exact(pr, Handle(pr, w, ev).w))
    ensures GoesWrong(pr, ws, evs) && ws[0] == w
  {
    if Handle(pr, w, ev) == Crashes {
      ws, evs := [w], [];
      assert CrashesAfter(pr, ws, evs, ev);
    } else {
      ws, evs := [w, Handle(pr, w, ev).w], [ev];
      assert !Exact(pr, ws[1]);
    }
  }

  lemma WrongLater(pr: Params, w: World, ev: Event, ws: seq<World>, evs: seq<Event>)
    requires GoesWrong(pr, ws, evs) && Steps(pr, w, ev, ws[0])
    ensures GoesWrong(pr, [w] + ws, [ev] + evs)
  {
    PrependStep(pr, w, ev, ws, evs);
    var ws', evs' := [w] + ws, [ev] + evs;
    if k :| 0 <= k <= |evs| && !Exact(pr, ws[k]) {
      assert ws'[k + 1] == ws[k];
    } else {
      var last :| CrashesAfter(pr, ws, evs, last);
      assert ws'[|evs'|] == ws[|evs|];
      assert CrashesAfter(pr, ws', evs', last);
    }
  }

  lemma {:induction false} RunToGroup(pr: Params, w: World, n: nat) returns (ws: seq<World>, evs: seq<Event>)
    requires BeforeGroup(pr, w, n)
    ensures GoesWrong(pr, ws, evs) && ws[0] == w
    decreases EventsLeft(pr, w)
  {
    var ev := StepTowardsGroup(pr, w, n);
    var o := Handle(pr, w, ev);
    if o.Continues? && Exact(pr, o.w) {
      var ws', evs' := RunToGroup(pr, o.w, n);
      WrongLater(pr, w, ev, ws', evs');
      ws, evs := [w] + ws', [ev] + evs';
    } else {
      ws, evs := LastStepGoesWrong(pr, w, ev);
    }
  }

  // ---------- When PSJF is right ----------

  lemma SharedArrivalGoesWrong(pr: Params) returns (ws: seq<World>, evs: seq<Event>)
    requires Guarded(pr) && pr.strategy == PSJF && PidsDistinct(pr) && !Increasing(pr.jobs)
    ensures IsRun(pr, ws, evs) && GoesWrong(pr, ws, evs)
  {
    var k: nat :| !AloneAt(pr.jobs, k);
    var n := SomeFirstShared(pr.jobs, k);
    WarmStartIsPsjf(pr);
    StartsInStep(pr.jobs, false);
    GroupIsMaximal(pr.jobs, 0);
    EarlierThanShared(pr.jobs, 0, n);
    ws, evs := RunToGroup(pr, Start(pr), n);
  }

  lemma IncreasingStaysCorrect(pr: Params, ws: seq<World>, evs: seq<Event>)
    requires ValidParams(pr) && pr.strategy == PSJF && Increasing(pr.jobs) && NeverRunsDry(pr.jobs)
    requires IsRun(pr, ws, evs)
    ensures StaysCorrect(pr, ws, evs)
  {
    forall k | 0 <= k <= |evs| ensures Exact(pr, ws[k]) {
      PsjfRunKeeps(pr, ws, evs, k);
    }
    forall ev ensures !CrashesAfter(pr, ws, evs, ev) {
      PsjfNeverCrashes(pr, ws, evs, ev);
    }
  }

  /** Started with a running process that arrived alone, PSJF never crashes and always knows the exact
      remaining times and the exact time if and only if no two processes arrive together and the processor
      never runs dry. */
  lemma PsjfIsCorrectExactly(pr: Params)
    requires ValidParams(pr) && pr.strategy == PSJF && PidsDistinct(pr) && AloneAt(pr.jobs, 0)
    ensures Increasing(pr.jobs) && NeverRunsDry(pr.jobs) <==>
            forall ws, evs :: IsRun(pr, ws, evs) ==> StaysCorrect(pr, ws, evs)
  {
    if !Increasing(pr.jobs) {
      var ws, evs := SharedArrivalGoesWrong(pr);
      assert IsRun(pr, ws, evs) && !StaysCorrect(pr, ws, evs);
    } else if NeverRunsDry(pr.jobs) {
      forall ws, evs | IsRun(pr, ws, evs) ensures StaysCorrect(pr, ws, evs) {
        IncreasingStaysCorrect(pr, ws, evs);
      }
    } else {
      PsjfIsSafeExactly(pr);
      var ws, evs, ev :| IsRun(pr, ws, evs) && CrashesAfter(pr, ws, evs, ev);
      assert !StaysCorrect(pr, ws, evs);
    }
  }

  // ---------- An input that never runs dry and still fails ----------

  lemma PreemptedGroupIsRefused(pr: Params, e: World, lo: nat, hi: nat, t: int)
    requires Shaped(pr, e) && lo + 2 <= hi <= |pr.jobs| && e.pol.Psjf? && P.CanAdd(e.pol.psjf)
    requires DistinctPids(e.pol.psjf.heap) && pr.pids[lo] !in PidsOf(e.pol.psjf.heap)
    requires pr.jobs[lo].arrival == t >= e.pol.psjf.last
    requires Before(Entry(lo, pr.jobs[lo].needed, pr.pids[lo]), P.Charged(e.pol.psjf, t))
    ensures AdmitAll(pr, e, lo, hi) == None
  {
    var first := Entry(lo, pr.jobs[lo].needed, pr.pids[lo]);
    P.TwoArrivalsWithoutSwitch(e.pol.psjf, first, first, t);
    assert !CanAdd(AdmitOne(pr, e, lo).pol);
  }

  /** If the first of the group needs less than the running process has left, the assertion fails for the
      second. */
  lemma PreemptingGroupCrashes(pr: Params, w: World)
    requires Guarded(pr) && MeetsGroup(pr, w) && Running(pr, w).Some?
    requires var t := pr.jobs[w.clock.ptr].arrival;
             pr.jobs[w.clock.ptr].needed < w.work[Running(pr, w).value] - (t - w.now)
    ensures Handle(pr, w, TimerExpired) == Crashes
  {
    GroupArrives(pr, w);
    GroupWakes(pr, w);
    PreemptedGroupIsRefused(pr, Woken(pr, w), w.clock.ptr, GroupEnd(pr.jobs, w.clock.ptr), FireTime(w.clock));
  }

  lemma CrashAtOnce(pr: Params, ev: Event)
    requires ValidParams(pr) && Shaped(pr, Start(pr)) && Enabled(pr, Start(pr), ev)
    requires Handle(pr, Start(pr), ev) == Crashes
    ensures IsRun(pr, [Start(pr)], []) && CrashesAfter(pr, [Start(pr)], [], ev)
  {
  }

  lemma StartMeetsPreemptingGroup(pr: Params)
    requires Guarded(pr) && MeetsGroup(pr, Start(pr)) && Running(pr, Start(pr)).Some?
    requires var w := Start(pr); var t := pr.jobs[w.clock.ptr].arrival;
             pr.jobs[w.clock.ptr].needed < w.work[Running(pr, w).value] - (t - w.now)
    ensures IsRun(pr, [Start(pr)], []) && CrashesAfter(pr, [Start(pr)], [], TimerExpired)
  {
    PreemptingGroupCrashes(pr, Start(pr));
    CrashAtOnce(pr, TimerExpired);
  }

  /** A process that needs 10 units is running when, at time 4, two shorter ones arrive. */
  ghost predicate IsPreemptingPair(pr: Params) {
    && pr.jobs == [Job(0, 10), Job(4, 2), Job(4, 8)] && |pr.pids| == 3 && PidsDistinct(pr) && pr.strategy == PSJF
  }

  lemma PairNeverRunsDry(jobs: seq<Job>)
    requires jobs == [Job(0, 10), Job(4, 2), Job(4, 8)]
    ensures NeverRunsDry(jobs)
  {
    forall i: nat ensures !RunsDryAt(jobs, i) {
      if 0 < i < 3 {
        BroughtGrows(jobs, 1, i);
        assert Needed(jobs)[..1] == [10] && Total([10]) == 10;
      }
    }
  }

  lemma PairMeetsGroup(pr: Params)
    requires IsPreemptingPair(pr)
    ensures Guarded(pr) && MeetsGroup(pr, Start(pr))
    ensures Start(pr).clock.ptr == 1 && Start(pr).now == 0 && Running(pr, Start(pr)) == Some(0)
  {
    var w := Start(pr);
    WarmStartIsPsjf(pr);
    RunningIsCurrent(pr, w);
    assert w.clock.ptr == 1 && FireTime(w.clock) == 4;
  }

  /** At time 4 the process that needs 2 units becomes the top of the heap, and the assertion fails for the
      one that needs 8, although the processor never runs dry. */
  lemma PreemptingPairCrashes(pr: Params)
    requires IsPreemptingPair(pr)
    ensures ValidParams(pr) && NeverRunsDry(pr.jobs)
    ensures IsRun(pr, [Start(pr)], []) && CrashesAfter(pr, [Start(pr)], [], TimerExpired)
  {
    PairNeverRunsDry(pr.jobs);
    PairMeetsGroup(pr);
    assert Start(pr).work[0] == 10;
    StartMeetsPreemptingGroup(pr);
  }

  // ---------- What holds even with simultaneous arrivals ----------

  /** No key is higher than what its process really needs. */
  ghost predicate KeysLow(heap: set<Entry>, work: seq<nat>) {
    forall e :: e in heap ==> e.id < |work| && e.rem <= work[e.id]
  }

  /** PSJF never overestimates: neither the time nor what a process still needs. */
  ghost predicate NotAhead(pr: Params, w: World) {
    && Shaped(pr, w) && w.pol.Psjf? && w.pol.psjf.last == w.pol.psjf.cur <= w.now && KeysLow(w.pol.psjf.heap, w.work)
  }

  /** Once the active process has been charged for the time until `t`, no key is too high. */
  ghost predicate LowAt(s: P.PsjfState, work: seq<nat>, t: int) {
    && s.last <= t && s.active.Some? && s.active.value.id < |work|
    && KeysLow(s.heap - {s.active.value}, work) && P.Charged(s, t).rem <= work[s.active.value.id]
  }

  lemma {:induction false} GroupStaysLow(pr: Params, w: World, lo: nat, hi: nat, t: int)
    requires Shaped(pr, w) && lo < hi <= |pr.jobs| && w.pol.Psjf? && LowAt(w.pol.psjf, w.work, t)
    requires forall i :: lo <= i < hi ==> pr.jobs[i].arrival == t && w.work[i] == pr.jobs[i].needed
    ensures var r := AdmitAll(pr, w, lo, hi);
            r.Some? ==> r.value.pol.Psjf? && r.value.pol.psjf.cur == t && KeysLow(r.value.pol.psjf.heap, w.work)
    decreases hi - lo
  {
    if P.CanAdd(w.pol.psjf) {
      var w' := AdmitOne(pr, w, lo);
      assert KeysLow(w'.pol.psjf.heap, w.work);
      if lo + 1 < hi {
        assert w'.pol.psjf.active.value in w'.pol.psjf.heap;
        GroupStaysLow(pr, w', lo + 1, hi, t);
      }
    }
  }

  lemma ArrivalStaysLow(pr: Params, w: World, w': World)
    requires Guarded(pr) && Inv(pr, w) && NotAhead(pr, w) && Steps(pr, w, TimerExpired, w')
    ensures NotAhead(pr, w')
  {
    var e, t, lo := Woken(pr, w), FireTime(w.clock), w.clock.ptr;
    ClockStep(pr, w);
    ArrivalOutcome(pr, w, w');
    var hi := GroupEnd(pr.jobs, lo);
    assert P.CanAdd(w.pol.psjf);
    CanAddMeansLive(pr, w);
    RunningIsCurrent(pr, w);
    ElapseExtendsLog(pr, w, t);
    OthersKeepTheirWork(pr, w, e.work);
    GroupStaysLow(pr, e, lo, hi, t);
  }

  /** While the active process runs, only its key gets out of date. */
  lemma OthersKeepTheirWork(pr: Params, w: World, work: seq<nat>)
    requires Inv(pr, w) && NotAhead(pr, w) && w.pol.psjf.active.Some? && w.pol.psjf.active.value in w.pol.psjf.heap
    requires |work| == |w.work|
    requires forall j :: 0 <= j < |work| && j != w.pol.psjf.active.value.id ==> work[j] == w.work[j]
    ensures KeysLow(w.pol.psjf.heap - {w.pol.psjf.active.value}, work)
  {
    forall e | e in w.pol.psjf.heap && e.id == w.pol.psjf.active.value.id ensures e == w.pol.psjf.active.value {
    }
  }

  lemma ExitStaysLow(pr: Params, w: World, w': World)
    requires Inv(pr, w) && NotAhead(pr, w) && Steps(pr, w, ChildTerminated, w')
    ensures NotAhead(pr, w')
  {
    var e := ExitStages(pr, w, w');
    RunningIsCurrent(pr, w);
    ElapseExtendsLog(pr, w, w'.now);
    OthersKeepTheirWork(pr, w, w'.work);
  }

  lemma StepStaysLow(pr: Params, w: World, ev: Event, w': World)
    requires Guarded(pr) && Inv(pr, w) && NotAhead(pr, w) && Steps(pr, w, ev, w')
    ensures NotAhead(pr, w')
  {
    match ev
    case TimerExpired => ArrivalStaysLow(pr, w, w');
    case ChildTerminated => ExitStaysLow(pr, w, w');
  }

  lemma NextStaysLow(pr: Params, ws: seq<World>, evs: seq<Event>, k: nat)
    requires Guarded(pr) && IsPath(pr, ws, evs) && 0 < k <= |evs| && Inv(pr, ws[k - 1]) && NotAhead(pr, ws[k - 1])
    ensures NotAhead(pr, ws[k])
  {
    StepAt(pr, ws, evs, k - 1);
    StepStaysLow(pr, ws[k - 1], evs[k - 1], ws[k]);
  }

  /** In every PSJF run, also with simultaneous arrivals, the inferred time is never ahead of the real time
      and no key is higher than what its process really needs. */
  lemma {:induction false} PsjfNeverOverestimates(pr: Params, ws: seq<World>, evs: seq<Event>, k: nat)
    requires Guarded(pr) && pr.strategy == PSJF && IsRun(pr, ws, evs) && k <= |evs|
    ensures NotAhead(pr, ws[k])
    decreases k
  {
    if k == 0 {
      WarmStartIsPsjf(pr);
    } else {
      PsjfNeverOverestimates(pr, ws, evs, k - 1);
      RunKeepsInv(pr, ws, evs, k - 1);
      NextStaysLow(pr, ws, evs, k);
    }
  }
}
