/** Whole SJF runs: nobody is preempted, and whoever starts is the shortest of all live processes. */
module SjfTheorems {
  import opened Processes
  import opened HeapContents
  import opened Timers
  import opened Policies
  import opened IdealClock
  import opened RunInvariants
  import opened RunTheorems
  import opened BusyPeriods
  import S = ShortestJob

  ghost function JobEntry(pr: Params, i: nat): Entry
    requires i < |pr.jobs| == |pr.pids|
  {
    Entry(i, pr.jobs[i].needed, pr.pids[i])
  }

  /** The live processes, keyed by all the time they need. */
  ghost function JobsOf(pr: Params, live: set<nat>): set<Entry>
    requires |pr.jobs| == |pr.pids| && forall i :: i in live ==> i < |pr.jobs|
  {
    set i | i in live :: JobEntry(pr, i)
  }

  /** The policy's processes are the live ones, with their original keys. */
  ghost predicate KeysOriginal(pr: Params, w: World) {
    Shaped(pr, w) && w.pol.Sjf? && Members(w.pol) == JobsOf(pr, w.live)
  }

  lemma {:induction false} AdmissionsKeepKeys(pr: Params, w: World, lo: nat, hi: nat)
    requires KeysOriginal(pr, w) && lo <= hi <= |pr.jobs|
    ensures var r := AdmitAll(pr, w, lo, hi);
            r.Some? && KeysOriginal(pr, r.value) && r.value.pol.sjf.active == w.pol.sjf.active
    decreases hi - lo
  {
    if lo < hi {
      var w' := AdmitOne(pr, w, lo);
      assert JobsOf(pr, w'.live) == JobsOf(pr, w.live) + {JobEntry(pr, lo)};
      AdmissionsKeepKeys(pr, w', lo + 1, hi);
    }
  }

  lemma ExitKeepsKeys(pr: Params, w: World, i: nat)
    requires KeysOriginal(pr, w) && WellFormed(w.pol) && i in w.live && w.pol.sjf.active == Some(JobEntry(pr, i))
    ensures KeysOriginal(pr, AfterExit(pr, w, i))
  {
    assert JobsOf(pr, w.live - {i}) == JobsOf(pr, w.live) - {JobEntry(pr, i)};
  }

  /** A context switch leaves an active process alone and otherwise starts the least live one. */
  ghost predicate Starts(pr: Params, before: Option<Entry>, w': World) {
    && KeysOriginal(pr, w') && w'.pol.sjf.active.Some?
    && if before.Some? then w'.pol.sjf.active == before
       else IsLeast(w'.pol.sjf.active.value, JobsOf(pr, w'.live))
  }

  lemma FinishStarts(pr: Params, w: World)
    requires KeysOriginal(pr, w)
    ensures Finish(pr, w).Continues? ==> Starts(pr, w.pol.sjf.active, Finish(pr, w).w)
  {
  }

  lemma TimerStarts(pr: Params, w: World, w': World)
    requires KeysOriginal(pr, w) && Steps(pr, w, TimerExpired, w')
    ensures Starts(pr, w.pol.sjf.active, w')
    ensures w.live <= w'.live
  {
    var e := Woken(pr, w);
    assert KeysOriginal(pr, e);
    AdmissionsKeepKeys(pr, e, w.clock.ptr, GroupEnd(pr.jobs, w.clock.ptr));
    LiveOnlyGrows(pr, e, w.clock.ptr, GroupEnd(pr.jobs, w.clock.ptr));
    FinishStarts(pr, AdmitAll(pr, e, w.clock.ptr, GroupEnd(pr.jobs, w.clock.ptr)).value);
  }

  lemma {:induction false} LiveOnlyGrows(pr: Params, w: World, lo: nat, hi: nat)
    requires Shaped(pr, w) && lo <= hi <= |pr.jobs|
    ensures var r := AdmitAll(pr, w, lo, hi); r.Some? ==> w.live <= r.value.live
    decreases hi - lo
  {
    if lo < hi && CanAdd(w.pol) {
      LiveOnlyGrows(pr, AdmitOne(pr, w, lo), lo + 1, hi);
    }
  }

  lemma CurrentJob(pr: Params, w: World)
    requires KeysOriginal(pr, w) && Matched(pr, w) && Settled(w.pol, w.prio) && w.live != {}
    ensures Running(pr, w).Some? && Running(pr, w).value in w.live
    ensures w.pol.sjf.active == Some(JobEntry(pr, Running(pr, w).value))
  {
    RunningIsCurrent(pr, w);
    assert Current(w.pol).value in JobsOf(pr, w.live);
  }

  lemma ExitStarts(pr: Params, w: World, w': World, i: nat)
    requires KeysOriginal(pr, w) && WellFormed(w.pol) && i in w.live && w.pol.sjf.active == Some(JobEntry(pr, i))
    requires Running(pr, w) == Some(i) && Steps(pr, w, ChildTerminated, w')
    ensures Starts(pr, None, w') && w'.live == w.live - {i}
  {
    var e := Elapse(pr, w, w.now + w.work[i]);
    ExitKeepsKeys(pr, e, i);
    FinishStarts(pr, AfterExit(pr, e, i));
  }

  /** One wake-up of SJF. */
  ghost predicate NextIsShortest(pr: Params, w: World, w': World) {
    && KeysOriginal(pr, w) && KeysOriginal(pr, w') && Current(w'.pol).Some?
    && if Current(w.pol).Some? && Current(w.pol).value.id in w'.live then Current(w'.pol) == Current(w.pol)
       else IsLeast(Current(w'.pol).value, JobsOf(pr, w'.live))
  }

  lemma NobodyIsActive(pr: Params, w: World)
    requires KeysOriginal(pr, w) && w.live == {}
    ensures w.pol.sjf.active == None
  {
    assert Members(w.pol) == {};
  }

  lemma SjfStepStarts(pr: Params, w: World, ev: Event, w': World)
    requires Inv(pr, w) && KeysOriginal(pr, w) && Steps(pr, w, ev, w')
    ensures NextIsShortest(pr, w, w')
  {
    if w.live == {} {
      NobodyIsActive(pr, w);
    } else {
      CurrentJob(pr, w);
    }
    match ev
    case TimerExpired => TimerStarts(pr, w, w');
    case ChildTerminated =>
      RunningIsCurrent(pr, w);
      ExitStarts(pr, w, w', Running(pr, w).value);
  }

  lemma NextStarts(pr: Params, ws: seq<World>, evs: seq<Event>, k: nat)
    requires IsPath(pr, ws, evs) && 0 < k <= |evs| && Inv(pr, ws[k - 1]) && KeysOriginal(pr, ws[k - 1])
    ensures NextIsShortest(pr, ws[k - 1], ws[k])
  {
    StepAt(pr, ws, evs, k - 1);
    SjfStepStarts(pr, ws[k - 1], evs[k - 1], ws[k]);
  }

  lemma {:induction false} RunKeepsKeys(pr: Params, ws: seq<World>, evs: seq<Event>, k: nat)
    requires Guarded(pr) && pr.strategy == SJF && IsRun(pr, ws, evs) && k <= |evs|
    ensures KeysOriginal(pr, ws[k])
    decreases k
  {
    if 0 < k {
      RunKeepsKeys(pr, ws, evs, k - 1);
      RunKeepsInv(pr, ws, evs, k - 1);
      NextStarts(pr, ws, evs, k);
    }
  }

  /** In every SJF run a process that is running at one wake-up is still running at the next unless it has
      finished; whoever starts instead needs the least time of all processes that are live then, and has
      the least pid among equals. */
  lemma SjfIsShortestFirst(pr: Params, ws: seq<World>, evs: seq<Event>, k: nat)
    requires Guarded(pr) && pr.strategy == SJF && IsRun(pr, ws, evs) && 0 < k <= |evs|
    ensures NextIsShortest(pr, ws[k - 1], ws[k])
  {
    RunKeepsKeys(pr, ws, evs, k - 1);
    RunKeepsInv(pr, ws, evs, k - 1);
    NextStarts(pr, ws, evs, k);
  }

  // ---------- The same in terms of the input ----------

  lemma LeastInNumbers(pr: Params, live: set<nat>, c: nat, j: nat)
    requires |pr.jobs| == |pr.pids| && c in live && j in live && forall i :: i in live ==> i < |pr.jobs|
    requires IsLeast(JobEntry(pr, c), JobsOf(pr, live))
    ensures pr.jobs[c].needed < pr.jobs[j].needed ||
            (pr.jobs[c].needed == pr.jobs[j].needed && pr.pids[c] <= pr.pids[j])
  {
    assert JobEntry(pr, j) in JobsOf(pr, live);
  }

  /** Whom the kernel runs before and after a wake-up. */
  lemma RunnersOf(pr: Params, w: World, w': World, c: nat)
    requires Inv(pr, w) && Inv(pr, w') && NextIsShortest(pr, w, w') && Running(pr, w') == Some(c)
    ensures c in w'.live && Current(w'.pol) == Some(JobEntry(pr, c))
    ensures Running(pr, w).Some? && Running(pr, w).value in w'.live ==> Running(pr, w).value == c
    ensures Running(pr, w) != Some(c) ==> IsLeast(JobEntry(pr, c), JobsOf(pr, w'.live))
  {
    RunningIsCurrent(pr, w);
    RunningIsCurrent(pr, w');
    CurrentJob(pr, w');
    if w.live != {} {
      CurrentJob(pr, w);
    }
  }

  lemma BeforeStep(pr: Params, ws: seq<World>, evs: seq<Event>, k: nat)
    requires Guarded(pr) && pr.strategy == SJF && IsRun(pr, ws, evs) && k <= |evs|
    ensures Inv(pr, ws[k]) && KeysOriginal(pr, ws[k])
  {
    RunKeepsInv(pr, ws, evs, k);
    RunKeepsKeys(pr, ws, evs, k);
  }

  lemma StepOfRun(pr: Params, ws: seq<World>, evs: seq<Event>, k: nat)
    requires Guarded(pr) && IsPath(pr, ws, evs) && 0 < k <= |evs| && Inv(pr, ws[k - 1]) && KeysOriginal(pr, ws[k - 1])
    ensures Inv(pr, ws[k]) && NextIsShortest(pr, ws[k - 1], ws[k])
  {
    NextInv(pr, ws, evs, k);
    NextStarts(pr, ws, evs, k);
  }

  /** One wake-up that makes the kernel start to run `c`. */
  lemma StartInNumbers(pr: Params, w: World, w': World, c: nat)
    requires Inv(pr, w) && Inv(pr, w') && NextIsShortest(pr, w, w')
    requires Running(pr, w') == Some(c) && Running(pr, w) != Some(c)
    ensures Running(pr, w).Some? ==> Running(pr, w).value !in w'.live
    ensures NeedsLeast(pr, w'.live, c)
  {
    RunnersOf(pr, w, w', c);
    forall j | j in w'.live
      ensures pr.jobs[c].needed < pr.jobs[j].needed ||
              (pr.jobs[c].needed == pr.jobs[j].needed && pr.pids[c] <= pr.pids[j])
    {
      LeastInNumbers(pr, w'.live, c, j);
    }
  }

  /** `c` needs less time than every live process, or the same and has no greater pid. */
  ghost predicate NeedsLeast(pr: Params, live: set<nat>, c: nat) {
    c < |pr.jobs| == |pr.pids| &&
    forall j :: j in live ==>
      j < |pr.jobs| && (pr.jobs[c].needed < pr.jobs[j].needed ||
                        (pr.jobs[c].needed == pr.jobs[j].needed && pr.pids[c] <= pr.pids[j]))
  }

  /** Two consecutive worlds of a run. */
  lemma AreConsecutive(pr: Params, ws: seq<World>, evs: seq<Event>, k: nat, w: World, w': World)
    requires Guarded(pr) && pr.strategy == SJF && IsRun(pr, ws, evs) && 0 < k <= |evs| && w == ws[k - 1] && w' == ws[k]
    ensures Inv(pr, w) && Inv(pr, w') && NextIsShortest(pr, w, w')
  {
    BeforeStep(pr, ws, evs, k - 1);
    StepOfRun(pr, ws, evs, k);
  }

  /** Whenever the kernel starts to run a process `c` in an SJF run, the one it ran before has finished, and every
      live process needs more time than `c`, or the same time and has no smaller pid. */
  lemma SjfStartsShortest(pr: Params, ws: seq<World>, evs: seq<Event>, k: nat, w: World, w': World, c: nat)
    requires Guarded(pr) && pr.strategy == SJF && IsRun(pr, ws, evs) && 0 < k <= |evs| && w == ws[k - 1] && w' == ws[k]
    requires Shaped(pr, w) && Shaped(pr, w') && Running(pr, w') == Some(c) && Running(pr, w) != Some(c)
    ensures Running(pr, w).Some? ==> Running(pr, w).value !in w'.live
    ensures c < |pr.jobs| && forall j :: j in w'.live ==>
              j < |pr.jobs| && (pr.jobs[c].needed < pr.jobs[j].needed ||
                                (pr.jobs[c].needed == pr.jobs[j].needed && pr.pids[c] <= pr.pids[j]))
  {
    AreConsecutive(pr, ws, evs, k, w, w');
    StartInNumbers(pr, w, w', c);
  }
}
