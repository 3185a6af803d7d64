/** What every wake-up of every run keeps: the policy, the kernel, the timer and the log agree. */
module RunInvariants {
  import opened Processes
  import opened HeapContents
  import opened Timers
  import opened Policies
  import opened IdealClock
  import R = RoundRobin
  import S = ShortestJob
  import P = PreemptiveShortestJob

  /** The process after `i` does not arrive together with it. */
  ghost predicate AloneAt(jobs: seq<Job>, i: nat) {
    i + 1 < |jobs| ==> jobs[i].arrival < jobs[i + 1].arrival
  }

  /** No two processes arrive together. */
  ghost predicate Increasing(jobs: seq<Job>) {
    forall i: nat :: AloneAt(jobs, i)
  }

  /** The guards the code relies on: no ties in round robin, and a first PSJF process that arrives alone, since
      PSJF runs start with it. */
  ghost predicate Guarded(pr: Params) {
    && ValidParams(pr)
    && (pr.strategy == RR ==> NoTies(pr.jobs))
    && (pr.strategy == PSJF ==> AloneAt(pr.jobs, 0))
  }

  ghost function IdsOf(s: set<Entry>): set<nat> {
    set e | e in s :: e.id
  }

  /** The first `admitted` processes have been handed over, in input order and each at its arrival time;
      those among them that are no longer live have finished, once each, with all their work done. */
  ghost predicate Logged(pr: Params, w: World, admitted: nat)
    requires Shaped(pr, w)
  {
    && |Admissions(w.log)| == admitted <= |pr.jobs|
    && (forall i :: 0 <= i < admitted ==> Admissions(w.log)[i] == (i, pr.jobs[i].arrival))
    && (forall k :: 0 <= k < |SliceEnds(w.log)| ==> SliceEnds(w.log)[k] == RR_TIMES_OF_UNIT * (k + 1))
    && (forall i: nat :: i in Finishes(w.log) <==> i < admitted && i !in w.live)
    && (forall i, j :: 0 <= i < j < |Finishes(w.log)| ==> Finishes(w.log)[i] != Finishes(w.log)[j])
  }

  ghost predicate Accounted(pr: Params, w: World, admitted: nat)
    requires Shaped(pr, w)
  {
    && (forall i :: i in w.live ==> i < admitted)
    && (forall i :: admitted <= i < |pr.jobs| ==> w.work[i] == pr.jobs[i].needed)
    && (forall i :: 0 <= i < admitted && i < |pr.jobs| && i !in w.live ==> w.work[i] == 0)
  }

  ghost predicate Matched(pr: Params, w: World)
    requires Shaped(pr, w)
  {
    && WellFormed(w.pol)
    && IdsOf(Members(w.pol)) == w.live
    && forall e :: e in Members(w.pol) ==> e.id < |pr.jobs| && e.pid == pr.pids[e.id]
  }

  ghost predicate Core(pr: Params, w: World, admitted: nat) {
    Shaped(pr, w) && Matched(pr, w) && Accounted(pr, w, admitted) && Logged(pr, w, admitted)
  }

  ghost predicate OnTime(pr: Params, w: World) {
    && InStep(pr.jobs, IsRR(pr), w.clock, |SliceEnds(w.log)|)
    && w.clock.armedAt <= w.now
    && (Ticking(w.clock) ==> w.now <= FireTime(w.clock))
    && (IsRR(pr) || w.clock.ptr < |pr.jobs| ==> Ticking(w.clock))
  }

  /** What holds whenever the loop is about to sleep. */
  ghost predicate Inv(pr: Params, w: World) {
    && Core(pr, w, w.clock.ptr) && Settled(w.pol, w.prio) && OnTime(pr, w)
    && (w.clock.ptr == |pr.jobs| ==> w.live != {})
  }

  // ---------- The running child is the policy's current process ----------

  lemma SameIdSameEntry(pr: Params, w: World, e: Entry, f: Entry)
    requires Shaped(pr, w) && Matched(pr, w)
    requires e in Members(w.pol) && f in Members(w.pol) && e.id == f.id
    ensures e == f
  {
  }

  lemma RunningIsCurrent(pr: Params, w: World)
    requires Shaped(pr, w) && Matched(pr, w) && Settled(w.pol, w.prio)
    ensures w.live == {} ==> Running(pr, w) == None
    ensures w.live != {} ==> Current(w.pol).Some? && Running(pr, w) == Some(Current(w.pol).value.id)
    ensures Running(pr, w).Some? ==> Running(pr, w).value in w.live
    ensures w.live == {} <==> Members(w.pol) == {}
  {
    if w.live != {} {
      var i :| i in w.live;
      var e :| e in Members(w.pol) && e.id == i;
      var c := Current(w.pol).value;
      assert c.pid in PidsOf(Members(w.pol)) && c.id in IdsOf(Members(w.pol));
      assert IsHigh(pr, w, c.id);
      forall j | IsHigh(pr, w, j) ensures j == c.id {
        var f :| f in Members(w.pol) && f.id == j;
        assert f.pid == c.pid;
      }
    }
    NoIdsNoMembers(Members(w.pol));
  }

  lemma NoIdsNoMembers(s: set<Entry>)
    ensures IdsOf(s) == {} <==> s == {}
  {
    if s != {} {
      var e :| e in s;
      assert e.id in IdsOf(s);
    }
  }

  // ---------- The pieces of the handlers ----------

  lemma ElapseKeepsCore(pr: Params, w: World, t: int)
    requires Core(pr, w, w.clock.ptr) && Settled(w.pol, w.prio) && w.now <= t
    requires Running(pr, w).Some? ==> t <= w.now + w.work[Running(pr, w).value]
    ensures Core(pr, Elapse(pr, w, t), w.clock.ptr)
    ensures SliceEnds(Elapse(pr, w, t).log) == SliceEnds(w.log)
  {
    RunningIsCurrent(pr, w);
    if Running(pr, w).Some? {
      LogAppend(w.log, Ran(Running(pr, w).value, w.now, t));
    }
  }

  lemma IdsAfterAdd(pol: Policy, e: Entry, arrival: int)
    requires WellFormed(pol) && CanAdd(pol)
    ensures IdsOf(MembersAfterAdd(pol, e, arrival)) == IdsOf(Members(pol)) + {e.id}
  {
    var s, t := Members(pol), MembersAfterAdd(pol, e, arrival);
    if pol.Psjf? {
      var a, c := pol.psjf.active.value, P.Charged(pol.psjf, arrival);
      forall x | x in s ensures x.id in IdsOf(t) {
        assert (if x == a then c else x) in t;
      }
      assert a in s && e in t;
    }
  }

  lemma AdmitOneKeepsMatched(pr: Params, w: World, i: nat)
    requires Shaped(pr, w) && Matched(pr, w) && Quiet(w.pol, w.prio) && i < |pr.jobs| && CanAdd(w.pol)
    requires pr.pids[i] !in w.prio
    ensures Shaped(pr, AdmitOne(pr, w, i)) && Matched(pr, AdmitOne(pr, w, i))
    ensures Quiet(AdmitOne(pr, w, i).pol, AdmitOne(pr, w, i).prio)
  {
    var e, arrival := Entry(i, pr.jobs[i].needed, pr.pids[i]), pr.jobs[i].arrival;
    AddKeepsQuiet(w.pol, w.prio, e, arrival);
    IdsAfterAdd(w.pol, e, arrival);
    MembersMatchAfterAdd(pr, w, e, arrival);
  }

  lemma MembersMatchAfterAdd(pr: Params, w: World, e: Entry, arrival: int)
    requires Shaped(pr, w) && Matched(pr, w) && CanAdd(w.pol) && e.id < |pr.jobs| && e.pid == pr.pids[e.id]
    ensures forall x :: x in MembersAfterAdd(w.pol, e, arrival) ==> x.id < |pr.jobs| && x.pid == pr.pids[x.id]
  {
    assert w.pol.Psjf? ==> w.pol.psjf.active.value in Members(w.pol);
  }

  lemma AdmitOneKeepsLog(pr: Params, w: World, i: nat)
    requires Shaped(pr, w) && Accounted(pr, w, i) && Logged(pr, w, i) && i < |pr.jobs| && CanAdd(w.pol)
    requires w.now == pr.jobs[i].arrival
    ensures Shaped(pr, AdmitOne(pr, w, i))
    ensures Accounted(pr, AdmitOne(pr, w, i), i + 1) && Logged(pr, AdmitOne(pr, w, i), i + 1)
    ensures SliceEnds(AdmitOne(pr, w, i).log) == SliceEnds(w.log)
  {
    LogAppend(w.log, Admitted(i, w.now));
  }

  lemma AdmitOneKeepsCore(pr: Params, w: World, i: nat)
    requires Core(pr, w, i) && Quiet(w.pol, w.prio) && i < |pr.jobs| && CanAdd(w.pol)
    requires w.now == pr.jobs[i].arrival && pr.pids[i] !in w.prio
    ensures Core(pr, AdmitOne(pr, w, i), i + 1)
    ensures Quiet(AdmitOne(pr, w, i).pol, AdmitOne(pr, w, i).prio)
    ensures SliceEnds(AdmitOne(pr, w, i).log) == SliceEnds(w.log)
    ensures AdmitOne(pr, w, i).prio.Keys == w.prio.Keys + {pr.pids[i]}
  {
    AdmitOneKeepsMatched(pr, w, i);
    AdmitOneKeepsLog(pr, w, i);
  }

  lemma {:induction false} AdmitAllKeepsCore(pr: Params, w: World, lo: nat, hi: nat)
    requires Core(pr, w, lo) && Quiet(w.pol, w.prio) && lo <= hi <= |pr.jobs|
    requires forall i :: lo <= i < hi ==> w.now == pr.jobs[i].arrival && pr.pids[i] !in w.prio
    requires forall i, j :: lo <= j < i < hi ==> pr.pids[j] != pr.pids[i]
    ensures var r := AdmitAll(pr, w, lo, hi);
            r.Some? ==> Core(pr, r.value, hi) && Quiet(r.value.pol, r.value.prio) &&
                        SliceEnds(r.value.log) == SliceEnds(w.log) && (lo < hi ==> lo in r.value.live) &&
                        w.live <= r.value.live
    decreases hi - lo
  {
    if lo < hi && CanAdd(w.pol) {
      AdmitOneKeepsCore(pr, w, lo);
      AdmitAllKeepsCore(pr, AdmitOne(pr, w, lo), lo + 1, hi);
    }
  }

  lemma SliceKeepsCore(pr: Params, w: World, admitted: nat)
    requires Core(pr, w, admitted) && Settled(w.pol, w.prio) && w.pol.RoundRobin?
    requires w.now == RR_TIMES_OF_UNIT * (|SliceEnds(w.log)| + 1)
    ensures var w' := AfterSliceEnd(w);
            Core(pr, w', admitted) && Ready(w'.pol, w'.prio) && |SliceEnds(w'.log)| == |SliceEnds(w.log)| + 1
  {
    SliceGetsReady(w.pol.ring, w.prio);
    LogAppend(w.log, SliceEnded(w.now));
  }

  lemma IdsWithout(pr: Params, w: World, e: Entry)
    requires Shaped(pr, w) && Matched(pr, w) && e in Members(w.pol)
    ensures IdsOf(Members(w.pol) - {e}) == w.live - {e.id}
  {
    forall x | x in Members(w.pol) && x.id == e.id ensures x == e {
      SameIdSameEntry(pr, w, x, e);
    }
  }

  lemma ExitKeepsCore(pr: Params, w: World, i: nat, admitted: nat)
    requires Core(pr, w, admitted) && Settled(w.pol, w.prio) && CanRemove(w.pol)
    requires Current(w.pol).Some? && i == Current(w.pol).value.id && i in w.live && w.work[i] == 0
    ensures var w' := AfterExit(pr, w, i);
            Core(pr, w', admitted) && Quiet(w'.pol, w'.prio) && SliceEnds(w'.log) == SliceEnds(w.log)
  {
    CurrentIsMember(w.pol);
    RemoveKeepsQuiet(w.pol, w.prio);
    IdsWithout(pr, w, Current(w.pol).value);
    LogAppend(w.log, Finished(i, w.now));
  }

  /** The context switch at the end of the loop body. */
  lemma FinishKeepsCore(pr: Params, w: World, admitted: nat)
    requires Core(pr, w, admitted) && Ready(w.pol, w.prio)
    ensures match Finish(pr, w)
            case Crashes => true
            case Exits(w') => w' == w && w.live == {} && w.clock.ptr == |pr.jobs|
            case Continues(w') => && Core(pr, w', admitted) && Settled(w'.pol, w'.prio)
                                  && w' == w.(pol := w'.pol, prio := w'.prio)
                                  && (w.clock.ptr == |pr.jobs| ==> w.live != {})
  {
    EmptyExactly(w.pol);
    if CanSwitch(w.pol) {
      SwitchSettles(w.pol, w.prio);
    }
    NoIdsNoMembers(Members(w.pol));
  }

  // ---------- Every step keeps the invariant ----------

  /** The end of a run: every process has been admitted at its arrival time and has finished. */
  ghost predicate Done(pr: Params, w: World) {
    Core(pr, w, |pr.jobs|) && w.live == {} && w.clock.ptr == |pr.jobs|
  }

  lemma ClockStep(pr: Params, w: World)
    requires Guarded(pr) && Inv(pr, w) && Enabled(pr, w, TimerExpired)
    ensures var c, n, rr, k := w.clock, |pr.jobs|, IsRR(pr), |SliceEnds(w.log)|;
            && InStep(pr.jobs, rr, AfterTimer(pr.jobs, rr, c), SlicesAfter(c, n, rr, k))
            && AfterTimer(pr.jobs, rr, c).armedAt == FireTime(c)
            && (rr || AfterTimer(pr.jobs, rr, c).ptr < n ==> Ticking(AfterTimer(pr.jobs, rr, c)))
            && (ArrivalIsDue(pr, w) ==>
                  forall i :: c.ptr <= i < GroupEnd(pr.jobs, c.ptr) ==> pr.jobs[i].arrival == FireTime(c))
            && (!ArrivalIsDue(pr, w) ==> rr && FireTime(c) == RR_TIMES_OF_UNIT * (k + 1))
            && AfterTimer(pr.jobs, rr, c).ptr == (if ArrivalIsDue(pr, w) then GroupEnd(pr.jobs, c.ptr) else c.ptr)
            && FireTime(AfterTimer(pr.jobs, rr, c)) >= FireTime(c)
  {
    var c, rr, k := w.clock, IsRR(pr), |SliceEnds(w.log)|;
    if Tied(pr.jobs, rr, c) {
      TiedMeansTie(pr.jobs, rr, c, k);
    }
    StaysInStep(pr.jobs, rr, c, k);
    if c.ptr < |pr.jobs| {
      GroupIsMaximal(pr.jobs, c.ptr);
    }
  }

  ghost predicate Good(pr: Params, o: Outcome) {
    match o
    case Crashes => true
    case Exits(w) => Done(pr, w)
    case Continues(w) => Inv(pr, w)
  }

  lemma FinishIsGood(pr: Params, w: World)
    requires Core(pr, w, w.clock.ptr) && Ready(w.pol, w.prio) && OnTime(pr, w)
    ensures Good(pr, Finish(pr, w))
  {
    FinishKeepsCore(pr, w, w.clock.ptr);
  }

  /** The world when the timer has fired and is set again, before the event is handled. */
  ghost function Woken(pr: Params, w: World): World
    requires Shaped(pr, w) && Enabled(pr, w, TimerExpired)
  {
    Elapse(pr, w, FireTime(w.clock)).(clock := AfterTimer(pr.jobs, IsRR(pr), w.clock))
  }

  lemma WokenIsGood(pr: Params, w: World)
    requires Guarded(pr) && Inv(pr, w) && Enabled(pr, w, TimerExpired)
    ensures var e := Woken(pr, w);
            && Core(pr, e, w.clock.ptr) && Settled(e.pol, e.prio) && e.prio == w.prio && e.now == FireTime(w.clock)
            && SliceEnds(e.log) == SliceEnds(w.log)
  {
    ElapseKeepsCore(pr, w, FireTime(w.clock));
  }

  /** Once the event has been handled, the timer is on time for the new number of slices. */
  lemma HandledIsOnTime(pr: Params, w: World, f: World)
    requires Guarded(pr) && Inv(pr, w) && Enabled(pr, w, TimerExpired)
    requires f.clock == AfterTimer(pr.jobs, IsRR(pr), w.clock) && f.now == FireTime(w.clock)
    requires |SliceEnds(f.log)| == |SliceEnds(w.log)| + (if ArrivalIsDue(pr, w) then 0 else 1)
    ensures OnTime(pr, f)
  {
    ClockStep(pr, w);
  }

  lemma ArrivalKeepsInv(pr: Params, w: World)
    requires Guarded(pr) && Inv(pr, w) && Enabled(pr, w, TimerExpired) && ArrivalIsDue(pr, w)
    ensures Good(pr, HandleTimer(pr, w))
  {
    var e, hi := Woken(pr, w), GroupEnd(pr.jobs, w.clock.ptr);
    WokenIsGood(pr, w);
    ClockStep(pr, w);
    AdmitAllKeepsCore(pr, e, w.clock.ptr, hi);
    var r := AdmitAll(pr, e, w.clock.ptr, hi);
    var o := HandleTimer(pr, w);
    if r.Some? {
      assert o == Finish(pr, r.value);
      HandledIsOnTime(pr, w, r.value);
      FinishIsGood(pr, r.value);
    }
  }

  lemma SliceKeepsInv(pr: Params, w: World)
    requires Guarded(pr) && Inv(pr, w) && Enabled(pr, w, TimerExpired) && !ArrivalIsDue(pr, w)
    ensures Good(pr, HandleTimer(pr, w))
  {
    var e := Woken(pr, w);
    WokenIsGood(pr, w);
    ClockStep(pr, w);
    var o := HandleTimer(pr, w);
    assert o == Finish(pr, AfterSliceEnd(e));
    SliceKeepsCore(pr, e, w.clock.ptr);
    HandledIsOnTime(pr, w, AfterSliceEnd(e));
    FinishIsGood(pr, AfterSliceEnd(e));
  }

  lemma OnTimeLater(pr: Params, w: World, w': World)
    requires OnTime(pr, w) && w'.clock == w.clock && w.now <= w'.now
    requires |SliceEnds(w'.log)| == |SliceEnds(w.log)|
    requires Ticking(w.clock) ==> w'.now <= FireTime(w.clock)
    ensures OnTime(pr, w')
  {
  }

  lemma ExitIsGood(pr: Params, e: World, i: nat)
    requires Core(pr, e, e.clock.ptr) && Settled(e.pol, e.prio) && OnTime(pr, e) && CanRemove(e.pol)
    requires Current(e.pol).Some? && i == Current(e.pol).value.id && i in e.live && e.work[i] == 0
    ensures Good(pr, Finish(pr, AfterExit(pr, e, i)))
  {
    ExitKeepsCore(pr, e, i, e.clock.ptr);
    OnTimeLater(pr, e, AfterExit(pr, e, i));
    FinishIsGood(pr, AfterExit(pr, e, i));
  }

  /** The world when the running child's work is done. */
  lemma WorkIsDone(pr: Params, w: World) returns (e: World, i: nat)
    requires Inv(pr, w) && Enabled(pr, w, ChildTerminated)
    ensures Running(pr, w) == Some(i) && i in w.live && e == Elapse(pr, w, w.now + w.work[i])
    ensures Core(pr, e, e.clock.ptr) && Settled(e.pol, e.prio) && OnTime(pr, e)
    ensures Current(e.pol).Some? && i == Current(e.pol).value.id && i in e.live && e.work[i] == 0
  {
    i := Running(pr, w).value;
    e := Elapse(pr, w, w.now + w.work[i]);
    RunningIsCurrent(pr, w);
    ElapseKeepsCore(pr, w, w.now + w.work[i]);
    OnTimeLater(pr, w, e);
  }

  lemma ChildKeepsInv(pr: Params, w: World)
    requires Guarded(pr) && Inv(pr, w) && Enabled(pr, w, ChildTerminated)
    ensures Good(pr, HandleChild(pr, w))
  {
    var e, i := WorkIsDone(pr, w);
    ChildOutcome(pr, w, i);
    ExitOutcomeIsGood(pr, e, i, HandleChild(pr, w));
  }

  lemma ChildOutcome(pr: Params, w: World, i: nat)
    requires Shaped(pr, w) && Enabled(pr, w, ChildTerminated) && Running(pr, w) == Some(i)
    ensures var e := Elapse(pr, w, w.now + w.work[i]);
            HandleChild(pr, w) == if CanRemove(e.pol) then Finish(pr, AfterExit(pr, e, i)) else Crashes
  {
  }

  lemma ExitOutcomeIsGood(pr: Params, e: World, i: nat, o: Outcome)
    requires Core(pr, e, e.clock.ptr) && Settled(e.pol, e.prio) && OnTime(pr, e)
    requires Current(e.pol).Some? && i == Current(e.pol).value.id && i in e.live && e.work[i] == 0
    requires o == if CanRemove(e.pol) then Finish(pr, AfterExit(pr, e, i)) else Crashes
    ensures Good(pr, o)
  {
    if CanRemove(e.pol) {
      ExitIsGood(pr, e, i);
    }
  }

  lemma StepKeepsInv(pr: Params, w: World, ev: Event)
    requires Guarded(pr) && Inv(pr, w) && Enabled(pr, w, ev)
    ensures Good(pr, Handle(pr, w, ev))
  {
    match ev
    case TimerExpired =>
      if ArrivalIsDue(pr, w) {
        ArrivalKeepsInv(pr, w);
      } else {
        SliceKeepsInv(pr, w);
      }
    case ChildTerminated => ChildKeepsInv(pr, w);
  }

  lemma StartsInInv(pr: Params)
    requires Guarded(pr)
    ensures Inv(pr, Start(pr))
  {
    StartsInStep(pr.jobs, IsRR(pr));
    var w := Start(pr);
    if pr.strategy == PSJF {
      WarmStartIsInv(pr);
    } else {
      assert Members(w.pol) == {};
    }
  }

  lemma WarmStartIsInv(pr: Params)
    requires Guarded(pr) && pr.strategy == PSJF
    ensures Inv(pr, WarmPsjf(pr))
  {
    var w, e := WarmPsjf(pr), Entry(0, pr.jobs[0].needed, pr.pids[0]);
    StartsInStep(pr.jobs, false);
    StaysInStep(pr.jobs, false, InitialClock(pr.jobs, false), 0);
    GroupIsMaximal(pr.jobs, 0);
    assert w.clock.ptr == 1;
    LogAppend([], Admitted(0, w.now));
    assert [] + [Admitted(0, w.now)] == w.log;
    assert Members(w.pol) == {e};
  }

  lemma StepInv(pr: Params, w: World, ev: Event, w': World)
    requires Guarded(pr) && Inv(pr, w) && Steps(pr, w, ev, w')
    ensures Inv(pr, w')
  {
    StepKeepsInv(pr, w, ev);
  }

  lemma StepAt(pr: Params, ws: seq<World>, evs: seq<Event>, k: nat)
    requires IsPath(pr, ws, evs) && k < |evs|
    ensures Steps(pr, ws[k], evs[k], ws[k + 1])
  {
  }

  lemma NextInv(pr: Params, ws: seq<World>, evs: seq<Event>, k: nat)
    requires Guarded(pr) && IsPath(pr, ws, evs) && 0 < k <= |evs| && Inv(pr, ws[k - 1])
    ensures Inv(pr, ws[k])
  {
    StepAt(pr, ws, evs, k - 1);
    StepInv(pr, ws[k - 1], evs[k - 1], ws[k]);
  }

  lemma {:induction false} RunKeepsInv(pr: Params, ws: seq<World>, evs: seq<Event>, k: nat)
    requires Guarded(pr) && IsRun(pr, ws, evs) && k <= |evs|
    ensures Inv(pr, ws[k])
    decreases k
  {
    if k == 0 {
      StartsInInv(pr);
    } else {
      RunKeepsInv(pr, ws, evs, k - 1);
      NextInv(pr, ws, evs, k);
    }
  }
}
