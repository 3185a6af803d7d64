/** When round robin gets to the end: exactly on the inputs on which no arrival coincides with the end of a
    time slice. */
module RoundRobinExit {
  import opened Processes
  import opened Timers
  import opened IdealClock
  import opened RunInvariants
  import opened RunTheorems
  import opened BusyPeriods

  /** The arrival pointer has not passed `i`, and the clock is still exact or has stopped. */
  ghost predicate HeldUp(jobs: seq<Job>, c: Clock, i: nat) {
    c.ptr <= i && (Ticking(c) ==> exists slices :: InStep(jobs, true, c, slices))
  }

  /** An arrival event falls strictly between two slice ends, so it does not bring a tied process. */
  lemma ArrivalIsNoTie(jobs: seq<Job>, c: Clock, slices: nat, i: nat)
    requires SortedByArrival(jobs) && InStep(jobs, true, c, slices) && IsTie(jobs, i) && c.ptr <= i
    requires c.ptr < |jobs| && c.arr < c.slice
    ensures GroupEnd(jobs, c.ptr) <= i
  {
    GroupIsMaximal(jobs, c.ptr);
    var m := jobs[i].arrival / RR_TIMES_OF_UNIT;
    assert jobs[i].arrival == RR_TIMES_OF_UNIT * m;
    assert !(slices < m < slices + 1);
  }

  lemma StaysHeldUp(jobs: seq<Job>, c: Clock, i: nat)
    requires SortedByArrival(jobs) && IsTie(jobs, i) && HeldUp(jobs, c, i) && Ticking(c)
    ensures HeldUp(jobs, AfterTimer(jobs, true, c), i)
  {
    var slices :| InStep(jobs, true, c, slices);
    if Tied(jobs, true, c) {
      TieDisarms(jobs, c);
    } else {
      StaysInStep(jobs, true, c, slices);
      if ExpireReason(c, |jobs|, true) == ProcessArrival {
        ArrivalIsNoTie(jobs, c, slices, i);
      }
    }
  }

  lemma StepMovesClock(pr: Params, w: World, ev: Event, w': World)
    requires Steps(pr, w, ev, w') && pr.strategy == RR
    ensures w'.clock == if ev == TimerExpired then AfterTimer(pr.jobs, true, w.clock) else w.clock
    ensures ev == TimerExpired ==> Ticking(w.clock)
  {
    if ev == TimerExpired {
      TimerPassesTime(pr, w, w');
    }
  }

  lemma NextIsHeldUp(pr: Params, ws: seq<World>, evs: seq<Event>, k: nat, i: nat)
    requires ValidParams(pr) && IsPath(pr, ws, evs) && pr.strategy == RR && IsTie(pr.jobs, i) && 0 < k <= |evs|
    requires HeldUp(pr.jobs, ws[k - 1].clock, i)
    ensures HeldUp(pr.jobs, ws[k].clock, i)
  {
    StepAt(pr, ws, evs, k - 1);
    StepMovesClock(pr, ws[k - 1], evs[k - 1], ws[k]);
    if evs[k - 1] == TimerExpired {
      StaysHeldUp(pr.jobs, ws[k - 1].clock, i);
    }
  }

  lemma {:induction false} RunIsHeldUp(pr: Params, ws: seq<World>, evs: seq<Event>, k: nat, i: nat)
    requires IsRun(pr, ws, evs) && pr.strategy == RR && IsTie(pr.jobs, i) && k <= |evs|
    ensures HeldUp(pr.jobs, ws[k].clock, i)
    decreases k
  {
    if k == 0 {
      StartsInStep(pr.jobs, true);
    } else {
      RunIsHeldUp(pr, ws, evs, k - 1, i);
      NextIsHeldUp(pr, ws, evs, k, i);
    }
  }

  ghost predicate ExitsAfter(pr: Params, ws: seq<World>, evs: seq<Event>, ev: Event) {
    && IsPath(pr, ws, evs)
    && Shaped(pr, ws[|evs|]) && Enabled(pr, ws[|evs|], ev) && Handle(pr, ws[|evs|], ev).Exits?
  }

  lemma HeldUpMeansNoExit(pr: Params, w: World, ev: Event, i: nat)
    requires Shaped(pr, w) && Enabled(pr, w, ev) && pr.strategy == RR && IsTie(pr.jobs, i)
    requires HeldUp(pr.jobs, w.clock, i)
    ensures !Handle(pr, w, ev).Exits?
  {
    NextPtrIsReached(pr, w, ev);
    if ev == TimerExpired {
      StaysHeldUp(pr.jobs, w.clock, i);
    }
  }

  /** With a tie, process `i` is never admitted and no run ever leaves the loop. */
  lemma TieMeansNoExit(pr: Params, ws: seq<World>, evs: seq<Event>, ev: Event, i: nat)
    requires IsRun(pr, ws, evs) && pr.strategy == RR && IsTie(pr.jobs, i)
    ensures forall k :: 0 <= k < |ws| ==> ws[k].clock.ptr <= i
    ensures !ExitsAfter(pr, ws, evs, ev)
  {
    forall k | 0 <= k < |ws| ensures HeldUp(pr.jobs, ws[k].clock, i) {
      RunIsHeldUp(pr, ws, evs, k, i);
    }
    if ExitsAfter(pr, ws, evs, ev) {
      HeldUpMeansNoExit(pr, ws[|evs|], ev, i);
    }
  }

  /** A single process that arrives with the end of the first slice is never admitted. */
  lemma AnInputThatHangs(pr: Params, ws: seq<World>, evs: seq<Event>, ev: Event)
    requires pr.jobs == [Job(500, 1)] && pr.strategy == RR && IsRun(pr, ws, evs)
    ensures ws[|evs|].clock.ptr == 0 && !ExitsAfter(pr, ws, evs, ev)
  {
    assert IsTie(pr.jobs, 0);
    TieMeansNoExit(pr, ws, evs, ev, 0);
  }

  /** Round robin can run to the end of its loop exactly when no positive arrival time is a multiple of 500. */
  lemma RoundRobinExitsExactly(pr: Params)
    requires ValidParams(pr) && pr.strategy == RR && PidsDistinct(pr)
    ensures (forall i :: 0 <= i < |pr.jobs| && 0 < pr.jobs[i].arrival ==> pr.jobs[i].arrival % 500 != 0) <==>
            exists ws, evs, ev :: IsRun(pr, ws, evs) && ExitsAfter(pr, ws, evs, ev)
  {
    NoTiesInNumbers(pr.jobs);
    if NoTies(pr.jobs) {
      StartsInInv(pr);
      var ws, evs, ev := RoundRobinReachesExit(pr, Start(pr));
      assert IsRun(pr, ws, evs) && ExitsAfter(pr, ws, evs, ev);
    } else {
      var i :| IsTie(pr.jobs, i);
      forall ws, evs, ev | IsRun(pr, ws, evs) ensures !ExitsAfter(pr, ws, evs, ev) {
        TieMeansNoExit(pr, ws, evs, ev, i);
      }
    }
  }
}
