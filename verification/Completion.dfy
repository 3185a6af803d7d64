/** Every policy gets to the end: a run that cannot go on is one that exits. */
module Completion {
  import opened Processes
  import opened Timers
  import opened Policies
  import opened IdealClock
  import opened RunInvariants
  import opened RunTheorems
  import opened BusyPeriods
  import opened PsjfTheorems

  /** The inputs on which the strategy never fails. */
  ghost predicate Safe(pr: Params) {
    && ValidParams(pr) && PidsDistinct(pr)
    && match pr.strategy
       case FIFO => false
       case RR => NoTies(pr.jobs)
       case SJF => NeverRunsDry(pr.jobs)
       case PSJF => NeverRunsDry(pr.jobs) && Increasing(pr.jobs)
  }

  lemma SafeRunsNeverCrash(pr: Params, ws: seq<World>, evs: seq<Event>, ev: Event)
    requires Safe(pr) && IsRun(pr, ws, evs)
    ensures !CrashesAfter(pr, ws, evs, ev)
  {
    match pr.strategy
    case RR =>
      RunKeepsInv(pr, ws, evs, |evs|);
      if CrashesAfter(pr, ws, evs, ev) {
        RoundRobinNeverCrashes(pr, ws[|evs|], ev);
      }
    case SJF => SjfNeverCrashes(pr, ws, evs, ev);
    case PSJF => PsjfNeverCrashes(pr, ws, evs, ev);
  }

  /** No event leads from `w` to another world. */
  ghost predicate CannotGoOn(pr: Params, w: World) {
    forall ev, w' :: !Steps(pr, w, ev, w')
  }

  /** An event can come, and whichever comes makes the loop exit with every process done. */
  ghost predicate AboutToExit(pr: Params, w: World) {
    && Shaped(pr, w)
    && (exists ev :: Enabled(pr, w, ev))
    && forall ev :: Enabled(pr, w, ev) ==> Handle(pr, w, ev).Exits? && Done(pr, Handle(pr, w, ev).w)
  }

  lemma LastEventExits(pr: Params, ws: seq<World>, evs: seq<Event>, ev: Event)
    requires Safe(pr) && IsRun(pr, ws, evs) && CannotGoOn(pr, ws[|evs|])
    requires Shaped(pr, ws[|evs|]) && Inv(pr, ws[|evs|]) && Enabled(pr, ws[|evs|], ev)
    ensures var o := Handle(pr, ws[|evs|], ev); o.Exits? && Done(pr, o.w)
  {
    SafeRunsNeverCrash(pr, ws, evs, ev);
    StepKeepsInv(pr, ws[|evs|], ev);
    if Handle(pr, ws[|evs|], ev).Continues? {
      assert Steps(pr, ws[|evs|], ev, Handle(pr, ws[|evs|], ev).w);
    }
  }

  /** On a safe input every run ends: it has at most the given number of events, and if it cannot be
      extended then the next event makes the loop exit. */
  lemma RunsEndInExit(pr: Params, ws: seq<World>, evs: seq<Event>)
    requires Safe(pr) && IsRun(pr, ws, evs)
    ensures |evs| <= 3 * |pr.jobs| + Total(Needed(pr.jobs)) + pr.jobs[|pr.jobs| - 1].arrival + 1
    ensures CannotGoOn(pr, ws[|evs|]) ==> AboutToExit(pr, ws[|evs|])
  {
    RunsAreBounded(pr, ws, evs);
    RunKeepsInv(pr, ws, evs, |evs|);
    if CannotGoOn(pr, ws[|evs|]) {
      SomeEventIsEnabled(pr, ws[|evs|]);
      forall ev | Enabled(pr, ws[|evs|], ev)
        ensures Handle(pr, ws[|evs|], ev).Exits? && Done(pr, Handle(pr, ws[|evs|], ev).w)
      {
        LastEventExits(pr, ws, evs, ev);
      }
    }
  }
}
