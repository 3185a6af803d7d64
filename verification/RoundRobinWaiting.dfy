/** Bounded waiting in whole round-robin runs: whoever is at position `k` of the schedule gets the processor
    after `k` slice ends and exits, and so within `k` slices, whatever arrives meanwhile. */
module RoundRobinWaiting {
  import opened Processes
  import opened Timers
  import opened Policies
  import opened IdealClock
  import opened RunInvariants
  import opened RunTheorems
  import opened R = RoundRobin

  /** The current process gives up its turn at the end of its slice and when it exits. */
  predicate EndsTurn(pr: Params, w: World, ev: Event) {
    ev == ChildTerminated || ExpireReason(w.clock, |pr.jobs|, true) == TimesliceOver
  }

  function TurnOf(pr: Params, w: World, ev: Event): nat {
    if EndsTurn(pr, w, ev) then 1 else 0
  }

  /** How many of the events `j..m` end a turn. */
  function TurnsIn(pr: Params, ws: seq<World>, evs: seq<Event>, j: nat, m: nat): nat
    requires |ws| == |evs| + 1 && j <= m <= |evs|
    decreases m
  {
    if m == j then 0 else TurnsIn(pr, ws, evs, j, m - 1) + TurnOf(pr, ws[m - 1], evs[m - 1])
  }

  ghost function QueueOf(w: World): seq<Entry> {
    if w.pol.RoundRobin? then Queue(w.pol.ring) else []
  }

  // ---------- One event ----------

  lemma {:induction false} AdmissionsAppend(pr: Params, w: World, lo: nat, hi: nat, k: nat)
    requires Shaped(pr, w) && lo <= hi <= |pr.jobs| && w.pol.RoundRobin? && k < |QueueOf(w)|
    ensures var r := AdmitAll(pr, w, lo, hi);
            r.Some? && r.value.pol.RoundRobin? && MovedUp(QueueOf(w), QueueOf(r.value), 0, k)
    decreases hi - lo
  {
    if lo < hi {
      var w' := AdmitOne(pr, w, lo);
      AddAppends(w.pol.ring, Entry(lo, pr.jobs[lo].needed, pr.pids[lo]));
      AdmissionsAppend(pr, w', lo + 1, hi, k);
      MoveUpTwice(QueueOf(w), QueueOf(w'), QueueOf(AdmitAll(pr, w', lo + 1, hi).value), 0, 0, k);
    }
  }

  lemma ArrivalMovesNobody(pr: Params, w: World, w': World, k: nat)
    requires Steps(pr, w, TimerExpired, w') && ArrivalIsDue(pr, w) && w.pol.RoundRobin? && k < |QueueOf(w)|
    ensures MovedUp(QueueOf(w), QueueOf(w'), 0, k)
  {
    AdmissionsAppend(pr, Woken(pr, w), w.clock.ptr, GroupEnd(pr.jobs, w.clock.ptr), k);
  }

  lemma TurnOutcome(pr: Params, w: World, ev: Event, w': World)
    requires Steps(pr, w, ev, w') && EndsTurn(pr, w, ev) && w.pol.RoundRobin?
    ensures w'.pol == RoundRobin(Apply(w.pol.ring, if ev == TimerExpired then Slice else Leave))
  {
  }

  lemma TurnMovesUp(pr: Params, w: World, ev: Event, w': World, k: nat)
    requires Steps(pr, w, ev, w') && EndsTurn(pr, w, ev) && w.pol.RoundRobin? && 0 < k < |QueueOf(w)|
    ensures MovedUp(QueueOf(w), QueueOf(w'), 1, k)
  {
    TurnOutcome(pr, w, ev, w');
    OneTurn(w.pol.ring, if ev == TimerExpired then Slice else Leave, k);
  }

  lemma EventMovesUp(pr: Params, w: World, ev: Event, w': World, k: nat)
    requires Steps(pr, w, ev, w') && w.pol.RoundRobin? && k < |QueueOf(w)| && (EndsTurn(pr, w, ev) ==> 0 < k)
    ensures MovedUp(QueueOf(w), QueueOf(w'), TurnOf(pr, w, ev), k)
  {
    if EndsTurn(pr, w, ev) {
      TurnMovesUp(pr, w, ev, w', k);
    } else {
      ArrivalMovesNobody(pr, w, w', k);
    }
  }

  // ---------- Runs ----------

  /** A queue after an event that ends `turn` turns (one or none). */
  ghost predicate QueueMoves(q: seq<Entry>, turn: nat, q': seq<Entry>) {
    forall k: nat :: k < |q| && turn <= k ==> MovedUp(q, q', turn, k)
  }

  lemma NextQueueMoves(pr: Params, w: World, ev: Event, w': World)
    requires Steps(pr, w, ev, w') && pr.strategy == RR
    ensures QueueMoves(QueueOf(w), TurnOf(pr, w, ev), QueueOf(w'))
  {
    forall k: nat | k < |QueueOf(w)| && TurnOf(pr, w, ev) <= k
      ensures MovedUp(QueueOf(w), QueueOf(w'), TurnOf(pr, w, ev), k)
    {
      EventMovesUp(pr, w, ev, w', k);
    }
  }

  lemma {:induction false} AllQueuesMove(pr: Params, ws: seq<World>, evs: seq<Event>, qs: seq<seq<Entry>>, j: nat,
                                         m: nat, k: nat)
    requires |ws| == |qs| == |evs| + 1 && j <= m <= |evs|
    requires forall i :: 0 <= i < |evs| ==> QueueMoves(qs[i], TurnOf(pr, ws[i], evs[i]), qs[i + 1])
    requires k < |qs[j]| && TurnsIn(pr, ws, evs, j, m) <= k
    ensures MovedUp(qs[j], qs[m], TurnsIn(pr, ws, evs, j, m), k)
    ensures qs[m][k - TurnsIn(pr, ws, evs, j, m)] == qs[j][k]
    decreases m
  {
    if j < m {
      var t := TurnsIn(pr, ws, evs, j, m - 1);
      AllQueuesMove(pr, ws, evs, qs, j, m - 1, k);
      assert QueueMoves(qs[m - 1], TurnOf(pr, ws[m - 1], evs[m - 1]), qs[m - 1 + 1]);
      MoveUpTwice(qs[j], qs[m - 1], qs[m], t, TurnOf(pr, ws[m - 1], evs[m - 1]), k);
    }
  }

  lemma QueueMovesUp(pr: Params, ws: seq<World>, evs: seq<Event>, j: nat, m: nat, k: nat)
    requires IsPath(pr, ws, evs) && pr.strategy == RR && j <= m <= |evs|
    requires k < |QueueOf(ws[j])| && TurnsIn(pr, ws, evs, j, m) <= k
    ensures var p := k - TurnsIn(pr, ws, evs, j, m);
            p < |QueueOf(ws[m])| && QueueOf(ws[m])[p] == QueueOf(ws[j])[k]
  {
    var qs := seq(|ws|, i requires 0 <= i < |ws| => QueueOf(ws[i]));
    forall i | 0 <= i < |evs| ensures QueueMoves(qs[i], TurnOf(pr, ws[i], evs[i]), qs[i + 1]) {
      StepAt(pr, ws, evs, i);
      NextQueueMoves(pr, ws[i], evs[i], ws[i + 1]);
    }
    AllQueuesMove(pr, ws, evs, qs, j, m, k);
  }

  lemma HeadRuns(pr: Params, w: World)
    requires Inv(pr, w) && w.pol.RoundRobin? && QueueOf(w) != []
    ensures Running(pr, w) == Some(QueueOf(w)[0].id)
  {
    RunningIsCurrent(pr, w);
    R.EmptyExactly(w.pol.ring);
    assert Current(w.pol) == Some(QueueOf(w)[0]);
    assert QueueOf(w)[0] in Members(w.pol);
  }

  // ---------- Time ----------

  lemma {:induction false} AdmissionsEndNoSlice(pr: Params, w: World, lo: nat, hi: nat)
    requires Shaped(pr, w) && lo <= hi <= |pr.jobs|
    ensures var r := AdmitAll(pr, w, lo, hi); r.Some? ==> SliceEnds(r.value.log) == SliceEnds(w.log)
    decreases hi - lo
  {
    if lo < hi && CanAdd(w.pol) {
      LogAppend(w.log, Admitted(lo, w.now));
      AdmissionsEndNoSlice(pr, AdmitOne(pr, w, lo), lo + 1, hi);
    }
  }

  lemma ElapseEndsNoSlice(pr: Params, w: World, t: int)
    requires Shaped(pr, w) && w.now <= t
    requires Running(pr, w).Some? ==> t <= w.now + w.work[Running(pr, w).value]
    ensures SliceEnds(Elapse(pr, w, t).log) == SliceEnds(w.log)
  {
    if Running(pr, w).Some? {
      LogAppend(w.log, Ran(Running(pr, w).value, w.now, t));
    }
  }

  /** At most one slice ends with an event, and only if it ends a turn. */
  lemma SlicesAreTurns(pr: Params, w: World, ev: Event, w': World)
    requires Steps(pr, w, ev, w') && pr.strategy == RR
    ensures |SliceEnds(w'.log)| <= |SliceEnds(w.log)| + TurnOf(pr, w, ev)
  {
    match ev
    case ChildTerminated =>
      var i := Running(pr, w).value;
      ElapseEndsNoSlice(pr, w, w.now + w.work[i]);
      LogAppend(Elapse(pr, w, w.now + w.work[i]).log, Finished(i, w'.now));
    case TimerExpired =>
      var e := Woken(pr, w);
      ElapseEndsNoSlice(pr, w, FireTime(w.clock));
      if ArrivalIsDue(pr, w) {
        AdmissionsEndNoSlice(pr, e, w.clock.ptr, GroupEnd(pr.jobs, w.clock.ptr));
      } else {
        LogAppend(e.log, SliceEnded(e.now));
      }
  }

  /** An event comes no later than the end of the current slice. */
  lemma EventWithinSlice(pr: Params, w: World, ev: Event, w': World)
    requires Guarded(pr) && Inv(pr, w) && pr.strategy == RR && Steps(pr, w, ev, w')
    ensures w'.now <= 500 * (|SliceEnds(w.log)| + 1)
  {
    match ev
    case TimerExpired => TimerPassesTime(pr, w, w');
    case ChildTerminated => ExitMovesSo(pr, w, w');
  }

  /** `counts` and `nows` are the ended slices and the times along a run. */
  lemma {:induction false} AllCountsGrow(pr: Params, ws: seq<World>, evs: seq<Event>, counts: seq<nat>, nows: seq<int>,
                                         j: nat, m: nat)
    requires |ws| == |counts| == |nows| == |evs| + 1 && j <= m <= |evs|
    requires forall i :: 0 <= i < |evs| ==> counts[i + 1] <= counts[i] + TurnOf(pr, ws[i], evs[i])
    requires forall i :: 0 <= i < |evs| ==> nows[i + 1] <= 500 * (counts[i] + 1)
    requires nows[j] <= 500 * (counts[j] + 1)
    ensures counts[m] <= counts[j] + TurnsIn(pr, ws, evs, j, m)
    ensures j < m ==> nows[m] <= 500 * (counts[j] + TurnsIn(pr, ws, evs, j, m - 1) + 1)
    decreases m
  {
    if j < m {
      AllCountsGrow(pr, ws, evs, counts, nows, j, m - 1);
      assert counts[m - 1 + 1] <= counts[m - 1] + TurnOf(pr, ws[m - 1], evs[m - 1]);
      assert nows[m - 1 + 1] <= 500 * (counts[m - 1] + 1);
    }
  }

  lemma EventComesInTime(pr: Params, ws: seq<World>, evs: seq<Event>, i: nat)
    requires Guarded(pr) && pr.strategy == RR && IsRun(pr, ws, evs) && i < |evs|
    ensures ws[i + 1].now <= 500 * (|SliceEnds(ws[i].log)| + 1)
    ensures |SliceEnds(ws[i + 1].log)| <= |SliceEnds(ws[i].log)| + TurnOf(pr, ws[i], evs[i])
  {
    RunKeepsInv(pr, ws, evs, i);
    StepAt(pr, ws, evs, i);
    EventWithinSlice(pr, ws[i], evs[i], ws[i + 1]);
    SlicesAreTurns(pr, ws[i], evs[i], ws[i + 1]);
  }

  lemma TurnsTakeSlices(pr: Params, ws: seq<World>, evs: seq<Event>, j: nat, m: nat)
    requires Guarded(pr) && pr.strategy == RR && IsRun(pr, ws, evs) && j < m <= |evs|
    ensures ws[m].now <= 500 * (|SliceEnds(ws[j].log)| + TurnsIn(pr, ws, evs, j, m - 1) + 1)
  {
    var counts: seq<nat> := seq(|ws|, i requires 0 <= i < |ws| => |SliceEnds(ws[i].log)|);
    var nows := seq(|ws|, i requires 0 <= i < |ws| => ws[i].now);
    forall i | 0 <= i < |evs|
      ensures counts[i + 1] <= counts[i] + TurnOf(pr, ws[i], evs[i])
      ensures nows[i + 1] <= 500 * (counts[i] + 1)
    {
      EventComesInTime(pr, ws, evs, i);
    }
    NoDrift(pr, ws, evs, j);
    AllCountsGrow(pr, ws, evs, counts, nows, j, m);
  }

  lemma HeadRunsInRun(pr: Params, ws: seq<World>, evs: seq<Event>, m: nat, head: Entry)
    requires Guarded(pr) && pr.strategy == RR && IsRun(pr, ws, evs) && m <= |evs|
    requires 0 < |QueueOf(ws[m])| && QueueOf(ws[m])[0] == head
    ensures Shaped(pr, ws[m]) && Running(pr, ws[m]) == Some(head.id)
  {
    RunKeepsInv(pr, ws, evs, m);
    HeadRuns(pr, ws[m]);
  }

  /** A process waits at position `k` of the schedule at one wake-up of a round-robin run.  When `k` turns have
      ended it gets the processor, whatever has arrived meanwhile. */
  lemma WaitingInTurns(pr: Params, ws: seq<World>, evs: seq<Event>, j: nat, m: nat, k: nat)
    requires Guarded(pr) && pr.strategy == RR && IsRun(pr, ws, evs) && j <= m <= |evs|
    requires k < |QueueOf(ws[j])| && TurnsIn(pr, ws, evs, j, m) == k
    ensures Shaped(pr, ws[m]) && Running(pr, ws[m]) == Some(QueueOf(ws[j])[k].id)
  {
    QueueMovesUp(pr, ws, evs, j, m, k);
    HeadRunsInRun(pr, ws, evs, m, QueueOf(ws[j])[k]);
  }

  /** The end of the current slice. */
  ghost function SliceEnd(w: World): int {
    500 * (|SliceEnds(w.log)| + 1)
  }

  /** It waits no longer than for the rest of the current slice and `k - 1` whole ones: as long as fewer than
      `k` turns have ended, and also at the moment the `k`-th one ends, no more time has passed. */
  lemma WaitingInTime(pr: Params, ws: seq<World>, evs: seq<Event>, j: nat, m: nat, k: nat)
    requires Guarded(pr) && pr.strategy == RR && IsRun(pr, ws, evs) && j < m <= |evs|
    requires TurnsIn(pr, ws, evs, j, m - 1) < k
    ensures ws[m].now <= SliceEnd(ws[j]) + 500 * (k - 1)
    ensures ws[j].now <= SliceEnd(ws[j]) <= ws[j].now + 500
  {
    NoDrift(pr, ws, evs, j);
    TurnsTakeSlices(pr, ws, evs, j, m);
  }

  // ---------- The turn comes ----------

  /** Turns are counted one by one. */
  lemma {:induction false} SomeTurnIsTheKth(pr: Params, ws: seq<World>, evs: seq<Event>, j: nat, n: nat, k: nat)
    returns (m: nat)
    requires |ws| == |evs| + 1 && j <= n <= |evs| && k <= TurnsIn(pr, ws, evs, j, n)
    ensures j <= m <= n && TurnsIn(pr, ws, evs, j, m) == k
    ensures j < m && 0 < k ==> TurnsIn(pr, ws, evs, j, m - 1) < k
    decreases n
  {
    if k == 0 {
      m := j;
    } else if k <= TurnsIn(pr, ws, evs, j, n - 1) {
      m := SomeTurnIsTheKth(pr, ws, evs, j, n - 1, k);
    } else {
      m := n;
    }
  }

  lemma AdmissionsLeaveSomebody(pr: Params, w: World, lo: nat, hi: nat)
    requires Shaped(pr, w) && lo <= hi <= |pr.jobs| && w.pol.RoundRobin? && QueueOf(w) != []
    ensures var r := AdmitAll(pr, w, lo, hi); r.Some? && r.value.pol.RoundRobin? && QueueOf(r.value) != []
  {
    AdmissionsAppend(pr, w, lo, hi, 0);
  }

  /** The loop does not exit while two processes are in the schedule. */
  lemma TwoMeansNoExit(pr: Params, w: World, ev: Event)
    requires Shaped(pr, w) && Enabled(pr, w, ev) && pr.strategy == RR && 1 < |QueueOf(w)|
    ensures !Handle(pr, w, ev).Exits?
  {
    match ev
    case ChildTerminated => RemoveDropsHead(w.pol.ring);
    case TimerExpired =>
      if ArrivalIsDue(pr, w) {
        AdmissionsLeaveSomebody(pr, Woken(pr, w), w.clock.ptr, GroupEnd(pr.jobs, w.clock.ptr));
      } else {
        SliceRotates(w.pol.ring);
      }
  }

  /** In a run that exits, the process at position `k` of the schedule at any wake-up does get the processor, with
      the `k`-th turn that ends and within the bound of `WaitingInTime`. */
  lemma WaitingEnds(pr: Params, ws: seq<World>, evs: seq<Event>, ev: Event, w': World, j: nat, k: nat)
    returns (m: nat)
    requires Guarded(pr) && pr.strategy == RR && EndsIn(pr, ws, evs, ev, w') && j <= |evs| && k < |QueueOf(ws[j])|
    ensures j <= m <= |evs| && TurnsIn(pr, ws, evs, j, m) == k
    ensures Shaped(pr, ws[m]) && Running(pr, ws[m]) == Some(QueueOf(ws[j])[k].id)
    ensures 0 < k ==> ws[m].now <= SliceEnd(ws[j]) + 500 * (k - 1)
  {
    if TurnsIn(pr, ws, evs, j, |evs|) < k {
      QueueMovesUp(pr, ws, evs, j, |evs|, k);
      TwoMeansNoExit(pr, ws[|evs|], ev);
    }
    m := SomeTurnIsTheKth(pr, ws, evs, j, |evs|, k);
    WaitingInTurns(pr, ws, evs, j, m, k);
    if 0 < k {
      WaitingInTime(pr, ws, evs, j, m, k);
    }
  }
}
