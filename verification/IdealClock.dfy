/** Whole runs of the scheduler on an ideal clock: the event loop of main.c as a state machine.  The timer
    fires exactly when it is due, only the High child makes progress, a child exits when its work is done,
    and every wake-up carries one event.  When the timer and an exit fall together, either may come first. */
module IdealClock {
  import opened Processes
  import opened HeapContents
  import opened Timers
  import opened Policies
  import R = RoundRobin
  import S = ShortestJob
  import P = PreemptiveShortestJob

  /** The input, and the pid the kernel will give to each process. */
  datatype Params = Params(jobs: seq<Job>, pids: seq<int>, strategy: Strategy)

  datatype LogEntry =
    | Admitted(id: nat, at: int)
    | SliceEnded(at: int)
    | Ran(id: nat, from: int, to: int)
    | Finished(id: nat, at: int)

  /** `work` is the CPU time each process still needs; `live` are the children the kernel knows. */
  datatype World = World(clock: Clock, pol: Policy, prio: map<int, Priority>, live: set<nat>, work: seq<nat>,
                         now: int, log: seq<LogEntry>)

  datatype Event = TimerExpired | ChildTerminated

  /** The loop goes on, the loop exits, or the C code fails an assertion or uses a null or absent process. */
  datatype Outcome = Continues(w: World) | Exits(w: World) | Crashes

  ghost predicate ValidParams(pr: Params) {
    && pr.jobs != [] && |pr.pids| == |pr.jobs| && SortedByArrival(pr.jobs)
    && pr.strategy != FIFO
  }

  function IsRR(pr: Params): bool {
    pr.strategy == RR
  }

  /** Shapes that hold by construction and make the handlers well defined. */
  ghost predicate Shaped(pr: Params, w: World) {
    && ValidParams(pr)
    && |w.work| == |pr.jobs| && w.clock.ptr <= |pr.jobs|
    && (forall i :: i in w.live ==> i < |pr.jobs|)
    && (w.pol.RoundRobin? <==> pr.strategy == RR) && (w.pol.Sjf? <==> pr.strategy == SJF)
  }

  ghost predicate IsHigh(pr: Params, w: World, i: nat)
    requires Shaped(pr, w)
  {
    i in w.live && pr.pids[i] in w.prio && w.prio[pr.pids[i]] == High
  }

  /** The child the kernel runs while the scheduler sleeps. */
  ghost function Running(pr: Params, w: World): (r: Option<nat>)
    requires Shaped(pr, w)
    ensures r.Some? ==> IsHigh(pr, w, r.value)
    ensures r.None? ==> forall i :: !IsHigh(pr, w, i)
  {
    if exists i :: IsHigh(pr, w, i) then
      var i :| IsHigh(pr, w, i);
      Some(i)
    else None
  }

  // ---------- Events ----------

  ghost predicate Enabled(pr: Params, w: World, ev: Event)
    requires Shaped(pr, w)
  {
    match ev
    case TimerExpired =>
      && Ticking(w.clock) && w.now <= FireTime(w.clock)
      && (Running(pr, w).Some? ==> FireTime(w.clock) <= w.now + w.work[Running(pr, w).value])
      && (IsRR(pr) || w.clock.ptr < |pr.jobs|)
      && FreshPids(pr, w)
    case ChildTerminated =>
      && Running(pr, w).Some?
      && (Ticking(w.clock) ==> w.now + w.work[Running(pr, w).value] <= FireTime(w.clock))
  }

  ghost predicate ArrivalIsDue(pr: Params, w: World)
    requires Shaped(pr, w)
  {
    ExpireReason(w.clock, |pr.jobs|, IsRR(pr)) == ProcessArrival && w.clock.ptr < |pr.jobs|
  }

  /** The kernel gives distinct pids to processes that are alive at the same time. */
  ghost predicate FreshPids(pr: Params, w: World)
    requires Shaped(pr, w)
  {
    ArrivalIsDue(pr, w) ==>
      forall i :: w.clock.ptr <= i < GroupEnd(pr.jobs, w.clock.ptr) ==>
        pr.pids[i] !in w.prio && forall j :: w.clock.ptr <= j < i ==> pr.pids[j] != pr.pids[i]
  }

  /** Time passes; only the running child gets work done. */
  ghost function Elapse(pr: Params, w: World, t: int): World
    requires Shaped(pr, w) && w.now <= t
    requires Running(pr, w).Some? ==> t <= w.now + w.work[Running(pr, w).value]
  {
    match Running(pr, w)
    case None => w.(now := t)
    case Some(i) => w.(now := t, work := w.work[i := w.work[i] - (t - w.now)], log := w.log + [Ran(i, w.now, t)])
  }

  /** `add_process`: fork, suspend, hand over to the policy. */
  ghost function AdmitOne(pr: Params, w: World, i: nat): World
    requires Shaped(pr, w) && i < |pr.jobs| && CanAdd(w.pol)
  {
    var pid, job := pr.pids[i], pr.jobs[i];
    w.(prio := Suspended(w.prio[pid := High], pid), live := w.live + {i},
       pol := Add(w.pol, Entry(i, job.needed, pid), job.arrival),
       log := w.log + [Admitted(i, w.now)])
  }

  ghost function AdmitAll(pr: Params, w: World, lo: nat, hi: nat): (r: Option<World>)
    requires Shaped(pr, w) && lo <= hi <= |pr.jobs|
    ensures r.Some? ==> Shaped(pr, r.value) && r.value.clock == w.clock && r.value.now == w.now &&
                        r.value.work == w.work
    decreases hi - lo
  {
    if lo == hi then Some(w)
    else if !CanAdd(w.pol) then None
    else AdmitAll(pr, AdmitOne(pr, w, lo), lo + 1, hi)
  }

  /** The end of the loop body. */
  ghost function Finish(pr: Params, w: World): Outcome {
    if w.clock.ptr == |pr.jobs| && Empty(w.pol) then Exits(w)
    else if CanSwitch(w.pol) then Continues(w.(pol := Switch(w.pol), prio := SwitchPriorities(w.pol, w.prio)))
    else Crashes
  }

  /** `timeslice_over` */
  ghost function AfterSliceEnd(w: World): World
    requires w.pol.RoundRobin?
  {
    w.(pol := RoundRobin(R.SliceOver(w.pol.ring)), log := w.log + [SliceEnded(w.now)])
  }

  /** Child `i` exits and is reaped; `remove_current_process` removes whom the policy considers current. */
  ghost function AfterExit(pr: Params, w: World, i: nat): World
    requires Shaped(pr, w) && i < |pr.pids| && CanRemove(w.pol)
  {
    w.(prio := w.prio - {pr.pids[i]}, live := w.live - {i}, pol := Remove(w.pol), log := w.log + [Finished(i, w.now)])
  }

  ghost function HandleTimer(pr: Params, w: World): Outcome
    requires Shaped(pr, w) && Enabled(pr, w, TimerExpired)
  {
    var e := Elapse(pr, w, FireTime(w.clock)).(clock := AfterTimer(pr.jobs, IsRR(pr), w.clock));
    if ArrivalIsDue(pr, w) then
      match AdmitAll(pr, e, w.clock.ptr, GroupEnd(pr.jobs, w.clock.ptr))
      case None => Crashes
      case Some(admitted) => Finish(pr, admitted)
    else if w.pol.RoundRobin? then Finish(pr, AfterSliceEnd(e))
    else Crashes
  }

  ghost function HandleChild(pr: Params, w: World): Outcome
    requires Shaped(pr, w) && Enabled(pr, w, ChildTerminated)
  {
    var i := Running(pr, w).value;
    var e := Elapse(pr, w, w.now + w.work[i]);
    if !CanRemove(e.pol) then Crashes else Finish(pr, AfterExit(pr, e, i))
  }

  ghost function Handle(pr: Params, w: World, ev: Event): Outcome
    requires Shaped(pr, w) && Enabled(pr, w, ev)
  {
    match ev
    case TimerExpired => HandleTimer(pr, w)
    case ChildTerminated => HandleChild(pr, w)
  }

  // ---------- Initial worlds ----------

  function Needed(jobs: seq<Job>): (work: seq<nat>)
    ensures |work| == |jobs|
    ensures forall i :: 0 <= i < |jobs| ==> work[i] == jobs[i].needed
  {
    seq(|jobs|, i requires 0 <= i < |jobs| => jobs[i].needed)
  }

  ghost function EmptyPolicy(strategy: Strategy): Policy {
    match strategy
    case FIFO => RoundRobin(R.EMPTY_RING)
    case RR => RoundRobin(R.EMPTY_RING)
    case SJF => Sjf(S.SjfState({}, None))
    case PSJF => Psjf(P.PsjfState({}, None, 0, 0))
  }

  ghost function Initial(pr: Params): World
    requires ValidParams(pr)
  {
    World(InitialClock(pr.jobs, IsRR(pr)), EmptyPolicy(pr.strategy), map[], {}, Needed(pr.jobs), 0, [])
  }

  /** PSJF with its first process already admitted and running. */
  ghost function WarmPsjf(pr: Params): World
    requires ValidParams(pr)
  {
    var e, t := Entry(0, pr.jobs[0].needed, pr.pids[0]), pr.jobs[0].arrival;
    World(AfterTimer(pr.jobs, false, InitialClock(pr.jobs, false)), Psjf(P.PsjfState({e}, Some(e), t, t)),
          map[pr.pids[0] := High], {0}, Needed(pr.jobs), t, [Admitted(0, t)])
  }

  /** Where the runs below start: PSJF cannot admit its first process, so its runs start behind it. */
  ghost function Start(pr: Params): World
    requires ValidParams(pr)
  {
    if pr.strategy == PSJF then WarmPsjf(pr) else Initial(pr)
  }

  ghost predicate PidsDistinct(pr: Params) {
    forall i, j :: 0 <= i < j < |pr.pids| ==> pr.pids[i] != pr.pids[j]
  }

  /** PSJF dereferences the active process before there is one: its first arrival is the only event that can
      come, and it crashes. */
  lemma PsjfCannotStart(pr: Params)
    requires ValidParams(pr) && pr.strategy == PSJF && PidsDistinct(pr)
    ensures Enabled(pr, Initial(pr), TimerExpired) && !Enabled(pr, Initial(pr), ChildTerminated)
    ensures Handle(pr, Initial(pr), TimerExpired) == Crashes
  {
    assert Running(pr, Initial(pr)) == None;
  }

  // ---------- Runs ----------

  /** The worlds seen at the top of the loop and the events that lead from one to the next. */
  ghost predicate IsPath(pr: Params, ws: seq<World>, evs: seq<Event>) {
    && |ws| == |evs| + 1
    && forall k :: 0 <= k < |evs| ==> Steps(pr, ws[k], evs[k], ws[k + 1])
  }

  ghost predicate IsRun(pr: Params, ws: seq<World>, evs: seq<Event>) {
    ValidParams(pr) && IsPath(pr, ws, evs) && ws[0] == Start(pr)
  }

  ghost predicate Steps(pr: Params, w: World, ev: Event, w': World) {
    Shaped(pr, w) && Enabled(pr, w, ev) && Handle(pr, w, ev) == Continues(w')
  }

  // ---------- What the log records ----------

  function Admissions(log: seq<LogEntry>): seq<(nat, int)> {
    if log == [] then []
    else Admissions(log[..|log| - 1]) +
         (var e := log[|log| - 1]; if e.Admitted? then [(e.id, e.at)] else [])
  }

  function SliceEnds(log: seq<LogEntry>): seq<int> {
    if log == [] then []
    else SliceEnds(log[..|log| - 1]) +
         (var e := log[|log| - 1]; if e.SliceEnded? then [e.at] else [])
  }

  function Finishes(log: seq<LogEntry>): seq<nat> {
    if log == [] then []
    else Finishes(log[..|log| - 1]) +
         (var e := log[|log| - 1]; if e.Finished? then [e.id] else [])
  }

  lemma LogAppend(log: seq<LogEntry>, e: LogEntry)
    ensures Admissions(log + [e]) == Admissions(log) + (if e.Admitted? then [(e.id, e.at)] else [])
    ensures SliceEnds(log + [e]) == SliceEnds(log) + (if e.SliceEnded? then [e.at] else [])
    ensures Finishes(log + [e]) == Finishes(log) + (if e.Finished? then [e.id] else [])
  {
    assert (log + [e])[..|log|] == log;
  }
}
