# A verified model of the user-space process scheduler

The scheduler forks one child per process, keeps all but one of them at the lowest real-time priority, and
sleeps in `sigsuspend`. A single kernel timer announces arrivals and the ends of time slices, SIGCHLD announces
exits, and after every wake-up the chosen policy decides which child is resumed. This project models that
program in Dafny and proves what it promises about whole runs.

There are two layers.

* The program as it is written: `Heaps.Heap`, `RoundRobin.RoundRobinScheduler`, `ShortestJob.SjfScheduler`,
  `PreemptiveShortestJob.PsjfScheduler`, `EventTimer.TimerInfo`, `EventTimer.ArrivalQueue`, `Dispatch.Dispatcher`
  and `EventLoop.SchedulerLoop` are classes with the same fields, loops and in-place updates as the C code. Every
  method is proved to do to the abstract state what a specification function says.
* Runs: module `IdealClock` composes those specification functions into a state machine over wake-ups. The clock
  is ideal: the timer fires exactly when it is due, only the High child makes progress, a child exits when its
  work is done, and a wake-up carries one event. When an exit and the timer fall together, either may come first.
  Outcomes where the C code would fail an assertion or use a missing process are explicit (`Crashes`).

Main results, each for all inputs and all runs that meet the guards named below:

* PSJF, which is event driven and updates keys lazily, gives every tick to the process that a tick-by-tick
  shortest-remaining-time simulator would pick, and completes every process at the same time, if no two processes
  arrive together (`SrtSimulation.PsjfIsShortestRemainingTime`).
* That simulator is optimal: no preemptive schedule of the same jobs has a smaller sum of completion times
  (`SrtOptimality.ShortestRemainingTimeIsOptimal`). So the completion times in the log of every whole PSJF run without
  simultaneous arrivals add up to the least possible sum (`SrtOptimality.PsjfIsOptimal`).
* PSJF never fails and always knows the exact time and remaining times if and only if no two processes arrive together
  and the processor never runs out of work before the next arrival (`SimultaneousArrivals.PsjfIsCorrectExactly`).
* One hardware timer simulates the arrival timer and the slice timer without drift (`RunTheorems.NoDrift`), and
  round robin can get to the end of its loop exactly when no positive arrival time is a multiple of 500
  (`RoundRobinExit.RoundRobinExitsExactly`).
* At the top of the loop exactly one live child is High, the policy's current one, although round robin's
  `previous_active_id` goes stale (`RunTheorems.ExactlyOneHigh`).
* In round-robin runs the process at position k of the schedule gets the processor after exactly k slice ends and exits,
  at most k slices later, whatever arrives meanwhile (`RoundRobinWaiting.WaitingEnds`).
* SJF is safe on exactly those inputs on which the processor never runs out of work before the next arrival
  (`BusyPeriods.SjfIsSafeExactly`). In every SJF run nobody is preempted and whoever starts is the shortest live process
  (`SjfTheorems.SjfIsShortestFirst`). If all jobs arrive together, the completion times of a whole run add up to the least
  total completion time over all orders (`SjfOptimality.SjfIsOptimal`).
* On inputs on which a strategy is safe, every run is bounded and one that cannot go on ends in the exit of the loop
  with all work done (`Completion.RunsEndInExit`).
* The executable program, from reading the input on, goes through exactly the worlds of the state machine
  (`EventLoop.Schedule`), so these results hold of it. For PSJF it first puts its first process into the running state,
  which the C code does not manage to do.

## Where the code does not do what one would expect

The model keeps the code as it is. Each of these has a lemma that says exactly when the code is right.

* A tie between an arrival and the end of a slice makes the slice win and leaves a zero countdown; `set_timer`
  then passes zero, which disarms the timer (POSIX.1-2017, System Interfaces, `timer_settime`). The tied process
  is never admitted and the loop never ends: `RoundRobinExit.TieMeansNoExit`, `RoundRobinExit.AnInputThatHangs`.
* `context_switch_SJF` pops an empty heap when the last live process exits before the next arrival:
  `BusyPeriods.SjfIsSafeExactly`, `BusyPeriods.AnInputThatRunsDry`.
* `add_process_PSJF` dereferences the active process, so PSJF fails on its very first arrival
  (`IdealClock.PsjfCannotStart`) and on every arrival after an idle period (`PsjfTheorems.PsjfIsSafeExactly`). PSJF
  runs therefore start with the first process admitted and running.
* When several processes arrive together, `add_process_PSJF` charges the running process once for each of them, although
  time has passed only once; and if one of them preempts, the assertion fails for the next
  (`PreemptiveShortestJob.TwoArrivalsWithoutSwitch`). `SimultaneousArrivals.PsjfIsCorrectExactly` shows that this goes
  wrong in some run of every such input, and `SimultaneousArrivals.PreemptingPairCrashes` gives an input that never runs
  dry and still crashes. What remains true is that PSJF never overestimates
  (`SimultaneousArrivals.PsjfNeverOverestimates`).

The guards (`RunInvariants.Guarded`) are: input sorted by arrival time, since `processinfo_ptr_cmp` is never used to
sort; no ties, for round robin; and for PSJF a first process that arrives alone, since its runs start with that process.
The results that need distinct PSJF arrival times say so (`Increasing`). Children that are alive at the same time have
distinct pids; the theorems that construct a run assume it of all pids (`PidsDistinct`).

## Model

| member | source | states |
|---|---|---|
| `SrtSimulation.PsjfIsShortestRemainingTime` | PSJF.c:17-47 | in every PSJF run without simultaneous arrivals each tick since the first arrival went to the process a simulator picks that recomputes the least (remaining, pid) at every tick; completion times agree with the simulation, also when an arrival and a completion coincide; the remaining work is the simulator's |
| `SrtOptimality.SimulatorIsAhead` | PSJF.c:38-47 | at every tick, for every preemptive schedule: whichever processes one leaves out of account there, one can leave out as many in the simulation and have no more work left |
| `SrtOptimality.AheadMeansFewerPending` | PSJF.c:38-47 | hence no more processes are pending in the simulation than in the other schedule |
| `SrtOptimality.ShortestRemainingTimeIsOptimal` | PSJF.c:38-47 | always running the least remaining time has the least sum of completion times of all preemptive schedules that give each tick to at most one arrived, unfinished process |
| `SrtOptimality.PsjfIsOptimal` | PSJF.c:17-47 | the completion times in the log of a whole PSJF run without simultaneous arrivals add up to no more than those of any preemptive schedule of the same jobs |
| `SrtSimulation.PicksInNumbers` | heap.c:9-16 | the process the simulator picks has arrived and is not finished, and every other such process has more left, or the same and no smaller pid |
| `SrtSimulation.SimulatorAgrees` | heap.c:9-16 | once the least process has run for some ticks, the simulator that recomputes the minimum over all ready processes still picks it, and nobody else has run out of work |
| `SrtSimulation.AddIsExact` | PSJF.c:17-24 | charging only the active process at an arrival makes every key of the heap equal to the work really left |
| `SrtSimulation.StepStaysSimulated` | PSJF.c:17-47 | every wake-up, unless several processes arrive with it, keeps the agreement of log, keys and work with the simulator |
| `PsjfTheorems.PsjfConservesWork` | PSJF.c:13-47 | at every context switch of a run without simultaneous arrivals the inferred time plus the sum of the keys is the start time plus all admitted work; the inferred time is real; no key is negative; the active process is the least live one |
| `PsjfTheorems.PsjfRunsShortest` | PSJF.c:38-47 | whenever the kernel runs a process in a PSJF run without simultaneous arrivals, every live process has more left to do, or the same and no smaller pid |
| `PsjfTheorems.PsjfNeverCrashes` | PSJF.c:17-36 | if the processor never runs dry and no two processes arrive together, neither assertion of PSJF fails in any run |
| `PsjfTheorems.PsjfCanCrash` | PSJF.c:18-20 | if it can run dry, and no two processes arrive together, some run leads to the missing active process |
| `PsjfTheorems.PsjfIsSafeExactly` | PSJF.c:17-47 | started with a running process, and with no two processes arriving together, PSJF is safe on an input if and only if it never runs dry |
| `SimultaneousArrivals.PsjfIsCorrectExactly` | PSJF.c:17-47 | started with a running process that arrived alone, every run is free of crashes and every world has the exact time and the exact remaining times if and only if no two processes arrive together and the processor never runs dry |
| `SimultaneousArrivals.SharedArrivalGoesWrong` | PSJF.c:17-24 | if two processes arrive together, some run crashes or has a wrong key or clock |
| `SimultaneousArrivals.GroupIsChargedTwice` | PSJF.c:19-20 | a group of at least two, if it is admitted at all, charges the running process at least twice for the time since the last context switch |
| `SimultaneousArrivals.GroupSpoilsKey` | PSJF.c:19-20 | if somebody has been running when a group arrives and the arrivals do not crash, a remaining time is wrong afterwards |
| `SimultaneousArrivals.PreemptingGroupCrashes` | PSJF.c:18 | if the first of a group needs less than the running process has left, the assertion fails for the second |
| `SimultaneousArrivals.PreemptingPairCrashes` | PSJF.c:18 | jobs (0, 10), (4, 2) and (4, 8) never run dry and crash at time 4 |
| `SimultaneousArrivals.PsjfNeverOverestimates` | PSJF.c:17-47 | in every PSJF run, also with simultaneous arrivals, the inferred time is not ahead of the real one and no key is higher than the work really left |
| `RunTheorems.NoDrift` | main.c:198-282 | in every run the k-th slice ended at exactly 500 k units, process i was admitted once, in input order, at exactly its arrival time, and nothing that was due has been missed |
| `Timers.StartsInStep` | main.c:208-221 | the initial countdowns describe both logical timers exactly, also for an arrival at time zero |
| `Timers.StaysInStep` | main.c:223-282 | without a tie a wake-up comes exactly when one of the two logical timers is due, the reason found is that one, and afterwards both countdowns are exact again |
| `Timers.GroupIsMaximal` | main.c:352-358 | the inner loop stops exactly behind the maximal group of processes with the same arrival time |
| `Timers.TieDisarms` | main.c:198-206 | when the countdowns tie, the timer is disarmed and the arrival pointer stays |
| `Timers.TimerRunsExactlyWithoutTies` | report.md:136 | the round-robin timer keeps firing forever if and only if no positive arrival time is a multiple of 500 |
| `RoundRobinExit.TieMeansNoExit` | main.c:343-372 | with a tied process no run admits it and no run leaves the loop |
| `RoundRobinExit.RoundRobinExitsExactly` | report.md:136 | some round-robin run leaves the loop if and only if no positive arrival time is a multiple of 500 |
| `RoundRobinExit.AnInputThatHangs` | main.c:208-221 | no run of a single process that arrives at 500 admits it or leaves the loop |
| `RunTheorems.ExactlyOneHigh` | report.md:6 | at the top of the loop, in every run of RR, SJF and PSJF, the kernel knows exactly the live processes and exactly one of them, the policy's current one, is High |
| `RunTheorems.ArrivalAdmitsWholeGroup` | main.c:352-358 | an arrival event admits exactly the processes whose arrival time is that moment |
| `RunTheorems.CapacitySuffices` | main.c:331-332 | the arrival pointer stays in bounds and arrays of num_process places always have room for everyone who has not been admitted yet |
| `Dispatch.Dispatcher.RoomIsWhatIsLeft` | heap.c:45-50 | the free places of the scheduler's array are its length less the places the policy occupies |
| `RunTheorems.ExitMeansAllDone` | main.c:366-368 | the loop exits only when every process has been admitted and has finished exactly once with no work left |
| `RunTheorems.StepUsesEvents` | main.c:343-372 | every wake-up lowers a measure of live and future processes, pending work, time to the last arrival and a due timer, also idle slices and slices that coincide with an exit |
| `RunTheorems.RunsAreBounded` | main.c:343-372 | every run of every policy has at most three events per process plus one per unit of work and of time until the last arrival |
| `RunTheorems.SomeEventIsEnabled` | main.c:344 | the scheduler never sleeps forever |
| `RunTheorems.RoundRobinNeverCrashes` | RR.c:27-67 | no round-robin wake-up fails an assertion or uses an absent process |
| `RunTheorems.RoundRobinReachesExit` | main.c:343-372 | from every reachable round-robin world a run leads to the exit of the loop |
| `Completion.SafeRunsNeverCrash` | main.c:343-372 | no run of RR without ties, of SJF that never runs dry, or of PSJF that never runs dry and has no simultaneous arrivals crashes |
| `Completion.RunsEndInExit` | main.c:366-368 | such a run is bounded, and if no event leads on from it then an event is possible and whichever comes makes the loop exit with everything done |
| `RunInvariants.RunningIsCurrent` | report.md:6 | the child the kernel runs while the scheduler sleeps is the policy's current process |
| `RunInvariants.StepKeepsInv` | main.c:343-372 | every wake-up keeps policy, kernel, timer and log in agreement, or exits with everything done, or crashes |
| `RunInvariants.RunKeepsInv` | main.c:343-372 | the agreement holds at the top of the loop in every run |
| `BusyPeriods.StepKeepsBusy` | main.c:343-372 | while somebody is live, time passed plus work left stays equal to the work brought along |
| `BusyPeriods.SjfNeverCrashes` | SJF.c:22-29 | busy-period theorem: if every process that comes after the first group arrives before the work of its predecessors can be done, no SJF run pops an empty heap |
| `SjfTheorems.SjfIsShortestFirst` | SJF.c:22-29 | in every SJF run a process keeps the processor from one wake-up to the next unless it has finished, and whoever starts instead has the least (time needed, pid) of all live processes, those that have just arrived included |
| `SjfOptimality.SjfIsOptimal` | SJF.c:22-29 | in a whole SJF run of jobs that arrive together the completion times in the log add up to the total completion time of the sorted order, and no order of the same jobs has less |
| `SjfTheorems.SjfStartsShortest` | SJF.c:22-29 | whenever the kernel starts to run a process in an SJF run, the one before has finished, and every live process needs more time, or the same time and has no smaller pid |
| `BusyPeriods.SjfCanCrash` | SJF.c:26-27 | otherwise some run does |
| `BusyPeriods.SjfIsSafeExactly` | SJF.c:22-29 | SJF is safe on an input if and only if it never runs dry |
| `BusyPeriods.AnInputThatRunsDry` | SJF.c:26-27 | with jobs (0, 1) and (2, 1) some SJF run pops the empty heap |
| `IdealClock.PsjfCannotStart` | PSJF.c:17-20 | from the initial state PSJF's first arrival is the only possible event, and it fails |
| `Policies.AddKeepsQuiet` | main.c:61-78 | forking and suspending a process and handing it to any policy makes nobody but the current process High |
| `Policies.SliceGetsReady` | RR.c:55-58 | the end of a slice leaves at most the previous and the current process High |
| `Policies.RemoveKeepsQuiet` | main.c:80-95 | when the High child exits, the process the policy removes is that child |
| `Policies.SwitchSettles` | main.c:102-117 | after a context switch of any policy exactly one process is High, although RR may have suspended a stale position |
| `Policies.EmptyExactly` | main.c:119-131 | a policy reports empty exactly when it has no process, active or waiting |
| `Dispatch.Dispatcher.AddToPolicy` | main.c:64-77 | the scheduler of the strategy goes to the policy with the process added, uses one place and holds no other record |
| `Dispatch.Dispatcher.RemoveCurrentProcess` | main.c:80-95 | the scheduler goes to the policy with its current process removed |
| `Dispatch.Dispatcher.TimesliceOver` | main.c:97-100 | the ring advances; the strategy must be RR |
| `Dispatch.Dispatcher.ContextSwitch` | main.c:102-117 | scheduler and kernel go to the switched policy and its priorities |
| `Dispatch.Dispatcher.SchedulerEmpty` | main.c:119-131 | the answer is whether the policy is empty |
| `Dispatch.Dispatcher.ForkSuspended` | main.c:62-63 | the new child's pid is recorded, it is Low, and the schedule does not change |
| `Dispatch.Dispatcher.AddProcess` | main.c:61-78 | fork, suspend, store the pid and hand over: kernel and policy are those after admitting the process, for every strategy |
| `EventLoop.SchedulerLoop.AddRecord` | main.c:61-78 | adding the record at the arrival pointer touches no record that has not been handed over, and leaves room for the others |
| `EventLoop.SchedulerLoop.AddProcess` | main.c:61-78 | the program goes to the policy and priorities after admitting the record |
| `EventLoop.ReadyForNext` | main.c:61-78 | those are the policy and priorities of the state machine's admission, and the rest of the group can follow |
| `EventLoop.SchedulerLoop.AdmitOthers` | main.c:355-357 | the inner loop admits one process after the other and stops exactly at the end of the group |
| `EventLoop.SchedulerLoop.AdmitGroup` | main.c:353-357 | the whole group is admitted, and the result is the gap to the next arrival or zero when there is none |
| `EventLoop.SchedulerLoop.EndOfBody` | main.c:366-371 | the loop ends exactly when arrival queue and scheduler are empty, otherwise the context switch is done |
| `EventLoop.SchedulerLoop.ServeSlice` | main.c:348-360 | the end of a slice moves the ring on and sets the timer for the next event |
| `EventLoop.SchedulerLoop.ServeArrival` | main.c:352-360 | an arrival admits the group and sets the timer for the next event |
| `EventLoop.SchedulerLoop.ServeTimer` | main.c:345-361 | a timer event does one or the other, by the reason found before the subtraction |
| `EventLoop.SchedulerLoop.WakeByTimer` | main.c:345-371 | the program goes from a world to the one that follows it after a timer event, or leaves the loop |
| `EventLoop.SchedulerLoop.WakeByChild` | main.c:362-371 | the same for the exit of a child; the timer is not set again |
| `EventLoop.SchedulerLoop.Run` | main.c:343-372 | under every strategy, after any finite number of wake-ups of a run the program is in the world the run has reached, and it has left the loop exactly if the run has exited |
| `EventLoop.ReadProcessInfo` | main.c:387-425 | fresh records with the arrival times and run times of the input, in input order |
| `EventLoop.SetStrategy` | main.c:324-332 | every policy starts empty with room for all processes |
| `EventLoop.StartUp` | main.c:324-341 | the program that main sets up is in the initial world, for every strategy |
| `EventLoop.SchedulerLoop.TakeOver` | PSJF.c:13-15 | from its initial state the PSJF program is put into the state in which its first process is queued, active and High, both times are its arrival time and the timer is set for the next arrival |
| `EventLoop.Schedule` | main.c:324-372 | from the input on, under every strategy, the program goes through the worlds of the run; PSJF takes its first process over |
| `EventLoop.PlanGroup` | main.c:353-357 | admitting a group is a chain of single admissions, whenever the state machine admits it |
| `EventLoop.PlanTimer` | main.c:345-361 | the state machine's timer step is the plan the methods carry out |
| `EventLoop.PlanChild` | main.c:362-365 | the state machine's exit step removes the process whose child exited |
| `EventTimer.TimerInfo.constructor` | main.c:284-298 | the countdowns and the armed value are the initial clock's, in exact multiples of the unit, and an immediate first arrival leaves the alarm pending |
| `EventTimer.TimerInfo.TakeAlarm` | main.c:172-177 | a pending alarm is delivered once |
| `EventTimer.TimerInfo.GetExpireReason` | main.c:223-238 | the reason computed from timespecs is the one in units |
| `EventTimer.TimerInfo.SubtractTimePassed` | main.c:240-259 | subtracting timespecs subtracts units exactly |
| `EventTimer.TimerInfo.UpdateArrivalRemaining` | main.c:311-314 | the arrival countdown becomes the gap; the code's assertion holds |
| `EventTimer.TimerInfo.UpdateTimesliceRemaining` | main.c:316-322 | for RR the slice countdown becomes exactly 500 times the unit in nanoseconds; the code's assertion holds |
| `EventTimer.TimerInfo.SetTimer` | main.c:261-282 | the kernel timer gets the countdown that is due first |
| `EventTimer.TimerInfo.ArmedExactly` | main.c:261-282 | the kernel is told to disarm exactly when the value in units is zero, and waits for exactly that many units otherwise |
| `EventTimer.ArrivalQueue.TimeunitsUntilNextArrival` | main.c:498-505 | the gap between the next arrival and the one before it |
| `EventTimer.ArrivalQueue.GetArrivedProcess` | main.c:507-512 | the record at the pointer is handed out and the pointer moves by one |
| `Timespecs.MultiplyExact` | main.c:450-456 | multiplication is exact on total nanoseconds, and nanoseconds carry into seconds at 10^9 |
| `Timespecs.DivideExact` | main.c:458-464 | division rounds the total down by less than the divisor's share and keeps the normal form |
| `Timespecs.DivideUndoesMultiply` | main.c:450-464 | dividing a multiple gives the original back |
| `Timespecs.SubtractExact` | main.c:466-474 | subtraction is exact and keeps the normal form in either order |
| `Timespecs.MinIsLeftExactly` | main.c:198-206 | the left pointer is returned exactly when its value is strictly smaller |
| `Timespecs.MultiplyFitsInt64` | main.c:450-456 | with a 32-bit count the product of nanoseconds never overflows 64 bits; the seconds fit if and only if the whole product does, which holds for every unit below 2^31 seconds |
| `Timespecs.MultiplesBehave` | main.c:240-259 | on multiples of the unit, subtraction and comparison are those of the counts |
| `Timespecs.CalibrationError` | main.c:476-485 | the delay for a units falls short of the ideal a d / 1000 by less than a nanoseconds |
| `Timespecs.DelaysAddUp` | main.c:498-505 | the delays armed gap by gap add up to the delay of the whole span |
| `EventTimer.DelaysReachArrival` | main.c:498-505 | the delays armed one after the other up to process k add up to exactly its arrival time in units |
| `Heaps.UpheapRestores` | heap.c:36-43 | from a heap with one low key, sifting up restores heap order and keeps the contents |
| `Heaps.DownheapRestores` | heap.c:56-71 | from a heap with one high key, sifting down restores heap order and keeps the contents |
| `Heaps.InsertAddsOne` | heap.c:45-50 | insertion keeps the heap and adds exactly one element to the multiset |
| `Heaps.PopRemovesLeast` | heap.c:73-77 | pop keeps the heap and removes exactly the minimum |
| `Heaps.LoweredRootKeepsOrder` | PSJF.c:20-22 | lowering the key of the root in place needs no sifting |
| `Heaps.DrainSorts` | heap.c:73-77 | popping until empty yields the contents in sorted order |
| `Heaps.SortedIsUnique` | heap.c:9-16 | with distinct pids there is only one sorted order |
| `Heaps.DrainForgetsLayout` | heap.c:45-77 | heaps with the same contents drain in the same order |
| `Heaps.InsertThenDrainSorts` | heap.c:45-77 | inserting in any order and draining gives the sorted permutation, independent of the insertion order |
| `Heaps.Pow2Doubles` | heap.c:36-71 | the bounds below double with every swap; a heap of 32-bit size takes at most 30 swaps to sift |
| `Heaps.UpheapIsLogarithmic` | heap.c:36-43 | sifting up from i makes at most log2(i + 1) swaps |
| `Heaps.DownheapIsLogarithmic` | heap.c:56-71 | sifting down n elements from the root makes at most log2(n) swaps |
| `Heaps.Heap.constructor` | heap.c:4-7 | an empty heap with the given capacity |
| `Heaps.Heap.SwapElements` | heap.c:30-34 | two elements change places, and the count of swaps goes up by one |
| `Heaps.Heap.SiftUp` | heap.c:36-43 | the loop computes the specified array, permutes the pointers, and raises the count of swaps by the specified number |
| `Heaps.Heap.SiftDown` | heap.c:56-71 | likewise |
| `Heaps.Heap.LeastOf` | heap.c:58-64 | the position of the least among a parent and its children, by the specification |
| `Heaps.Heap.ElementLt` | heap.c:9-16 | the order is remaining time, then the smaller pid |
| `Heaps.Heap.Insert` | heap.c:45-50 | heap order is kept, the multiset gains exactly the new entry, and the count of swaps goes up by at most log2 of the size |
| `Heaps.Heap.Pop` | heap.c:73-77 | heap order is kept, the multiset loses exactly the root, and the count of swaps goes up by one and at most log2 of the size |
| `HeapContents.RootIsTheLeast` | heap.c:52-54 | the top is the least of the set of queued processes |
| `PreemptiveShortestJob.SwitchSettles` | PSJF.c:13-15 | after a context switch the active process is the least in the heap and the clock is synchronised |
| `PreemptiveShortestJob.TwoArrivalsWithoutSwitch` | PSJF.c:17-24 | after an arrival the next one passes the assertion if and only if the first newcomer does not go before the running process, and both together charge the right amount if and only if, moreover, no time had passed |
| `PreemptiveShortestJob.PsjfScheduler.ChargeRoot` | PSJF.c:20-22 | lowering the root's key in place keeps the heap valid and changes only that entry |
| `PreemptiveShortestJob.PsjfScheduler.TopIsLeast` | PSJF.c:13-15 | the active pointer is the heap top exactly when its entry is the least |
| `PreemptiveShortestJob.PsjfScheduler.AddProcess` | PSJF.c:17-24 | the clock moves to the arrival, the active process is charged, the new one is queued |
| `PreemptiveShortestJob.PsjfScheduler.RemoveCurrentProcess` | PSJF.c:30-36 | the clock moves by what the active process had left, and that process is gone |
| `PreemptiveShortestJob.PsjfScheduler.ContextSwitch` | PSJF.c:38-47 | the least process is active and High, the preempted one Low, the switch time is recorded |
| `PreemptiveShortestJob.PsjfScheduler.Empty` | PSJF.c:49-51 | true exactly when nobody is active or queued |
| `RoundRobin.AddAppends` | RR.c:27-40 | adding appends to the queue pq[cur..] + pq[..cur] |
| `RoundRobin.RemoveDropsHead` | RR.c:42-53 | removing drops the head of that queue |
| `RoundRobin.SliceRotates` | RR.c:12-58 | the end of a slice moves the head to the back |
| `RoundRobin.EmptyExactly` | RR.c:69-71 | no process exactly when the current index is -1 |
| `RoundRobin.BoundedWaiting` | RR.c:27-58 | the process at position k becomes current after exactly k slice or exit events, whatever arrives in between, and nobody among the first k overtakes |
| `RoundRobinWaiting.QueueMovesUp` | RR.c:27-58 | in a round-robin run a process moves up in the schedule by exactly one position for each slice end or exit and is overtaken by no arrival |
| `RoundRobinWaiting.WaitingInTurns` | RR.c:27-67 | the process at position k of the schedule at some wake-up is the one the kernel runs once k slice ends and exits have come |
| `RoundRobinWaiting.WaitingInTime` | RR.c:55-58 | until then, and at that moment, no more time has passed than the rest of the current slice and k - 1 slices |
| `RoundRobinWaiting.WaitingEnds` | RR.c:27-67 | in a run that exits, the process at position k of the schedule at any wake-up does get the processor, with the k-th turn that ends and within that time |
| `RoundRobin.RoundRobinScheduler.ShiftIn` | RR.c:33-36 | the loop makes a gap at the current position and nothing else moves |
| `RoundRobin.RoundRobinScheduler.ShiftOut` | RR.c:43-45 | the loop closes the gap at the current position |
| `RoundRobin.RoundRobinScheduler.AddProcess` | RR.c:27-40 | the array and indices go to the ring with the process added; indices stay in bounds |
| `RoundRobin.RoundRobinScheduler.RemoveCurrentProcess` | RR.c:42-53 | the array and indices go to the ring without its current process |
| `RoundRobin.RoundRobinScheduler.TimesliceOver` | RR.c:55-58 | the current index advances and the old one is remembered |
| `RoundRobin.RoundRobinScheduler.ContextSwitch` | RR.c:60-67 | the process at the previous index is suspended before the current one is resumed; both indices are in bounds however stale |
| `RoundRobin.RoundRobinScheduler.Empty` | RR.c:69-71 | true exactly when the queue is empty |
| `ShortestJob.MoveToFrontHelps` | SJF.c:22-29 | moving a shortest process to the front never raises the total completion time |
| `ShortestJob.SortedIsOptimal` | SJF.c:22-29 | no permutation of the jobs has a smaller total completion time than the sorted one |
| `ShortestJob.InOrderIsOptimal` | SJF.c:22-29 | the order in which SJF takes the least waiting process is optimal among all orders of the same set |
| `ShortestJob.SjfScheduler.AddProcess` | SJF.c:10-12 | the process joins the waiting set |
| `ShortestJob.SjfScheduler.RemoveCurrentProcess` | SJF.c:18-20 | the active slot becomes free |
| `ShortestJob.SjfScheduler.ContextSwitch` | SJF.c:22-29 | an active process stays; otherwise the least waiting process leaves the heap, becomes active and High |
| `ShortestJob.SjfScheduler.RunAll` | SJF.c:22-29 | with all jobs present, the pids the scheduler resumes are, one after the other, those of the sorted order, and no order has a smaller total completion time |
| `ShortestJob.SjfScheduler.Empty` | SJF.c:31-33 | true exactly when nobody is active or waiting |
| `Processes.Kernel.Suspend` | scheduler.h:111-114 | the child's priority becomes Low |
| `Processes.Kernel.Resume` | scheduler.h:116-119 | the child's priority becomes High, and the resumption is recorded |

## Left out

- FIFO.c: it keeps only a counter; the order of the processes is left to the kernel's SCHED_FIFO.
- kernel_files: system calls that read clocks and print.
- fork, wait, sigaction, sigsuspend, sched_setscheduler, timer_settime and clock_gettime are foreign; they appear as the
  priority map, the ideal clock and the wake-ups. Timing jitter and two signals that merge into one wake-up are not
  modelled.
- Input parsing, process names, printing of results, `str_to_strategy` and the manual tests of main.c.
- Unsorted input: the code relies on input sorted by arrival time and does not sort it.
- Negative arrival times or run times: the input format has none.
- PSJF's first arrival, its arrivals after idling and simultaneous PSJF arrivals: the code fails there, and the lemmas say
  when. `EventLoop.SchedulerLoop.TakeOver`, which brings PSJF into the state from which it works, has no counterpart in the
  C code.
- An input without processes: main then asks for the next arrival of an empty queue, and the assertion at main.c:499 fails
  during start-up. The model takes at least one process (`IdealClock.ValidParams`).
- 32-bit overflow of `current_time`, `remaining_time` and the counters.
- Heaps.Heap.Pop: does not model popping an empty heap, which the C code does not check; the callers' runs treat it as a
  failure instead.
- Heaps.Heap.Insert and RoundRobin.RoundRobinScheduler.AddProcess require a free place, as the C code does silently;
  RunTheorems.CapacitySuffices shows that there always is one.
