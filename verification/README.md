# Verified models of rt-tests

This project models the concurrent protocols of five programs of the rt-tests suite and the data core of
cyclictest, and proves what the programs rely on.

- `pi_stress`: any number of groups of three threads that stage a priority inversion over and over, the `shutdown` and
  `loop` flags with their mutexes, all barriers, and main with its reporter loop (`PiStress.dfy` is the machine,
  `PiStressGroup.dfy` one group, `PiStressSystem.dfy` the invariant of the whole, `PiStressProgress.dfy` progress,
  `PiStressCause.dfy` why `shutdown` rises, `PiStressShutdown.dfy` the end, `PiStressBounds.dfy` the number of iterations,
  `PiStressReporter.dfy` what the watchdog check finds when a group has finished). `Watchdog.dfy` is the deadlock watchdog
  itself, `PiStressEvents.dfy` the proof that it sees what happens in every run of the whole program.
- `classic_pi` (`ClassicPi.dfy`): the older program with three threads, one mutex and six barriers, under strict
  priorities on one CPU or under any schedule, with or without priority inheritance.
- `hackbench` (`Hackbench.dfy`, `HackbenchSystem.dfy`): groups of senders and receivers over bounded byte channels
  with partial reads and writes, behind the ready/go gate.
- `rt-migrate-test` (`RtMigrate.dfy`): recording threads and a driver that meet at two barriers once per round.
- `pmqtest` with timeout 0 (`PmqTest.dfy`): one sender and one receiver over two message queues.
- `cyclictest`: timespec arithmetic and the catch-up loop (`Timespecs.dfy`), extremes, histogram and outliers
  (`ThreadStats.dfy`) and their report (`HistReport.dfy`), the value ring of verbose mode (`Oscope.dfy`), the choice of
  a CPU from a mask (`CpuMask.dfy`), the aligned start (`AlignedStart.dfy`).

`Runs.dfy`, `Sums.dfy`, `Arith.dfy` and `Options.dfy` hold what the others share.

## How the code is represented

**Threads.** The code of several threads that run at the same time is a step machine: one step is one access of one
thread to shared state, and a run is any sequence of steps any scheduler may choose (`Runs.IsRun`). Program counters
are datatypes whose constructors stand for the statements noted beside them. Safety results speak of every state of
every run, progress results say that a state that is not final allows a step, and termination results bound the
length of every run by a rank. Code that one thread runs by itself (the cyclictest data core, the watchdog's loops)
is modelled with classes, arrays and loops.

A few steps make more than one access, where no other thread can see the difference or what it could change makes none.
In rt-migrate-test the driver's step after a round writes two variables no task reads before the next round, and a
task's `record_time` reads `now` twice, which nobody writes while tasks record, and stores into three cells of its own.
In pi_stress `total++` and `watchdog++` are one step each: nobody but high writes `total`, and a clear between the read
and the write of `watchdog` leaves it positive, as a clear before both does. The watchdog check looks at a group's
counter and compares its total in one step of the whole program, and neither changes anything there; in `Watchdog.dfy`
they are two. In pmqtest main tests the flags of a pair in one step, and no flag ever falls.

**Barriers.** A barrier counts the threads waiting there; the arrival that completes the count lets all of them go,
and any one of the arriving threads may be the one that gets `PTHREAD_BARRIER_SERIAL_THREAD` (pthread_barrier_wait,
POSIX.1-2008). A released thread takes its next step whenever the scheduler likes, so late wake-ups are covered.

**Mutexes.** Locking is possible exactly while the mutex is free. In `classic_pi` the owner runs at the priority of
the highest thread blocked on the mutex if inheritance is switched on.

**Stale reads.** Low and med of a pi_stress group read `total` without a lock: they may read any value it had so far. High
adds to `watchdog` by reading and writing it, so in `Watchdog.dfy` it may write one more than a value from before a clear.

**Environment.** Clock readings, partial transfers, the expiry of a duration, the early-stop test of rt-migrate-test
and the moments at which main of pmqtest makes its two stores are arbitrary. Fields named in a comment as history
(for instance `acquired`, `iters`, `writes`) record what happened and influence nothing; those that list clock readings
(`sentTimes`, `receiveTimes`, `nows`, `began`, `polls`) take them from the step that makes the reading, not from the program's
variables.

## What the proofs say about the programs

- `classic_pi` completes for every number of inversions exactly if inheritance is on and the threads are pinned to one
  CPU (or there is nothing to do). Without inheritance on one CPU the first inversion always ends with the medium thread
  alone at `elevate_barrier`; with inheritance on several CPUs that state can be reached.
- In `pi_stress` no group deadlocks under any schedule: as long as it has not finished, a thread of the group can go on, or
  it waits for `shutdown_mtx`, whose owner can go on, or for the common start. Within 120 of its own steps it completes an
  iteration or has left. After `shutdown` is raised the program ends, each group after at most two more iterations; a group
  told to do N inversions does N + 1 if only its own threads raise `shutdown`, and never more. With such a bound its moves
  are bounded in every run, so the program can fail to end only while nobody but main's reporter is scheduled. Without a
  number of inversions and without a duration it never stops: `shutdown` is raised only by main when the duration is over or by
  a group that has done the inversions it was given (`PiStressCause.ShutdownHasCause`).
- The watchdog of `pi_stress` looks at a group's counter and clears it in two separate loops, and high counts meanwhile. An
  inversion finished between the look and the clear is lost. A report therefore means that five checks in a row found no
  inversion since the preceding clear; that the group finished none at all follows exactly if none fell into that window.
  `Watchdog.BusyGroupReported` gives a group that is reported although it finishes an inversion in every pass.
- In `watchdog_check` the comment says that a finished group is not reported, and that is true
  (`PiStressReporter.FinishedGroupNotIdle`), though not for the reason it gives. The comparison of `inversions` with `total`
  does not recognise a finished group: one whose own threads raised `shutdown` has `total == inversions + 1`. But `loop` falls
  only after `shutdown`, so high has finished an inversion since main saw `shutdown` unset and set out for the check, and the
  check finds `watchdog` above 0.
- In `pmqtest` sender and receiver by themselves stop together, and on a trace limit hit they do so whatever main does. Main,
  however, copies a flag it sees to all threads, first the receiver's and then the sender's. A run that has come to rest has
  ended cleanly if and only if none of three things happened (`PmqTest.Separates`): main set the receiver's flag before the
  receiver had tested it, with a message on its way or the sender committed to one; the sender tested its own flag between
  main's two stores, the receiver being about to leave or gone; main set the sender's flag while the receiver waited for a
  message that the sender had not committed to. For every cycle limit there is a run that does not end cleanly.
- In cyclictest an early wake-up gives a negative difference that is stored in an unsigned variable. The recorded minimum
  ignores it, the recorded maximum is taken over by it, and the histogram counts it as an overflow.
- The catch-up loop of cyclictest ends exactly if the interval is positive or there is nothing to catch up; an interval of
  0 is not rejected by the option parser.
- `cpu_for_thread` gives every thread its own CPU of the mask exactly if no bit of the mask, except perhaps bit 0, lies at or
  beyond `max_cpus`; threads of bits beyond are put on CPU 0, which may or may not be in the mask.

## Model

| member | source | states |
|---|---|---|
| `PiStressProgress.NoDeadlock` | src/pi_tests/pi_stress.c:676-757 | In every reachable state, for every group: one of its threads can go on; or all that keeps it is `shutdown_mtx`, whose owner can go on in its section; or all three wait at `all_threads_ready`, which main or a thread of some group has yet to reach and can move; or all three are at or past `all_threads_done` and `shutdown` is set. The reporter's own loop does not count. |
| `PiStressProgress.MovesBoundedByIterations` | src/pi_tests/pi_stress.c:676-757 | In any stretch of a run, also before `shutdown`, a group makes at most 111 moves for each iteration it completes, plus those of the iteration in which it started. |
| `PiStressProgress.IterationWithinMoves` | src/pi_tests/pi_stress.c:676-757 | A group that has made more than 120 moves has completed an iteration meanwhile. |
| `PiStressProgress.OwnStepMoves` | src/pi_tests/pi_stress.c:645-770 | Every step of one of a group's threads is such a move. |
| `PiStressProgress.NotStuck` | src/pi_tests/pi_stress.c:356-373 | Until all workers and main have passed `all_threads_done` some thread of the program, main included, can go on. |
| `PiStressProgress.NextOnGroup` | src/pi_tests/pi_stress.c:645-996 | What one step of the program can do to one group: a step of its own, an arrival at or a release of a shared barrier, a cleared watchdog, or nothing. |
| `PiStressSystem.GroupsDisciplined` | src/pi_tests/pi_stress.c:714-756 | In every reachable state the group mutex has been taken alternately by low and high, one pair per iteration; it is free whenever low wants it; nobody is bound for `loop_barr` while another has left; threads that left made the same number of rounds. |
| `PiStressProgress.LoopFixedAtTop` | src/pi_tests/pi_stress.c:685-709 | No step of any thread changes a group's `loop` while one of its threads is between `finish_barrier` and the release of `loop_barr`. |
| `PiStressShutdown.ShutdownEndsTheProgram` | src/pi_tests/pi_stress.c:573-623 | From the moment `shutdown` is set every continuation is bounded in length, completes at most two iterations per group, and, if it cannot go on, has everybody past `all_threads_done`. |
| `PiStressShutdown.ShutdownTerminates` | src/pi_tests/pi_stress.c:700-709 | From any consistent state with `shutdown` set each step lowers a rank, and each group ends after exactly the iteration that was already determined. |
| `PiStressReporter.FinishedGroupNotIdle` | src/pi_tests/pi_stress.c:506-511 | In every run, whenever the watchdog check comes to a group of which high has left its loop, it finds `watchdog` above 0: a finished group is never found idle and gets no hit. |
| `PiStressReporter.StepKeepsCovered` | src/pi_tests/pi_stress.c:573-617 | Every step of the program keeps this: while main, having seen `shutdown` unset, is on its way to the check of a group, that group has counted up `watchdog` if its `loop` has fallen, its threads have come round, and high is through with its statistics. |
| `PiStressReporter.FinishedGroupSeenOnce` | src/pi_tests/pi_stress.c:573-617 | Once high of some group has left its loop, the watchdog check looks at each group once more at most. |
| `PiStressBounds.BoundedGroups` | src/pi_tests/pi_stress.c:681-683 | With any number of groups, with or without a duration: a group told to do N inversions never has a total above N + 1, whatever stale totals low and med read; and exactly N + 1 once high leaves, if every step of the run that raised `shutdown` was one of its own threads'. |
| `PiStressCause.ShutdownHasCause` | src/pi_tests/pi_stress.c:672-683 | In every run, if `shutdown` is set, then some step before raised it, and that was main's after the given duration was found over, or one at the top of the loop of a thread whose group was given a number of inversions and had done that many. |
| `PiStressCause.UnboundedRunsOn` | src/pi_tests/pi_stress.c:114-117 | Without a number of inversions and without a duration `shutdown` is never set, no thread of any group ever leaves, no group is deadlocked and some thread can always go on. |
| `PiStressCause.DurationStops` | src/pi_tests/pi_stress.c:600-605 | Once the reporter has found the given duration over, `shutdown` is set or main is just about to set it. |
| `PiStressCause.StepHasCause` | src/pi_tests/pi_stress.c:802-810 | Every single step that raises `shutdown` is one of those two. |
| `PiStressEvents.RunsMirrorWatchdog` | src/pi_tests/pi_stress.c:573-617 | In every run of the whole program and for every group: `total` and `watchdog` are what the watchdog's model computes from the group's list of events; look, comparison and clear come in turn; and there was one look at the group in each pass for which the reporter set out. So the results about all lists of events hold of all runs. |
| `PiStressEvents.StepFollows` | src/pi_tests/pi_stress.c:989-994 | A step of any thread changes a group's counters exactly as its events say. |
| `PiStressBounds.BoundedGroupMoves` | src/pi_tests/pi_stress.c:681-683 | With a bound of N inversions a group makes at most 120 + 111 (N + 1) moves in any run, under any schedule. |
| `PiStressBounds.BlockedOnlyAtTheEnd` | src/pi_tests/pi_stress.c:347-373 | With or without a bound: when no worker of any group can step, and main is neither before `all_threads_ready` nor inside a section of `shutdown_mtx`, then `shutdown` is set and every worker is at or past `all_threads_done`. |
| `PiStressBounds.StepKeepsBounds` | src/pi_tests/pi_stress.c:802-857 | Every step keeps the upper bound of every group, and its lower bound unless a thread outside the group raises `shutdown`. |
| `PiStressSystem.StepKeepsInv` | src/pi_tests/pi_stress.c:802-857 | Every step of every thread keeps the whole invariant: each group's discipline, the owner of `shutdown_mtx`, both shared barrier counts. |
| `PiStressSystem.InitInv` | src/pi_tests/pi_stress.c:1100-1127 | The initial state of any number of groups satisfies that invariant. |
| `PiStressSystem.ReadyArrivalKeepsInv` | src/pi_tests/pi_stress.c:347-348 | `all_threads_ready` lets everybody go only when every worker and main wait there, and leaves its count at 0. |
| `PiStressSystem.DoneArrivalKeepsInv` | src/pi_tests/pi_stress.c:364-373 | The same for `all_threads_done`; all threads of all groups leave together. |
| `PiStressSystem.ClearKeepsInv` | src/pi_tests/pi_stress.c:492-497 | Clearing the counter of one group between any two steps of its threads leaves the protocol alone. |
| `PiStressProgress.SomebodyCanMove` | src/pi_tests/pi_stress.c:306-321 | If `shutdown_mtx` is free and main is blocked, some worker is not: the shared barriers cannot block everybody. |
| `PiStressGroup.GroupStepKeepsCore` | src/pi_tests/pi_stress.c:927-996 | A step of any of the three threads keeps them in the same stretch of code, the mutex discipline and the counts, and never lowers `shutdown`. |
| `PiStressGroup.FlagStepKeepsTogether` | src/pi_tests/pi_stress.c:685-709 | The code around the loop keeps `loop_mtx` with at most one thread, the serial thread unique, and `loop` low only after `shutdown`. |
| `PiStressGroup.InversionStepKeepsCore` | src/pi_tests/pi_stress.c:833-856 | Barrier waits, the mutex and the statistics keep the group's discipline. |
| `PiStressGroup.GroupStepShutsDown` | src/pi_tests/pi_stress.c:700-709 | With `shutdown` set a step brings the group closer to its exit and does not change after which iteration it exits. |
| `PiStressGroup.InversionStepKeepsBounds` | src/pi_tests/pi_stress.c:989-994 | Finishing an iteration respects the upper and lower bound on the number of iterations. |
| `PiStressGroup.HolderCanMove` | src/pi_tests/pi_stress.c:1088-1097 | The thread inside a section of `shutdown_mtx` is never blocked there, not even on `loop_mtx`. |
| `PiStressGroup.OnlySharedBarriersBlock` | src/pi_tests/pi_stress.c:204-216 | A group of which no thread can go on waits as a whole at a barrier shared by all groups, or has left. |
| `ClassicPi.CompletesExactlyWhen` | src/pi_tests/classic_pi.c:421-594 | For every number of inversions: all runs end with all threads finished if and only if there is nothing to do, or inheritance is on and the threads share one CPU. |
| `ClassicPi.OnlyMedGetsStuck` | src/pi_tests/classic_pi.c:507-529 | Under every schedule runs are bounded, and one that cannot go on is finished or has med alone at `elevate_barrier`. |
| `ClassicPi.FirstInversionGetsStuck` | src/pi_tests/classic_pi.c:229-237 | Without inheritance on one CPU every run stays in its first inversion and ends with med stuck. |
| `ClassicPi.PinnedRunsStaySafe` | src/pi_tests/classic_pi.c:252-254 | With inheritance on one CPU no reachable state has med about to test the second flag or gone back to the barrier after low. |
| `ClassicPi.MedSeesHighDone` | src/pi_tests/classic_pi.c:522 | With inheritance on one CPU med reads `high_has_run` only after high has set it. |
| `ClassicPi.OnlyMedDooms` | src/pi_tests/classic_pi.c:516-522 | Only med's reading of two unset flags can lead to the deadlock. |
| `ClassicPi.DoomLasts` | src/pi_tests/classic_pi.c:516-522 | Once med is bound back for the barrier that low has left, this stays so. |
| `ClassicPi.StepKeepsInv` | src/pi_tests/classic_pi.c:438-479 | Each step keeps the mutex with the thread that is between lock and unlock, the stages of the inversion and equal loop counters. |
| `ClassicPi.StepLowersRank` | src/pi_tests/classic_pi.c:558-584 | Each step lowers a rank, also when med goes back to `elevate_barrier`. |
| `ClassicPi.RunToTheEnd` | src/pi_tests/classic_pi.c:310-327 | From every consistent state there is a run that goes on until nobody can. |
| `ClassicPi.EffectiveIsGreatest` | src/pi_tests/classic_pi.c:229-237 | The priority at which a thread runs is the greatest of its own and, with inheritance, those of all threads blocked on the mutex it owns. |
| `ClassicPi.GetsStuck` | src/pi_tests/classic_pi.c:78-85 | Without inheritance, or without pinning, some run does not complete. |
| `Watchdog.ReportedAtFifthPass` | src/pi_tests/pi_stress.c:508-519 | A group not reported so far is reported at a comparison if and only if that is the fifth counted one since a check last saw progress; it has then finished no inversion between any clear and the next look in that time. |
| `Watchdog.NothingFinishedExactlyWhen` | src/pi_tests/pi_stress.c:610-617 | A reported group has finished no inversion at all since progress was last seen if and only if it finished none between a look and the following clear. |
| `Watchdog.BusyGroupReported` | src/pi_tests/pi_stress.c:610-617 | A group that finishes an inversion between the check and the clear of every pass has as many hits as passes and is reported at the fifth. |
| `Watchdog.HitsCountIdlePasses` | src/pi_tests/pi_stress.c:500-522 | `watchdog_hits` equals the number of counted comparisons since the last look that saw progress, with high going on between look, comparison and clear. |
| `Watchdog.HitsStayBelowLimit` | src/pi_tests/pi_stress.c:512 | As long as nothing was reported the hits are below the limit. |
| `Watchdog.PlayCounts` | src/pi_tests/pi_stress.c:990-994 | `watchdog` is 0 exactly if no inversion was finished since the last clear. |
| `Watchdog.WatchdogCheck` | src/pi_tests/pi_stress.c:500-522 | The loop updates the hits of every group by the one rule and fails exactly if some group reached the limit. |
| `Watchdog.WatchdogClear` | src/pi_tests/pi_stress.c:492-497 | The loop clears every group's counter and changes nothing else. |
| `Watchdog.ReporterPass` | src/pi_tests/pi_stress.c:610-617 | One pass checks every group, lets each finish any number of inversions, and clears every group, unless some group is reported. |
| `Watchdog.Group.FinishInversion` | src/pi_tests/pi_stress.c:990-994 | High's statistics are the two events of one finished inversion. |
| `HackbenchSystem.BytesConserved` | src/hackbench/hackbench.c:143-185 | In every reachable state, per channel: bytes written by all senders = bytes read + bytes buffered, and no more than fit. |
| `HackbenchSystem.RunsEndWell` | src/hackbench/hackbench.c:469-510 | Every run is bounded; one that cannot go on has main ended, all workers returned and all channels empty. |
| `HackbenchSystem.NobodyStartsEarly` | src/hackbench/hackbench.c:112-124 | If a data byte was written, every worker has signalled ready, and the single go byte is still there and lets every worker pass. |
| `HackbenchSystem.AllSignalled` | src/hackbench/hackbench.c:487-492 | When main has read one byte per child, every worker has signalled. |
| `HackbenchSystem.SomePlace` | src/hackbench/hackbench.c:303-339 | Every place in `child_tab` belongs to a receiver or sender of some group. |
| `HackbenchSystem.SamePlace` | src/hackbench/hackbench.c:303-339 | No place belongs to two of them. |
| `HackbenchSystem.ActKeepsInv` | src/hackbench/hackbench.c:469-502 | Every action of workers and main keeps the gate and all groups consistent. |
| `HackbenchSystem.NotStuck` | src/hackbench/hackbench.c:249-282 | As long as main has not ended somebody can act. |
| `Hackbench.GroupNotStuck` | src/hackbench/hackbench.c:285-345 | In a consistent group that is not done a sender can write or a receiver can read. |
| `Hackbench.DoneMeansEmpty` | src/hackbench/hackbench.c:314 | When all senders and receivers are done, each channel is empty and each receiver has got `num_fds * loops` messages. |
| `Hackbench.NoEndOfFile` | src/hackbench/hackbench.c:178-184 | A receiver that waits for bytes on an empty channel has a sender behind it. |
| `Hackbench.WriteKeepsGroupOk` | src/hackbench/hackbench.c:143-155 | A partial write of any size keeps the conservation law on every channel. |
| `Hackbench.ReadKeepsGroupOk` | src/hackbench/hackbench.c:174-185 | A partial read of any size keeps it too. |
| `Hackbench.WriteLowersToMove` | src/hackbench/hackbench.c:147-153 | A write of `ret` bytes lowers the bytes still to be moved by `ret`. |
| `Hackbench.ReadLowersToMove` | src/hackbench/hackbench.c:178-184 | A read of `ret` bytes lowers them by `ret`. |
| `RtMigrate.EachCellOnce` | src/rt-migrate-test/rt-migrate-test.c:252-264 | Each cell (round, thread) is written exactly once when its round is over and not before, by its own thread in that round; no write is out of bounds; in a finished run every row below the final `nr_runs` is written once and no other. |
| `RtMigrate.RowsLongEnough` | src/rt-migrate-test/rt-migrate-test.c:252-263 | In every kept row the recorded times are the thread's readings minus the reading of the clock that main made for that round, although all differences are unsigned; the loops are the number of readings that `busy_loop` made, of which only the last came after the busy time; and the length is at least the start offset plus the busy time. |
| `RtMigrate.RoundsDoNotOverlap` | src/rt-migrate-test/rt-migrate-test.c:553-571 | Whatever a row records lies before main's reading for the next round, and that before every start recorded in the next round. |
| `RtMigrate.StopsWhenTold` | src/rt-migrate-test/rt-migrate-test.c:573-577 | If main is told to stop after round r, no later round records and `nr_runs` is r + 1; otherwise it stays as given and all rounds record. |
| `RtMigrate.ExitAfterExtraRound` | src/rt-migrate-test/rt-migrate-test.c:553-583 | Every thread that has exited made exactly `nr_runs` + 1 rounds, also after an early stop. |
| `RtMigrate.RunsEnd` | src/rt-migrate-test/rt-migrate-test.c:553-586 | No run gets stuck before main and all threads are done; all steps but early readings in `busy_loop` are bounded in number. |
| `RtMigrate.ActKeepsInv` | src/rt-migrate-test/rt-migrate-test.c:375-391 | Every step keeps the rounds of threads and driver aligned and every cell as due. |
| `RtMigrate.StoreKeepsInv` | src/rt-migrate-test/rt-migrate-test.c:256-263 | A thread about to store has a cell of its own in range, and storing keeps all cells as due. |
| `RtMigrate.SettleEndKeepsInv` | src/rt-migrate-test/rt-migrate-test.c:571-578 | The release of `end_barrier` finishes the round for everybody at once. |
| `PmqTest.SamplesArePaired` | src/pmqtest/pmqtest.c:114-235 | In every reachable state sample k is made of the receiver's clock reading for message k and the sender's, minimum and maximum are those of the samples, the counts differ by at most one, at most one message is in the queues and no send blocks. |
| `PmqTest.LatenciesAreExact` | src/pmqtest/pmqtest.c:189-203 | While each message's second reading is not earlier and less than a second later than its first, minimum and maximum are the least and the greatest difference between the two readings of one message. |
| `PmqTest.TripsExactlyWhen` | src/pmqtest/pmqtest.c:205-221 | The trace limit counts as hit exactly if one was given and the maximum so far, once compared, is above it. |
| `PmqTest.BothStopTogether` | src/pmqtest/pmqtest.c:205-224 | If main leaves the flags alone, a run comes to rest only with both out of their loops, equal counts, empty queues, and exactly `max_cycles` samples or a trace limit hit. |
| `PmqTest.StopTogetherExactlyWhen` | src/pmqtest/pmqtest.c:541-549 | Every run that comes to rest ends cleanly if and only if main leaves the flags alone, or only copies them and no cycle limit is given. |
| `PmqTest.TripStopsTogether` | src/pmqtest/pmqtest.c:205-221 | On a trace limit hit both threads stop with equal counts and empty queues, with or without a cycle limit and whatever main does to the flags. |
| `PmqTest.CleanEndExactlyWhen` | src/pmqtest/pmqtest.c:541-549 | A run that has come to rest has ended cleanly if and only if no step of it separated the threads: main's store of the receiver's flag before the receiver's test while a message is sent or bound to be; the sender's test of its unset flag between main's two stores while the receiver is bound to leave; main's store of the sender's flag while the receiver waits for a message nobody is bound to send. |
| `PmqTest.ReactingStopsTogether` | src/pmqtest/pmqtest.c:205-221 | Without a cycle limit, and with a main that at most copies flags, a run comes to rest only after a trace limit hit, and cleanly. |
| `PmqTest.StepKeepsAfterTrip` | src/pmqtest/pmqtest.c:219-230 | After a trace limit hit no message is under way and the receiver finds its flag set. |
| `PmqTest.StepFate` | src/pmqtest/pmqtest.c:114-235 | One thread is doomed to wait for ever after a step of anybody, main's two stores included, exactly if it was before or the step is one of those three; nothing brings the threads together again. |
| `PmqTest.StrandedAtLimit` | src/pmqtest/pmqtest.c:544-549 | For every cycle limit m: a run in which main copies the sender's flag and the sender waits for ever after its m-th message. |
| `PmqTest.StrandedBySignal` | src/pmqtest/pmqtest.c:544-549 | The same in the first round when main sets the flags on its own account. |
| `PmqTest.StrandedBetweenStores` | src/pmqtest/pmqtest.c:546-549 | The run in which the receiver's flag is set while it handles message 0, it answers and leaves, and the sender tests its own flag before main sets that too: message 1 is sent to nobody. |
| `PmqTest.StepKeepsFlagsMeanTrip` | src/pmqtest/pmqtest.c:219-220 | Without a cycle limit, and with a main that at most copies flags, a set flag stands for a trace limit hit. |
| `PmqTest.QuietStates` | src/pmqtest/pmqtest.c:142-152 | The only ways to come to rest: a clean end, the sender waiting for a sync, the receiver waiting for a message. |
| `PmqTest.BoundedRunsEnd` | src/pmqtest/pmqtest.c:132-134 | From the moment a cycle limit is given, the sender's flag is set or the trace limit is hit, the number of further steps is bounded. |
| `PmqTest.StepKeepsInv` | src/pmqtest/pmqtest.c:181-234 | Every step keeps the ping-pong, the pairing of samples and the limits. |
| `PmqTest.NewExtremes` | src/pmqtest/pmqtest.c:200-203 | The two comparisons keep minimum and maximum exact. |
| `PmqTest.ReceiverKeepsOwnFlags` | src/pmqtest/pmqtest.c:219-224 | The receiver's steps keep both flags determined by the cycle and trace limits. |
| `PmqTest.SenderKeepsOwnFlags` | src/pmqtest/pmqtest.c:132-157 | So do the sender's. |
| `Timespecs.WakeUpTimes` | src/cyclictest/cyclictest.c:829-976 | In absolute mode the first wake-up is one interval after the start, and each later one the first point of the grid that is at least 1 + overrun intervals after the one before and not before the last reading; all are normalised and on the grid start + k * interval. |
| `Timespecs.Advance` | src/cyclictest/cyclictest.c:963-976 | One cycle moves `next` to the first point at least 1 + overrun intervals on that is not before `now`, that is by interval * max(1 + overrun, ceil((now - next) / interval)). |
| `Timespecs.CatchUp` | src/cyclictest/cyclictest.c:972-976 | The catch-up loop ends at the first grid point from where it started that is not past; its result is `next` after that many rounds of adding and normalising, and its test held in every round before. |
| `Timespecs.CatchUpEndsExactlyWhen` | src/cyclictest/cyclictest.c:972-976 | For normalised times: after some number of rounds of adding the interval and normalising the loop's test `tsgreater` fails, if and only if the interval is positive or the test fails at once. |
| `Timespecs.FirstPointNotPast` | src/cyclictest/cyclictest.c:963-976 | Without overruns no earlier later point of the grid is at or after `now`. |
| `Timespecs.TicksIncrease` | src/cyclictest/cyclictest.c:961-976 | k grows by at least one each cycle. |
| `Timespecs.Ticks` | src/cyclictest/cyclictest.c:829-832 | k is 1 before the first cycle and larger than the number of cycles always. |
| `Timespecs.CalcDiffIsClose` | src/cyclictest/cyclictest.c:379-393 | `calcdiff` is within a microsecond of the exact difference, rounded down if the first argument's nanoseconds are not the smaller ones and up otherwise, whatever the seconds; `calcdiff_ns` is exact; both are antisymmetric. |
| `Timespecs.CalcDiffIsMonotone` | src/cyclictest/cyclictest.c:379-393 | Both are monotone in the first argument for normalised readings. |
| `Timespecs.Greater` | src/cyclictest/cyclictest.c:373-377 | For normalised times `tsgreater` compares the total times. |
| `Timespecs.Timespec.Norm` | src/cyclictest/cyclictest.c:365-371 | `tsnorm` keeps the total time and carries all whole seconds; negative nanoseconds stay as they are. |
| `Timespecs.Normed` | src/cyclictest/cyclictest.c:365-371 | The result of `tsnorm` has the same total and is normalised if the nanoseconds were not negative. |
| `Timespecs.IntervalOf` | src/cyclictest/cyclictest.c:779-780 | The split of the interval is normalised and has the total of the given microseconds. |
| `ThreadStats.ThreadStat.Record` | src/cyclictest/cyclictest.c:917-961 | For every difference, also a negative one, a cycle keeps histogram, overflows, outliers and extremes those of the list of all differences, with every index in range. |
| `ThreadStats.ThreadStat.constructor` | src/cyclictest/cyclictest.c:2004-2060 | A fresh record is that of no cycle. |
| `ThreadStats.EveryCycleCounted` | src/cyclictest/cyclictest.c:951-959 | The buckets and the overflows add up to the number of cycles. |
| `ThreadStats.Overflows` | src/cyclictest/cyclictest.c:952-956 | The overflowing cycles are listed completely, in strictly increasing order. |
| `ThreadStats.LeastIgnoresEarly` | src/cyclictest/cyclictest.c:921-922 | The recorded minimum is that of the non-negative differences and 1000000. |
| `ThreadStats.GreatestTakenOverByEarly` | src/cyclictest/cyclictest.c:923-924 | The recorded maximum is negative exactly after an early wake-up, and then the largest negative difference. |
| `ThreadStats.RoundTrip` | src/cyclictest/cyclictest.c:918-924 | Storing a long in `uint64_t` and back gives the long again. |
| `HistReport.PrintHist` | src/cyclictest/cyclictest.c:1651-1724 | Each thread's printed column is its counts, and total and overflows account for all its cycles; with the summary column each line ends with the cycles of all threads in that bucket, that column adds up to the last total, which is the sum of the others, and the last figures account for all cycles of all threads; the maxima are the recorded ones, printed unsigned, and the last of them their maximum; the listed cycles are the first overflowing ones, as many as there are buckets, and the rest is counted. |
| `HistReport.PrintTable` | src/cyclictest/cyclictest.c:1660-1684 | The printed table is that of the counts, with the summary column each line ends with its sum, each total is its column's sum, and the summary total is both the sum of the totals and that of the summary column. |
| `HistReport.PrintOverflows` | src/cyclictest/cyclictest.c:1704-1712 | Each thread's number of overflowing cycles, and their sum. |
| `HistReport.PrintOutliers` | src/cyclictest/cyclictest.c:1715-1720 | The printed cycle numbers are the first overflowing cycles in order, at most as many as buckets; "others" is exactly the number of those not listed. |
| `HistReport.PrintMaxima` | src/cyclictest/cyclictest.c:1694-1703 | Each printed maximum is the thread's recorded one read as unsigned, and the overall maximum is the largest of them. |
| `HistReport.ExchangeSums` | src/cyclictest/cyclictest.c:1660-1678 | Adding the summary column gives the sum of the threads' totals. |
| `HistReport.TotalAndOverflowsAreCycles` | src/cyclictest/cyclictest.c:1679-1681 | A thread's total plus its overflows is its number of cycles. |
| `Oscope.LinesOfAllCycles` | src/cyclictest/cyclictest.c:1745-1760 | For every interleaving that stays within the buffer the reader has consumed each difference once, in order, and printed one line per full group with its maximum. |
| `Oscope.LoadsItsOwnCycle` | src/cyclictest/cyclictest.c:1746-1747 | For every interleaving at all the reader loads the latest value of its slot, which is that of its own cycle if and only if at most 16384 values were stored since. |
| `Oscope.EachLineIsMaximum` | src/cyclictest/cyclictest.c:1749-1758 | Line g is the maximum of 0 and the g-th group of `oscope_reduction` differences and names the first cycle that reached it. |
| `Oscope.Ring.PrintStat` | src/cyclictest/cyclictest.c:1745-1760 | A call reads all stored values; what has been printed then depends only on the differences, not on earlier calls. |
| `Oscope.Ring.StoreDiff` | src/cyclictest/cyclictest.c:947-961 | Storing a value within the buffer appends it to what is readable. |
| `Oscope.SlotRead` | src/cyclictest/cyclictest.c:1746-1747 | What a slot holds for a given cycle. |
| `CpuMask.CpuForThread` | src/cyclictest/cyclictest.c:1134-1151 | The result is the (thread mod popcount)-th set bit if it lies below `max_cpus`, and 0 otherwise. |
| `CpuMask.BitmaskCount` | src/cyclictest/rt_numa.h:264-273 | The loop counts the set bits. |
| `CpuMask.NthSetIsBijective` | src/cyclictest/cyclictest.c:1141-1148 | Ranks and set bits correspond one to one, in order. |
| `CpuMask.LoadIsEven` | src/cyclictest/cyclictest.c:1139-1150 | Any T consecutive threads put floor or ceiling of T / popcount on each CPU of the mask below `max_cpus` and none on any other; for CPU 0 the same if no other bit lies at or beyond `max_cpus`. |
| `CpuMask.PlacedOnMaskExactlyWhen` | src/cyclictest/cyclictest.c:1142-1150 | Every thread is given its own CPU, the (thread mod popcount)-th set bit, if and only if no set bit other than bit 0 lies at or beyond `max_cpus`; every thread is given some CPU of the mask if and only if bit 0 is set or no set bit lies there. |
| `AlignedStart.AllStartFromOneReading` | src/cyclictest/cyclictest.c:802-832 | In every run the clock is read at most once, and every started thread i starts at that reading + i * offset, or, secaligned, at offset after a second 0.1 s to 1.1 s after it. |
| `AlignedStart.SecondAfterIsClose` | src/cyclictest/cyclictest.c:806-814 | The secaligned base is a full second, at least 0.1 s and less than 1.1 s after the reading. |
| `AlignedStart.StartIsDisplaced` | src/cyclictest/cyclictest.c:817-824 | A thread's start differs from the base by exactly its displacement and is normalised unless the offset is negative. |
| `AlignedStart.SomeThreadCanAct` | src/cyclictest/cyclictest.c:803-816 | The two barriers never leave everybody waiting. |

## Left out

- Protocols as step machines on values: the code of concurrent threads is not written as methods, because a method's
  contract cannot speak of the steps of other threads between its own; aliasing and the layout of the structs are not
  modelled there.
- Error returns of system calls, signals, `have_errors`, `interrupted` and the kill on error: all results are about
  error-free, uninterrupted runs.
- The reporter of pi_stress with `quiet` set, which unlocks `shutdown_mtx` without having locked it
  (src/pi_tests/pi_stress.c:589-597): the non-quiet path is modelled.
- The reporter's exit on a watchdog report: `Watchdog.dfy` proves when it happens, but it sets `have_errors` and main then kills
  all threads, so the protocol model, which is about error-free runs, has no report.
- What the reporter of pi_stress prints; its section of `shutdown_mtx` is there, and nothing depends on the output.
- Scheduling policies and priorities other than in classic_pi; SCHED_DEADLINE; CPU affinity calls.
- Mutex hand-off order and barrier internals of the C library: any order is allowed.
- `RtMigrate.RunsEnd`: readings in `busy_loop` before `run_interval` has passed are not bounded, because the clock is arbitrary.
- `PmqTest.BoundedRunsEnd`: endless runs without a cycle limit or a trace limit hit are possible and intended.
- pmqtest with timeout > 0, where the sender takes a sync message twice (src/pmqtest/pmqtest.c:138-152); the sum for the average.
- Width of machine integers, except for the 64-bit unsigned differences of cyclictest and rt-migrate-test and the comparison
  of the minimum with UINT_MAX in pmqtest: counters, seconds and products are mathematical integers.
- Averages in floating point, the lines of minima and averages in the report, printf formats, option parsing, tracing, NUMA
  allocation, memory locking, fork and shared memory.
- cyclictest's relative timer modes and `sleep` modes that recompute `next` from the clock before each sleep
  (src/cyclictest/cyclictest.c:877-908); the break on the trace limit and the duration.
- The word layout of the CPU mask: a mask is an array of booleans.
- `setkernvar` and `restorekernvars`: the prefix under which the variables were saved changes before they are restored
  (src/cyclictest/cyclictest.c:2182-2193), so no clean statement holds for the whole program.
- pip_stress, svsematest, ptsematest, sigwaittest, signaltest, backfire, sendme, hwlatdetect, tst-mutexpi10 and the libraries:
  smaller programs, wrappers or copies of the code modelled here.
