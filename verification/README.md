# SIL Kit demos and integration-test participants: a Dafny model

The demos and integration tests of SIL Kit contain small distributed programs: handshakes
between a step handler and another thread, a ping-pong benchmark, LIN schedules that run on
virtual time, publishers and subscribers with different periods, remote procedure calls,
a network simulator, a FlexRay node and a command-line parser.  This project models them and
proves what they rely on.

Two forms are used.

* Code that updates an object is a class, or a method with its loop.  Each such method is
  proved equal to a specification function, and the lemmas are about that function.
* Code that runs on several threads or in several participants is a state machine
  (`Enabled`, `Apply`, `Run` over a list of steps): every list of steps is a run, a step that
  is not enabled changes nothing, and a result about `Run` holds in every interleaving.
  Where the protocol ends, runs of enabled steps are bounded (`RunsAreBounded`), and `Progress`,
  `Outcome` or `Totals` say what holds when nothing is left to do.  Where it does not, the length of
  such a run is bounded by the time of each participant (`NobodyStarves`).

What the middleware does for these programs enters as part of the step relations: two
participants are joined by a queue in each direction, the callbacks of one participant run one
at a time, a publisher with history 1 keeps its last message for a late subscriber while its
participant exists, and an asynchronous step handler runs again only after `CompleteSimulationStep`.  The rule by which
virtual time advances is not one of these: `TimeConfiguration.dfy` and `TimeSync.dfy`
model the library's own code for it.

| file | subject |
|---|---|
| `Lockstep.dfy`, `WallClock.dfy` | asynchronous step handler and completer thread |
| `PingPong.dfy`, `Statistics.dfy` | latency benchmark: protocol and evaluation |
| `LinTimer.dfy`, `LinDemo.dfy`, `LinDemoDynamic.dfy`, `LinDynamicResponse.dfy` | one-shot timer and the three schedules built on it |
| `LinSleepWake.dfy`, `LinDynamicCycle.dfy`, `DeferredResponse.dfy` | a LIN master and a slave on one bus |
| `TimeConfiguration.dfy`, `TimeBooks.dfy`, `TimeSync.dfy`, `TimeSyncPace.dfy`, `HopOn.dfy` | virtual time, and joining late |
| `Periods.dfy`, `PeriodicChecks.dfy`, `MessageText.dfy`, `MessageReading.dfy` | periodic publishers and their subscriber |
| `Matching.dfy`, `Rpc.dfy`, `RpcClient.dfy` | reception checks, remote procedure calls |
| `NetSim.dfy`, `Flexray.dfy`, `FlexrayLog.dfy` | simulated network, FlexRay node |
| `Options.dfy`, `OptionValues.dfy` | command line of the benchmark |
| `Arith.dfy`, `Decimal.dfy`, `Numerals.dfy`, `Wrappers.dfy` | shared helpers |

## Where the code does less than it seems to

Each of these is stated with its exact condition.

* `PingPong.ReceiverFinishes`: the sender leaves as soon as it has its own `AllDone`, and with it goes
  its publisher.  The receiver finishes if and only if its `AllDone` subscriber was connected before
  the sender left and the sender's queue was empty then; otherwise it waits for good.
  `PingPong.ReceiverLeftBehind` and `PingPong.AllDoneLost` give, for every message count, a run in which
  it subscribes too late and one in which the message is lost.
* `PingPong.RoundTrips`: `messageCount + 1` is computed in 32 bits.  A count of 2^32 - 1 passes
  the validation, and the sender then measures nothing; every smaller count is measured exactly.
* `WallClock.LastStepIff`: the last step is completed if and only if the completer was past its test of
  `done` and not yet past its wait when the handler set `done`; both cases occur.
* `LinDynamicResponse.CyclicEquivalence`: `SetCyclic(true)` makes the schedule cyclic if and
  only if fewer tasks have been scheduled than there are; after that it has no effect.
* `LinDynamicCycle.EveryCycle`: the go-to-sleep command and the wakeup both advance the schedule, so
  frame 16 is sent in the first round and in no later one.
* `HopOn.OvertakesIff`: a late participant starts at the least time announced by those that have made two steps
  or more.  One that has made a single step is not looked at: if its period is less than that time, the late
  one's first step comes before a step at an earlier time.  `HopOn.MayOvertake` gives such a run for any two
  participants, whatever their periods.
* `Periods.StopExactlyOnce`: the total that triggers `Stop` is computed in 32 bits; with all messages
  counted, `Stop` was requested once exactly when the total lies in 1 to 2^32.
* `Rpc.PrepareServers`: a participant with two or more servers that all expect no call sets the
  same promise twice, which throws.
* `Rpc.AllCountsRight`: the unsynchronised call loop ends with the first client that is done, so the
  final counts hold only if all clients make the same positive number of calls.
* `NetSim.BroadcastCheck`: the final equation holds if and only if the product fits the 32-bit counter and
  every controller had been provided whenever the network handled a request.  `NetSim.SomeMissed`: with two
  controllers or more nothing in the test's own code gives this order; service discovery and the coordinated
  start, which are not part of this model, have to.
* `Flexray.SwapLoopEnds`: the loop over the transmit buffers has a 16-bit counter and never ends for
  65536 or more buffers.
* `Flexray.BuffersUsedEvenly`: the index of the buffer to send is cut to 16 bits, so the buffers take turns if
  and only if there are at most 65536; `Flexray.UnevenHistory` gives, for every longer list, a history in
  which buffer 0 is used twice, or more often, and buffer 65536 never.
* `Options.SevenAreIgnored`: seven positional arguments are accepted and all of them ignored, although the
  usage text has six.

## Model

| member | source | states |
|---|---|---|
| Lockstep.Safety | SilKit/IntegrationTests/ITest_AsyncSimTask.cpp:71-126 | in every interleaving the number of active tasks is 0 or 1, the completer never sees a mismatch, the handler never sleeps on its even-counter wait, and calls and completions alternate |
| Lockstep.Reachable | SilKit/IntegrationTests/ITest_AsyncSimTask.cpp:71-126 | the inductive invariant behind it: who holds the mutex, and that the counter is the sum of both sides' increments |
| Lockstep.Progress | SilKit/IntegrationTests/ITest_AsyncSimTask.cpp:85-125 | nothing but a spurious wake-up is enabled exactly when the run is finished: K+1 calls, K completions, both threads gone, the mutex free; so no notification is missed, whoever sees the final time first |
| Lockstep.RunsAreBounded | SilKit/IntegrationTests/ITest_AsyncSimTask.cpp:85-125 | a run has at most 32K+37 steps plus three for each spurious wake-up |
| WallClock.OneCompletionPerCall | SilKit/IntegrationTests/FTest_WallClockCoupling.cpp:133-187 | completions never exceed handler calls and lag by at most one |
| WallClock.Progress | SilKit/IntegrationTests/FTest_WallClockCoupling.cpp:133-210 | stuck exactly when finished: K+1 calls, K or K+1 completions, and the completer joined |
| WallClock.RunsAreBounded | SilKit/IntegrationTests/FTest_WallClockCoupling.cpp:133-210 | a bound on the length of every run |
| WallClock.LastStepIff | SilKit/IntegrationTests/FTest_WallClockCoupling.cpp:142-187 | for every finished run, the last step was completed if and only if the completer was past its test of `done` and before the end of its wait when the handler set `done` |
| WallClock.DoneWasSet | SilKit/IntegrationTests/FTest_WallClockCoupling.cpp:142-146 | every run in which `done` is set contains that move of the handler |
| WallClock.LastStepSkipped | SilKit/IntegrationTests/FTest_WallClockCoupling.cpp:142-187 | the one side occurs: for every K some run leaves the last step uncompleted |
| WallClock.LastStepCompleted | SilKit/IntegrationTests/FTest_WallClockCoupling.cpp:142-187 | the other side occurs: for every K some run completes it |
| PingPong.OneMessageInFlight | Demos/Benchmark/LatencyDemo.cpp:316-356 | at most one measurement message is undelivered; what a late subscriber has not seen is the one message kept as history; every promise is set at most once |
| PingPong.SynchronisedShutdown | Demos/Benchmark/LatencyDemo.cpp:321-348 | the receiver is released only when the sender has finished measuring and the trailing ping has arrived and been ignored; nothing is under way when it leaves |
| PingPong.Progress | Demos/Benchmark/LatencyDemo.cpp:351-390 | the states in which nothing can move are exactly two: both finished, or the sender gone and the receiver waiting for `AllDone`; in both, the measurement is complete |
| PingPong.ReceiverFinishes | Demos/Benchmark/LatencyDemo.cpp:364-390 | the receiver finishes if and only if its subscriber was connected, and nothing under way was still queued, when the sender's participant was destroyed; else it is left behind |
| PingPong.ExitReleases | SilKit/source/core/vasio/VAsioPeer.cpp:71-82 | what the destruction of the sender does: the message arrives if and only if it had left the sending queue |
| PingPong.SenderLeft | SilKit/source/core/vasio/VAsioConnection.cpp:283-321 | every stuck run contains the step by which the sender left |
| PingPong.ReceiverLeftBehind | Demos/Benchmark/LatencyDemo.cpp:368-382 | for every message count, a run in which the receiver subscribes too late |
| PingPong.AllDoneLost | SilKit/source/core/vasio/VAsioPeer.cpp:71-82 | for every message count, a run in which the receiver is connected and the message is lost in the queue |
| PingPong.BothFinish | Demos/Benchmark/LatencyDemo.cpp:364-390 | for every message count, a run in which both finish |
| PingPong.RunsAreBounded | Demos/Benchmark/LatencyDemo.cpp:316-382 | every run ends |
| PingPong.CallbacksCount | Demos/Benchmark/LatencyDemo.cpp:336-347 | a counted callback never wraps the 32-bit counter |
| PingPong.RoundTrips | Demos/Benchmark/LatencyDemo.cpp:211-225 | in every stuck run with a validated count N: N round trips, N+2 pings and N+1 pongs exactly if N < 2^32-1; at 2^32-1 there is no round trip |
| Statistics.MeanAndVariance | Demos/Benchmark/LatencyDemo.cpp:256-271 | the two folds give the mean and the sample variance, by the moment identity n(n-1)v = n*sum(x^2) - (sum x)^2; a single value has variance 0 |
| Statistics.DeviationExpands | Demos/Benchmark/LatencyDemo.cpp:266-268 | the sum of squared deviations from any m, in terms of the two power sums |
| LinTimer.Timer.Set | Demos/Lin/LinDemo.cpp:49-54 | the timer is armed with that time and action, whatever it held |
| LinTimer.Timer.Clear | Demos/Lin/LinDemo.cpp:55-60 | the timer is inactive and holds no action |
| LinTimer.Timer.ExecuteAction | Demos/Lin/LinDemo.cpp:61-73 | fires exactly if active and due, and is already cleared when the action runs |
| LinDemo.Schedule.ScheduleNextTask | Demos/Lin/LinDemo.cpp:111-120 | the next task in the cycle is armed relative to the current time |
| LinDemo.Schedule.ExecuteTask | Demos/Lin/LinDemo.cpp:101-109 | a due task runs and the following one is armed |
| LinDemo.Waiting | Demos/Lin/LinDemo.cpp:95-120 | after any steps, the timer holds the next task in cyclic order, relative to the last execution |
| LinDemo.NeverEarly | Demos/Lin/LinDemo.cpp:61-120 | for any step times, the k-th execution is not before the cyclic prefix sum of the delays, and runs task k mod n |
| LinDemo.Periodic | Demos/Lin/LinDemo.cpp:61-120 | with steps 0, h, 2h, ... the log is the closed-form plan |
| LinDemo.ExecutionTimes | Demos/Lin/LinDemo.cpp:61-120 | execution k happens at t(k) with t(0) = h*ceil(d0/h), t(k+1) = t(k) + h*max(1, ceil(d/h)), and in no other step |
| LinDemo.ExactTimes | Demos/Lin/LinDemo.cpp:61-120 | if every delay is a positive multiple of h, execution k is exactly at the cyclic prefix sum |
| LinDemoDynamic.AckSchedule.ScheduleNextTask | Demos/Lin/LinDemoDynamic.cpp:98-107 | arms the next task, replacing whatever was armed |
| LinDemoDynamic.AckSchedule.ExecuteTask | Demos/Lin/LinDemoDynamic.cpp:109-113 | a due task runs and nothing is armed in its place |
| LinDemoDynamic.LastArmed | Demos/Lin/LinDemoDynamic.cpp:92-113 | after any mix of steps, acknowledgements and wakeups the last armed index is (calls - 1) mod n |
| LinDemoDynamic.Log | Demos/Lin/LinDemoDynamic.cpp:50-113 | the log holds exactly the instances whose deadline was served, in order, each with its own serving time |
| LinDemoDynamic.RunsIffServed | Demos/Lin/LinDemoDynamic.cpp:178-226 | a task instance runs if and only if a step served its deadline before the next scheduling call |
| LinDemoDynamic.BackToBackSkips | Demos/Lin/LinDemoDynamic.cpp:199-226 | two scheduling calls with no step between them skip the first one's task |
| LinDynamicCycle.EveryCycle | Demos/Lin/LinDemoDynamic.cpp:178-317 | master, slave and bus together, in every run: frames 16, 17, 18, 19, 34 and the command, then over and over 17, 18, 19, 34 and the command; the time between two tasks is 5 ms, 5 to 6 ms after frame 34, 9 to 11 ms after the command, and no task is overdue |
| LinDynamicCycle.CycleLength | Demos/Lin/LinDemoDynamic.cpp:178-317 | five tasks and 29 to 32 ms from one go-to-sleep command to the next |
| LinDynamicCycle.NothingLost | Demos/Lin/LinDemoDynamic.cpp:178-317 | in every run: one header and one answer for each frame 34, one sleep and one wakeup pulse for each command, up to the one that is still under way |
| LinDynamicCycle.Reachable | Demos/Lin/LinDemoDynamic.cpp:178-317 | the invariant: the phases of the exchange, and what is armed in each |
| LinDynamicCycle.TimeAdvances | Demos/Lin/LinDemoDynamic.cpp:428-436 | every run can be continued until the master has made its next step |
| LinDynamicCycle.NobodyStarves | Demos/Lin/LinDemoDynamic.cpp:178-317 | no run can go on without time: its length is at most 6t + 3, for the master's and for the slave's next step t |
| LinDynamicResponse.Schedule.SetCyclic | SilKit/IntegrationTests/ITest_LinDynamicResponse.cpp:100-103 | changes the flag and nothing else |
| LinDynamicResponse.Schedule.ScheduleNextTask | SilKit/IntegrationTests/ITest_LinDynamicResponse.cpp:105-117 | arms the next task, or does nothing at the end of the list |
| LinDynamicResponse.Schedule.ExecuteTask | SilKit/IntegrationTests/ITest_LinDynamicResponse.cpp:119-123 | a due task runs |
| LinDynamicResponse.OneRound | SilKit/IntegrationTests/ITest_LinDynamicResponse.cpp:94-123 | without the flag each task runs at most once, in list order, and the index stops at the end |
| LinDynamicResponse.TooLate | SilKit/IntegrationTests/ITest_LinDynamicResponse.cpp:100-117 | once the index is at the end it stays there however the flag is set; the log is unchanged, or grows by exactly the task that was armed, at or after its time |
| LinDynamicResponse.CyclicEquivalence | SilKit/IntegrationTests/ITest_LinDynamicResponse.cpp:94-123 | after setting the flag the same tasks run at the same times as in the always-cyclic schedule, for all later events, if and only if fewer than n tasks had been scheduled; the states are then equal, too |
| LinDynamicResponse.Differs | SilKit/IntegrationTests/ITest_LinDynamicResponse.cpp:105-117 | otherwise some later events make the two run different tasks |
| DeferredResponse.Alternation | SilKit/IntegrationTests/ITest_LinDynamicResponse.cpp:687-761 | headers and responses alternate, response i is exactly 2 ms after header i and is there exactly when the slave has made that step, and Stop is requested exactly once at the bound |
| DeferredResponse.Reachable | SilKit/IntegrationTests/ITest_LinDynamicResponse.cpp:687-761 | the invariant behind it: an unanswered header is under way or held by the slave; the reset-to-zero stamp cannot fire again |
| DeferredResponse.TimeAdvances | SilKit/IntegrationTests/ITest_LinDynamicResponse.cpp:700-761 | every run can be continued until the master has made its next step |
| DeferredResponse.NobodyStarves | SilKit/IntegrationTests/ITest_LinDynamicResponse.cpp:700-761 | no run can go on without time: its length is at most 4t + 2, for the master's and for the slave's next step t |
| DeferredResponse.AnsweredIffInTime | SilKit/IntegrationTests/ITest_LinDynamicResponse.cpp:741-760 | a delivered header stamped h is answered, once and at h + 2 ms, if and only if it arrives before the slave's step at that time; the model's delivery rule provides this |
| LinSleepWake.EveryCycle | Demos/Lin/LinDemo.cpp:235-331 | in every cycle after the first exactly frame 16 is suppressed and 17, 18, 19 and 34 are sent, all on the cyclic timetable; the slave's timer is armed exactly while it sleeps |
| LinSleepWake.SleepIsShort | Demos/Lin/LinDemo.cpp:235-331 | the master sleeps for at most 16 ms after its go-to-sleep command |
| LinSleepWake.Reachable | Demos/Lin/LinDemo.cpp:140-151 | the invariant: the four phases of the sleep/wake exchange, and the timetable |
| LinSleepWake.TimeAdvances | Demos/Lin/LinDemo.cpp:235-331 | every run can be continued until the master has made its next step |
| LinSleepWake.NobodyStarves | Demos/Lin/LinDemo.cpp:235-331 | no run can go on without time: its length is at most 4t + 2, for the master's and for the slave's next step t |
| LinSleepWake.TimetableIsCyclicSum | Demos/Lin/LinDemo.cpp:140-151 | the 70 ms timetable is the cyclic prefix sum of the delays |
| TimeConfiguration.Configuration.AddSynchronizedParticipant | SilKit/source/services/orchestration/TimeConfiguration.cpp:44-57 | a new participant is known with the unset time point, a known one is kept |
| TimeConfiguration.Configuration.OnReceiveNextSimStep | SilKit/source/services/orchestration/TimeConfiguration.cpp:81-104 | the announced step replaces the known one |
| TimeConfiguration.Configuration.SetStepDuration | SilKit/source/services/orchestration/TimeConfiguration.cpp:120-124 | the duration of the next step is replaced, its time point kept |
| TimeConfiguration.Configuration.AdvanceTimeStep | SilKit/source/services/orchestration/TimeConfiguration.cpp:126-131 | the next step becomes the current one, and the next moves on by the step duration |
| TimeConfiguration.Configuration.OtherParticipantHasLowerTimepoint | SilKit/source/services/orchestration/TimeConfiguration.cpp:145-159 | true exactly if some other participant has announced a lower time point |
| TimeConfiguration.Configuration.HandleHopOn | SilKit/source/services/orchestration/TimeConfiguration.cpp:175-206 | the loop decides the hop-on test and finds the least time point; what that means on steps and periods is `HopOn.LateStart` |
| TimeBooks.Books | SilKit/source/services/orchestration/TimeConfiguration.cpp:44-131 | after any calls: exactly the added participants are known, each with its last announcement since it was added; the next step is at the sum of the durations of the steps made |
| HopOn.LateStart | SilKit/source/services/orchestration/TimeConfiguration.cpp:175-206 | a participant that has not made a step, whose peers j have announced k(j) steps of period p(j), hops on if and only if some k(j) is at least 2, and then starts at the least k(j)*p(j) of those; otherwise at its own time |
| HopOn.HopsOnOnce | SilKit/source/services/orchestration/TimeConfiguration.cpp:177-183 | never a second time, and never after the first step |
| HopOn.FirstStep | SilKit/source/services/orchestration/TimeSyncService.cpp:255-274 | the hop-on test and the advance together: when the first step is, and that the next one is a duration later |
| HopOn.LateInNetwork | SilKit/source/services/orchestration/TimeSyncService.cpp:348-364 | the same for a participant that joins any run of the network, whatever it has heard of each of the others |
| HopOn.NeverInThePast | SilKit/source/services/orchestration/TimeSyncService.cpp:355-364 | one that has heard everybody never makes its first step before a step that somebody has already made |
| HopOn.OvertakesIff | SilKit/source/services/orchestration/TimeConfiguration.cpp:185-199 | its first step is after a step that somebody is still to make if and only if it hops on and someone has made exactly one step, of a period less than its start |
| HopOn.MayOvertake | SilKit/source/services/orchestration/TimeConfiguration.cpp:185-199 | for any two participants and any periods there is a run in which this happens |
| TimeSync.Reachable | SilKit/source/services/orchestration/TimeSyncService.cpp:112-219 | the invariant of the whole network: reading any channel leads from what the receiver knows to what the sender announced, in steps of its period |
| TimeSync.StepEffect | SilKit/source/services/orchestration/TimeSyncService.cpp:255-274 | everything one step of one participant changes: its times, at most one message, one announcement on each channel |
| TimeSync.Window | SilKit/IntegrationTests/ITest_DifferentPeriods.cpp:180-212 | with the invariant, the next message lies between the subscriber's current step and one period later |
| TimeSync.EveryMessageInWindow | SilKit/IntegrationTests/ITest_DeterministicSimVAsio.cpp:195-208 | for any number of publishers and any periods, every message delivered satisfies the assertions of both tests; with equal periods its stamp is the current tick or the next |
| TimeSync.NothingFails | SilKit/IntegrationTests/ITest_DifferentPeriods.cpp:83-91 | no assertion fails and nobody hops on, in any run; publisher i has sent min(steps, N) messages |
| TimeSync.Chronology | SilKit/source/services/orchestration/TimeSyncService.cpp:181-219 | announcements arrive in increasing order, and no participant runs more than a period ahead of another |
| TimeSync.StopOnce | SilKit/IntegrationTests/ITest_DifferentPeriods.cpp:213-221 | with all messages received, Stop was requested once exactly if their number lies in 1 to 2^32; while some are missing and the total is at most 2^32, never |
| TimeSync.Progress | SilKit/source/services/orchestration/TimeSyncService.cpp:112-173 | although a participant looks at the others only on an announcement or after its own request, no trigger is missed: there is always one that starts, receives, or looks and then steps |
| TimeSyncPace.RunIsPaid | SilKit/source/services/orchestration/TimeSyncService.cpp:112-219 | in a run of n participants there are at most 4n + 2 events for each start and each step, in any order of starts, steps, deliveries and looks |
| TimeSyncPace.NobodyStarves | SilKit/source/services/orchestration/TimeSyncService.cpp:181-274 | the length of a run is bounded by n(4n + 2)(t + 2), where t is the next time of any one participant: as a run goes on, the time of every participant grows without bound |
| TimeSync.EveryMessageReadBack | SilKit/IntegrationTests/ITest_DifferentPeriods.cpp:109-118 | what a publisher prints in any run is what the subscriber reads |
| Periods.Publisher.SimulationStep | SilKit/IntegrationTests/ITest_DifferentPeriods.cpp:83-91 | publishes the next index with the current time while messages are left; a time off the period is a failure and publishes nothing |
| Periods.Subscriber.SimulationStep | SilKit/IntegrationTests/ITest_DifferentPeriods.cpp:163-167 | notes the time; a time off the period is a failure |
| Periods.Subscriber.ReceiveMessage | SilKit/IntegrationTests/ITest_DifferentPeriods.cpp:180-221 | the whole effect of one message: window, period and index assertions, the counter, the stop |
| PeriodicChecks.PublishedIs | SilKit/IntegrationTests/ITest_DifferentPeriods.cpp:83-91 | for any step times: the messages are the first N steps on the period, numbered from 0, and every step off the period is a failure |
| PeriodicChecks.FailuresAreViolations | SilKit/IntegrationTests/ITest_DifferentPeriods.cpp:163-212 | for any steps and messages: the failures are exactly the steps off the period and the messages out of their window, place or period, and these are not counted |
| Periods.Subscriber.SumOfIndexes | SilKit/IntegrationTests/ITest_DifferentPeriods.cpp:213-221 | the loop computes the sum modulo 2^32 |
| Periods.StopsAreHits | SilKit/IntegrationTests/ITest_DifferentPeriods.cpp:213-221 | the number of stop requests depends only on how many messages were counted |
| Periods.HitsClosedForm | SilKit/IntegrationTests/ITest_DifferentPeriods.cpp:213-221 | how often a counter running in 32 bits meets its goal |
| Periods.StopExactlyOnce | SilKit/IntegrationTests/ITest_DeterministicSimVAsio.cpp:212-217 | exactly once if and only if the goal lies in 1 to 2^32 |
| Periods.NoEarlyStop | SilKit/IntegrationTests/ITest_DeterministicSimVAsio.cpp:212-217 | not before the goal |
| MessageText.RoundTrip | SilKit/IntegrationTests/ITest_DifferentPeriods.cpp:51-63 | the word `TestMessage`, every 64-bit time stamp, negative ones too, and every 32-bit index printed by a publisher is read back unchanged |
| MessageText.PrintIsInjective | SilKit/IntegrationTests/ITest_DifferentPeriods.cpp:109-118 | different messages have different texts |
| MessageReading.ParseIff | SilKit/IntegrationTests/ITest_DifferentPeriods.cpp:180-199 | a text is read as a message if and only if it spells it: a word, a number in 64 bits, a number in 32 bits, with white space, signs and leading zeros as the stream allows |
| Matching.Subscriber.OnDataReception | SilKit/IntegrationTests/ITest_Internals_DataPubSub.hpp:140-169 | the whole effect of one reception: comparison or find-and-erase, counter, flag |
| Matching.ErasedOnce | SilKit/IntegrationTests/ITest_Internals_DataPubSub.hpp:152-160 | find-and-erase takes exactly one occurrence off, whatever the position |
| Matching.Subtraction | SilKit/IntegrationTests/ITest_Internals_DataPubSub.hpp:140-169 | after any arrivals the list is the multiset difference, and the failures are those that were not expected |
| Matching.MatchingIsSubtraction | SilKit/IntegrationTests/ITest_Internals_Rpc.hpp:230-257 | all checks succeed if and only if the counted arrivals are a sub-multiset of the expected list; with as many expected as required, finishing leaves the list empty |
| Matching.OrderDoesNotMatter | SilKit/IntegrationTests/ITest_Internals_DataPubSub.hpp:140-169 | the same arrivals in another order give the same failures and the same rest |
| Matching.IncreasingCheck | SilKit/IntegrationTests/ITest_Internals_DataPubSub.hpp:140-169 | with increasing data: the failures are the counted arrivals that are not the right number of bytes, each the low byte of the arrival's index |
| Rpc.IncrementInPlace | SilKit/IntegrationTests/ITest_Internals_Rpc.hpp:449-455 | the reply adds 100 to each byte modulo 256 |
| Rpc.ReplyIsExpected | SilKit/IntegrationTests/ITest_Internals_Rpc.hpp:137-143 | the reply to call k is what the client expects for return k, past byte and counter wrap-around |
| Rpc.ClientState.Call | SilKit/IntegrationTests/ITest_Internals_Rpc.hpp:114-135 | what is sent, and the counter and flag after it; nothing once all calls are made |
| Rpc.ClientState.OnCallReturned | SilKit/IntegrationTests/ITest_Internals_Rpc.hpp:137-162 | the whole effect of one returned call |
| Rpc.ClientState.OnCallTimeout | SilKit/IntegrationTests/ITest_Internals_Rpc.hpp:164-172 | the whole effect of one timeout |
| RpcClient.CallsSent | SilKit/IntegrationTests/ITest_Internals_Rpc.hpp:114-135 | over any number of `Call`s: exactly max(1, numCalls) are sent, and every byte of call i is the low byte of i |
| RpcClient.EventsCounted | SilKit/IntegrationTests/ITest_Internals_Rpc.hpp:153-172 | over any returns and timeouts: the two counters are their numbers modulo 2^32, and the flag is set exactly when some number of events so far was enough in 32-bit arithmetic |
| RpcClient.AllBackIff | SilKit/IntegrationTests/ITest_Internals_Rpc.hpp:153-172 | below the wrap-around: all calls are back if and only if there was an event, and there were as many as returns and timeouts expected |
| RpcClient.ReturnsSubtract | SilKit/IntegrationTests/ITest_Internals_Rpc.hpp:145-151 | unordered: what is left is the multiset difference, and the failures are what was not expected |
| RpcClient.WrongCounted | SilKit/IntegrationTests/ITest_Internals_Rpc.hpp:139-144 | increasing: the failures are the returns k that are not the right number of bytes, each the low byte of k + 100 |
| Rpc.CallLoop | SilKit/IntegrationTests/ITest_Internals_Rpc.hpp:495-507 | every client has made as many calls as the client with the fewest to make |
| Rpc.AllCountsRight | SilKit/IntegrationTests/ITest_Internals_Rpc.hpp:520-525 | so the final call counts are right if and only if all clients were to make the same positive number |
| Rpc.PrepareServers | SilKit/IntegrationTests/ITest_Internals_Rpc.hpp:308-316 | preparing throws exactly if two or more servers all expect no call |
| Rpc.Safety | SilKit/IntegrationTests/ITest_Internals_Rpc.hpp:318-349 | in every reachable state no data expectation has failed, every promise was set at most once, and returned <= delivered <= handled <= sent |
| Rpc.Reachable | SilKit/IntegrationTests/ITest_Internals_Rpc.hpp:417-473 | the invariant: what the two channels hold, and every counter and flag as a function of the events so far |
| Rpc.Outcome | SilKit/IntegrationTests/ITest_Internals_Rpc.hpp:493-529 | at quiescence all calls were sent, handled and returned; for a positive expected number of receptions the run passes if and only if both expected counts lie between 1 and the number of calls |
| Rpc.OutcomeWithoutCalls | SilKit/IntegrationTests/ITest_Internals_Rpc.hpp:508-529 | with a server that expects no call, the run passes if and only if moreover no call had been handled when the server's thread checked its counter |
| Rpc.IdleServer | SilKit/IntegrationTests/ITest_Internals_Rpc.hpp:526-529 | that check succeeds exactly in this case |
| Rpc.EndToEnd | SilKit/IntegrationTests/ITest_Internals_Rpc.hpp:520-529 | with equal counts n >= 1 everything passes and calls = received = returned = n |
| Rpc.RunsAreBounded | SilKit/IntegrationTests/ITest_Internals_Rpc.hpp:493-518 | every run ends |
| NetSim.SendCanFrames | SilKit/IntegrationTests/ITest_NetSimCan.cpp:23-41 | the loop sends the frames of the step and counts them modulo 2^32 |
| NetSim.SimulatedNetwork.ProvideSimulatedController | SilKit/IntegrationTests/ITest_NetSimCan.cpp:85-102 | the descriptor is appended and the call counted |
| NetSim.SimulatedNetwork.OnRequest | SilKit/IntegrationTests/ITest_NetSimCan.cpp:127-150 | which events each controller gets, in which order: the answer for the sender, the broadcast for every provided controller |
| NetSim.BroadcastReceived | SilKit/IntegrationTests/ITest_NetSimFlexRay.cpp:222-249 | the same for the wakeup broadcast, controller by controller |
| NetSim.Totals | SilKit/IntegrationTests/ITest_NetSimCan.cpp:250-273 | at quiescence, for every n and every interleaving: each participant has made all steps up to the one in which the simulation is stopped, each controller has all its answers, n*quota requests, and n*n*quota broadcast deliveries less those missed by controllers provided too late |
| NetSim.BroadcastCheck | SilKit/IntegrationTests/ITest_NetSimFlexRay.cpp:376-390 | the final equation on a broadcast counter holds if and only if the product is below 2^32 and every controller had been provided whenever a request was handled |
| NetSim.SomeMissed | SilKit/IntegrationTests/ITest_NetSimCan.cpp:85-102 | in the model, where provisions and requests come in any order, some run that has come to rest misses a broadcast if and only if there are two controllers or more and each has something to send |
| NetSim.Complete | SilKit/IntegrationTests/ITest_NetSim.hpp:340-360 | every run can be continued until nothing can move |
| NetSim.AnswerCheck | SilKit/IntegrationTests/ITest_NetSimCan.cpp:261-272 | the same for requests and answers |
| NetSim.BeforeIsQuota | SilKit/IntegrationTests/ITest_NetSimCan.cpp:33-40 | the step handlers together send frames times steps requests, or one wakeup |
| NetSim.ProvidedFirst | SilKit/IntegrationTests/ITest_NetSimCan.cpp:85-102 | nobody misses a broadcast if and only if all controllers have been provided whenever a request is handled |
| NetSim.RunsAreBounded | SilKit/IntegrationTests/ITest_NetSim.hpp:340-360 | every run ends |
| Flexray.FlexrayNode.Init | Demos/Flexray/FlexrayDemo.cpp:69-76 | configures the controller unless that was done |
| Flexray.FlexrayNode.DoAction | Demos/Flexray/FlexrayDemo.cpp:78-150 | the commands and the new state of one simulation step, for every controller state; what they come to over a history is in `FlexrayLog` |
| Flexray.FlexrayNode.ReconfigureTxBuffers | Demos/Flexray/FlexrayDemo.cpp:153-173 | the loop swaps channels A and B everywhere and announces exactly the buffers that changed, in order |
| Flexray.FlexrayNode.PocStatusHandler | Demos/Flexray/FlexrayDemo.cpp:175-188 | remembers the state, and a Wakeup-to-Ready transition |
| Flexray.FlexrayNode.WakeupHandler | Demos/Flexray/FlexrayDemo.cpp:190-195 | allows the cold start and runs, in any state |
| Flexray.StepStartsBus | Demos/Flexray/FlexrayDemo.cpp:78-122 | after every history, a step starts the bus if and only if a Wakeup-to-Ready transition was reported and the state is configurable; before that it asks for a wakeup instead |
| Flexray.RunFollowsColdstart | Demos/Flexray/FlexrayDemo.cpp:115-118 | in the log of every history, each run command directly follows a cold-start permission |
| FlexrayLog.CommandsCounted | Demos/Flexray/FlexrayDemo.cpp:78-122 | after every history: the starts of the bus and the cold-start permissions are as many as the wakeup events and the configurable steps after the Wakeup-to-Ready transition, and the wakeup requests as many as those before it |
| FlexrayLog.ConfigureThenStart | Demos/Flexray/FlexrayDemo.cpp:83-86 | in the log of every history the configuration is directly followed by the wakeup request or the cold-start permission |
| Flexray.ConfiguredOnce | Demos/Flexray/FlexrayDemo.cpp:69-86 | the controller is configured at most once, and has been exactly if a step after the delay found the initial state |
| Flexray.BusFollowsStatuses | Demos/Flexray/FlexrayDemo.cpp:175-188 | the bus state is a function of the reported states |
| FlexrayLog.MessagesNumbered | Demos/Flexray/FlexrayDemo.cpp:124-150 | the messages in the log are numbered from 0, one for every sending step of the history, and message m goes to buffer m modulo the number of buffers, cut to 16 bits |
| Flexray.BuffersUsedEvenly | Demos/Flexray/FlexrayDemo.cpp:124-150 | after every history the use counts of any two buffers differ by at most one, the earlier buffer leading, if and only if there are at most 65536 buffers |
| Flexray.UnevenHistory | Demos/Flexray/FlexrayDemo.cpp:147-147 | for every longer list a history that fails, with increasing step times and no swap: buffer 0 is used at least twice and buffer 65536 never |
| Flexray.IndicesInRange | Demos/Flexray/FlexrayDemo.cpp:132-149 | every buffer index in the log is below the number of buffers |
| Flexray.SwapsAB | Demos/Flexray/FlexrayDemo.cpp:153-173 | a buffer is on B afterwards exactly if it was on A, on A exactly if it was on B, and otherwise unchanged |
| Flexray.AnnouncesChanges | Demos/Flexray/FlexrayDemo.cpp:159-166 | announced are exactly the buffers on A, with B, and those on B, with A, each once and in increasing order |
| Flexray.SwapTwice | Demos/Flexray/FlexrayDemo.cpp:153-173 | the channel swap is its own inverse |
| Flexray.SwapLoopEnds | Demos/Flexray/FlexrayDemo.cpp:156-156 | the loop's 16-bit counter reaches the end of the list if and only if there are fewer than 65536 buffers |
| Flexray.SwappedAtMostOnce | Demos/Flexray/FlexrayDemo.cpp:88-96 | with increasing step times the channels are swapped once if an active step falls 100 ms after the whole milliseconds of the delay, and otherwise never; this is about steps that return, which the swap does for fewer than 65536 buffers |
| Options.Parse | Demos/Benchmark/BenchmarkDemo.cpp:91-225 | the parser's steps compute `ParseOf`: status and configuration, also when it gives up half-way |
| Options.ParseIsReference | Demos/Benchmark/BenchmarkDemo.cpp:100-225 | for distinct options and arguments that are not option names, the outcome is a function of the option values and the positional list alone |
| Options.OrderDoesNotMatter | Demos/Benchmark/BenchmarkDemo.cpp:117-164 | every rearrangement that keeps the order of the positional arguments has the same outcome and configuration |
| Options.ParsedConfiguration | Demos/Benchmark/BenchmarkDemo.cpp:157-222 | exactly which calls succeed and which throw, and each field afterwards: the positional argument if there is one (when at most six), else the non-empty option value, else the default |
| Options.NumberOfShown | Demos/Benchmark/BenchmarkDemo.cpp:97-97 | a printed number is read modulo 2^32, and is rejected from 2^64 on |
| OptionValues.NumberRead | Demos/Benchmark/BenchmarkDemo.cpp:97-97 | white space, a sign, leading zeros, a printed n and a rest that does not go on with digits: the value is n, or 2^64 - n after a minus sign, modulo 2^32; none from 2^64 on |
| OptionValues.NumberIff | Demos/Benchmark/BenchmarkDemo.cpp:97-97 | for every text: the conversion succeeds if and only if the text spells a number below 2^64 in this way |
| OptionValues.NoDigitNoNumber | Demos/Benchmark/BenchmarkDemo.cpp:97-97 | a text without a digit after its white space and sign is refused |
| OptionValues.NumericOptions | Demos/Benchmark/BenchmarkDemo.cpp:157-162 | each numeric option, by its name on the command line, sets its own field to the number and nothing else |
| OptionValues.TextOptions | Demos/Benchmark/BenchmarkDemo.cpp:157-164 | the same for the three options that take a text |
| OptionValues.RefusedOptions | Demos/Benchmark/BenchmarkDemo.cpp:140-155 | a numeric option whose value spells no number below 2^64 throws |
| OptionValues.ThrewAt | Demos/Benchmark/BenchmarkDemo.cpp:140-164 | a call that throws has set exactly the options that are looked for before the offending one |
| OptionValues.PositionRefused | Demos/Benchmark/BenchmarkDemo.cpp:184-222 | a call that is rejected for a positional argument has set the options and the arguments behind the refused one, and no others |
| OptionValues.HelpIsRejected | Demos/Benchmark/BenchmarkDemo.cpp:112-116 | `--help` anywhere is rejected, with the configuration untouched |
| Options.SevenAreIgnored | Demos/Benchmark/BenchmarkDemo.cpp:176-216 | seven positional arguments are accepted like none; more never succeed |
| Options.NoDashLeft | Demos/Benchmark/BenchmarkDemo.cpp:166-182 | success means no help flag, no option name left over, at most seven arguments left, and two arguments fewer at least if an option was given |
| Options.GetOf | Demos/Benchmark/BenchmarkDemo.cpp:121-138 | find-and-erase on the argument list is lookup and removal on the options |

## Left out

- The RPC participants' synchronous mode, servers that do not reply, timeouts and unordered expectations in a whole run: the counters are modelled in `Rpc.ClientState` and `Matching`, the protocol with one client and one replying server.
- The publishers of the publish/subscribe tests: `DataPublisherInfo::Publish` counts like `Rpc.ClientState.Call`.
- Service discovery and its promises: counters of the same kind.
- NetSim.Totals: covers the CAN frame requests and the FlexRay wakeup; the frames that the network simulator produces by itself, controller modes, baud rates, the networks without a simulator, Ethernet and LIN are not modelled.
- The size_t product in the final equations of the network-simulation tests is unbounded here.
- Flexray.FlexrayNode.DoAction: `msgNumber` is unbounded, while the original's `int` overflows after 2^31 messages; the text of the payload is left out.
- Flexray.FlexrayNode.ReconfigureTxBuffers: requires fewer than 65536 buffers, because the loop does not end otherwise (`Flexray.SwapLoopEnds`).
- Flexray.SwappedAtMostOnce, Flexray.BuffersUsedEvenly: about histories of steps that return; with 65536 or more buffers the swap would be the last step.
- Options.Parse: usage and error texts are left out; `unsigned long` has 64 bits; `Validate`, CSV output and the benchmark run itself are not modelled.
- MessageText.RoundTrip: locale-dependent digit grouping is not modelled; what the subscriber does with a text it cannot read is left out.
- TimeSync.Progress: Stop is counted but does not halt the participants; pausing, aborting, leaving participants, wall-clock coupling and error states of the lifecycle are not modelled.
- Times in nanoseconds are unbounded integers; 64-bit overflow of a time point is not modelled.
- Statistics.MeanAndVariance: computes over the reals; rounding, and the square root that turns the variance into the error, are left out. It requires a value, because without one the original divides zero by zero.
- PingPong: bytes that have reached the receiver's socket are assumed to be read there; measured durations, throughput, printing and command-line parsing are left out.
- Lockstep, WallClock: what other participants do, and real time, are left out; a step is requested again at once after its completion.
- LIN frame status classification, checksums and response tables: the code that decides them is in the library.
- LinSleepWake.EveryCycle, LinDynamicCycle.EveryCycle, DeferredResponse.Alternation: assume the delivery order that `TimeSync` proves for announcements and messages, namely that a participant has received all that its peer sent before announcing the step.
- LinDynamicCycle.EveryCycle: the frames themselves, which the slave only prints, and the `--async` mode are left out.
- HopOn.NeverInThePast, HopOn.OvertakesIff: about a late participant that has heard the last announcement of everyone; the discovery and the repeated announcements that bring this about are not modelled, nor is the run after its first step.
- Abort, hop-off, participant-mode, multi-simulation, dashboard and registry tests: their results are decided by lifecycle and transport code.
