# Verified model of the dsme device state daemon

dsme watches over a phone: it decides whether the device is in user, act-dead, shutdown or reboot state, wakes
registered clients in groups to save power, judges thermal sensors, accounts for power-on time, keeps the boot
loader's lock flag and logs all of that from a separate thread. This project models the parts of it that carry a
protocol, a schedule or arithmetic, and proves what they promise.

| part | files | what is proved |
|---|---|---|
| iphb wakeup scheduler | `TimeVals`, `IphbRequest`, `IphbScan`, `IphbRuns`, `IphbPromises`, `Iphb`, `IphbService` | the imperative scheduler refines a scheduler on microseconds, which in every run serves each request by its deadline and not before the time it asks for |
| logging ring | `LogRing`, `LogRules` | safety, delivery and accounting in every interleaving of the two threads; the rule cache cannot be observed |
| device state machine | `DeviceState`, `DeviceLaws`, `DeviceRuns`, `StateMachine` | what every message leads to, the shape of every run, precedence of emergency calls, what shutdown blockers hold off; the module's class keeps all of it |
| message bus and blockers | `ModuleBase`, `Blockers`, `SystemRuns` | sorted dispatch, first-in first-out delivery, agreement of three modules whenever the queue is drained |
| thermal stack | `ThermalObject`, `ThermalManager`, `ThermalRequests`, `ThermalWaiting`, `ThermalFate`, `ThermalSensors` | the debounce law, the cached overall status, termination of update requests and which of them are answered |
| power-on time | `PowerOn` | conservation of time, also across the state machine's runs |
| boot loader settings | `Bytes`, `Aboot` | round trips of the three layouts, and a lock flag write that is safe however far it gets |

Code that updates variables is modelled by classes and methods with loops. Each method is tied by its `ensures` to
a specification on values. What the steps of such a specification do is said again by laws in the inputs, fields and
numbers themselves, and the remaining lemmas are about sequences of steps and whole runs. The
two threads of the logging ring are a state machine over their atomic steps.

## Where the code does not do what it seems to promise

- A shutdown that an emergency call interrupts is scheduled again only if, when the call ends, the bits call for the
  other one of SHUTDOWN and REBOOT, whatever has happened during the call (`DeviceRuns.ShutdownAfterCall`). An
  overheated device can therefore be left in SHUTDOWN without a shutdown timer (`DeviceRuns.OverheatedAfterBoot` gives
  a run from boot), and then nothing that happens later powers it off (`DeviceRuns.DeadForEver`). Without emergency
  calls going down always leads to power-off (`DeviceRuns.GoingDownPowersOff`).
- The rtc delay is a difference of whole seconds. It can pass a deadline by less than a second, and does so if and
  only if the fraction of a second is larger now than at the deadline and nothing else makes the alarm come in an
  earlier second (`IphbScan.RtcDelayLateness`; `IphbScan.RtcDelayCanBeLate` is an input). It is 0, which disables the
  alarm, when the nearest deadline lies in the current second.
- A thermal object counts as "in transition" when its start time is positive. This differs from "candidate and
  accepted status differ" exactly for a run of readings that began when the clock read zero
  (`ThermalObject.TransitionFlag`; `ThermalObject.HiddenTransition` is an input).
- modules/thermalobject.c:467-474 promises an answer to every update request. A meta-sensor passes its request on
  along a chain. Two things keep an answer away, cancelled requests and groups: once no callback is scheduled any more,
  objects still wait only if one of them waits for a cancelled one, or for itself or a later one of the list
  (`ThermalWaiting.WaitingNeedsTrouble`), and without cancels and groups everybody has been answered, whoever else
  waited and in whatever order callbacks were made (`ThermalWaiting.AllAnswered`).
- The exact condition for one request: its chain ends, or joins objects that wait already and lead to a scheduled
  callback, and at each answer on the way back the next object is blocked by nobody who waits and something on which it
  depends has a status (`ThermalFate.RequestIsAnswered`, `ThermalFate.JoinedIsAnswered`; for registered lists
  `ThermalFate.RegisteredIsAnswered`). `ThermalFate.StartUp` is the ordinary request at start-up.
- Registration accepts only objects that can be read at that moment. doc/thermal_sensor_config_files.txt:52-57
  concludes that circular dependencies are rejected. Chains then indeed never close (`ThermalFate.OrderedChain`), and
  objects can lock one another for ever only through a group (`ThermalFate.StuckNeedsGroup`) - but that happens: with
  `core0` and a meta-sensor `core1` on the group "core", the waiting `core1` blocks itself (`ThermalFate.TwoSensors`;
  in general `ThermalWaiting.OwnGroupSticks`) and everybody else on that group (`ThermalFate.LockedOut`), and `x` on
  "core" with `core1` on `x` is a cycle that is registered (`ThermalFate.GroupCycle`).
- Without groups an answer fails to come when a read fails: the object at the end is answered, the one before it is
  cancelled without an answer, and all earlier ones go on waiting, because a cancelled object does not tell its own
  dependents. `ThermalFate.ThreeSensors` is an input; there the objects are abandoned for ever, in the sense of
  `ThermalWaiting.AbandonedForEver`, because neither has a poll of its own left.
- `pot_update_cal` loses the unsaved time when user mode is left without a forced save, unless something else makes
  that call save it (`PowerOn.UpdateConserves`; `PowerOn.UpdateCanLose` is an input); the state machine never leaves user mode that way
  (`PowerOn.PowerOnFollowsState`).
- `sort_comparator` sorts ascending although the comment at dsme/modulebase.c:117-118 says descending;
  `thermal_manager_request_sensor_update` stops at the first sensor of a group although its comment speaks of the
  group; the log rule cache never answers "no rule matches", so that such a key is searched again at every call. The
  model follows the code.

## Model

| member | source | states |
|---|---|---|
| TimeVals.BeforeIsLess | modules/iphb.c:236-262 | timercmp on normalised time stamps is the order of their microseconds |
| TimeVals.MinusIsDifference | modules/iphb.c:1868-1868 | timersub is exact and normalised, and comparing its seconds field with n is comparing the difference with n full seconds |
| IphbRequest.AdjustPeriod | modules/iphb.c:1931-1947 | a slot period becomes a positive multiple of 30 s within 15 s of the requested one, 30 s at least; a multiple of 30 stays |
| IphbRequest.AdjustMintime | modules/iphb.c:1963-1996 | the table loop leaves a start that the table row allows alone, moves one further ahead of the deadline to the row limit, and one behind the deadline to the deadline |
| IphbRequest.WidthsInSeconds | modules/iphb.c:1967-1982 | the table: how many seconds wide a window may be, from deadline to deadline |
| IphbRequest.WindowOpens | modules/iphb.c:2065-2078 | where the window of a range request opens and ends, in every case of mintime, maxtime and row limit; never before the mintime asked for unless the deadline is |
| IphbRequest.CancelStops | modules/iphb.c:2035-2046 | a request of no time at all ends the wait |
| IphbRequest.WindowIsAhead | modules/iphb.c:2032-2078 | every slot request and every range with a deadline of a second or more: reqtime < mintime <= maxtime, width within the table row, deadline as asked |
| IphbRequest.WindowIsPast | modules/iphb.c:2032-2078 | every other range request is due at once |
| IphbRequest.SlotIsAhead | modules/iphb.c:2047-2063 | a slot instant is a multiple of the period in (now, now + period] |
| IphbRequest.SlotsAlign | modules/iphb.c:2047-2063 | two slot requests of equal period get the same instant if and only if they are made within the same slot |
| Iphb.ClientRecord.SetWindow | modules/iphb.c:2032-2078 | the timeval code computes exactly the window of the microsecond model |
| Iphb.ClientRecord.HandleWaitReq | modules/iphb.c:2006-2090 | which flag, times and pid a request of each version, from internal and external clients, leaves in the record, in the fields of the request; woken if and only if a known client cancels |
| Iphb.JoinedHalves | modules/iphb.c:2015-2018 | any 32-bit time comes back from its two 16-bit halves |
| IphbScan.ScanIsExact | modules/iphb.c:2433-2501 | a client is woken if and only if it waits, its window is open, and it or some wake-from-suspend client in its window has less than 12 s left - all in the fields of the records; it is told the whole seconds it slept |
| IphbScan.MustWakeMeans | modules/iphb.c:2433-2452 | the first pass wakes everybody if and only if some waiting wake-from-suspend client is in its window with less than 12 s left |
| IphbScan.TimerIffPressing | modules/iphb.c:2470-2505 | a timer is armed if and only if some wake-from-suspend client has a window that is still closed and ends within 12 s, and is due in the last millisecond before the first such end |
| IphbScan.LeftWaiting | modules/iphb.c:2433-2501 | nothing that is due is left waiting by a scan |
| IphbScan.ScanKeepsOrder | modules/iphb.c:2433-2501 | a scan keeps the order of the list and drops only clients it failed to reach |
| IphbScan.SleepTimeIsLeast | modules/iphb.c:2466-2481 | the sleep time is the least distance to a deadline that the next heartbeat would miss |
| IphbScan.NextDeadlineIsLeast | modules/iphb.c:2263-2280 | the loop finds the earliest future deadline of a waiting wake-from-suspend client |
| IphbScan.RtcDelayIsLeast | modules/iphb.c:2263-2305 | the rtc delay is in 0..1800, not above half an hour, the next alarm of timed if there is one, or the whole seconds to any deadline, and equal to one of these |
| IphbScan.RtcDelayLateness | modules/iphb.c:2263-2305 | in microseconds the alarm is late by less than a second, and on time if and only if the fraction of a second of now is not above that of the deadline, or half an hour, an alarm of timed or another deadline comes in an earlier second |
| IphbScan.RtcDelayCanBeLate | modules/iphb.c:2282-2283 | an input whose alarm is three quarters of a second late |
| IphbRuns.TimerAhead | modules/iphb.c:2340-2350 | the wakeup timer is due within the last millisecond before its deadline and not in the past |
| IphbRuns.WakeupNowInv | modules/iphb.c:2417-2518 | after a scan every client still waiting is covered by a heartbeat or timer in time |
| IphbRuns.StepInv | modules/iphb.c:2417-2597 | every request, scan, timer, connect and disconnect keeps the coverage invariant and distinct clients |
| IphbRuns.NeverOverdue | modules/iphb.c:2417-2597 | deadline guarantee over all runs: the next scan is due by max(maxtime, reqtime + 200 ms) of every waiting wake-from-suspend client, and no run gets past that with the client waiting |
| IphbRuns.NobodyIsForgotten | modules/iphb.c:2417-2518 | in all runs no client at all waits longer than one heartbeat beyond its deadline |
| IphbRuns.WokenInWindow | modules/iphb.c:2417-2518 | in all runs no scan wakes a client before its window, nor one with at least 12 s left while no wake-from-suspend client in its window has less; a scan in the window with less left, or past it, does wake it |
| IphbPromises.AskedIsServed | modules/iphb.c:2417-2597 | in all runs, by the events alone: if the last request of a client is no cancel, asks for a wakeup from suspend and has not been answered, the next scan is due by the deadline of its seconds or 200 ms after it |
| IphbPromises.ServedInTime | modules/iphb.c:2417-2518 | in all runs, for every open request: a scan at or past its deadline reports to the client with the seconds waited, and none reports before its mintime |
| IphbPromises.CancelledIsSilent | modules/iphb.c:2035-2046 | in all runs nobody is woken after a cancel until the next request |
| IphbPromises.AnsweredIsSilent | modules/iphb.c:2484-2501 | nor after an answer until the next request |
| IphbPromises.ChecksFollow | modules/iphb.c:2587-2597 | every request, coming and going is followed by a check 200 ms later, unless one is pending or an internal client does not want to be woken from suspend |
| Iphb.Scheduler.AddClient | modules/iphb.c:2161-2175 | the client goes to the end of the list |
| Iphb.Scheduler.RemoveClient | modules/iphb.c:2181-2190 | exactly that record leaves the list, the others keep their order |
| Iphb.Scheduler.WakeupClientsLater | modules/iphb.c:2587-2597 | one pending check 200 ms ahead; a pending one is kept |
| Iphb.Scheduler.MustWakeSomeone | modules/iphb.c:2433-2452 | the first pass tells whether some waiting wake-from-suspend client is in its window with less than 12 s left |
| Iphb.Scheduler.Visit | modules/iphb.c:2454-2501 | one turn of the second pass: who is woken with how many seconds slept, kept, left waiting or needs a timer |
| Iphb.Scheduler.WakeThem | modules/iphb.c:2454-2501 | the second pass computes the scanned list, the messages in order, the sleep time and the number of external clients left |
| Iphb.LeftCountMeans | modules/iphb.c:2454-2512 | the number of external clients left is positive if and only if one still waits after the scan |
| Iphb.Scheduler.GetAlarmTime | modules/iphb.c:2232-2249 | 0 if and only if no alarm of timed is coming; otherwise it leads to one that is, and not past the other |
| Iphb.Scheduler.NextWakeup | modules/iphb.c:2263-2280 | the timeval loop finds the deadline of the model |
| Iphb.Scheduler.RethinkRtcWakeup | modules/iphb.c:2263-2305 | the programmed delay is that of RtcDelayIsLeast |
| Iphb.Scheduler.StartWakeupTimeout | modules/iphb.c:2340-2350 | arms a timer cut to whole milliseconds unless one is pending |
| Iphb.Scheduler.WakeupClientsNow | modules/iphb.c:2417-2518 | refinement: list, messages, timers, kernel request and rtc delay after a scan are those of the model |
| Iphb.Scheduler.HandleHeartbeat | modules/iphb.c:3130-3137 | a heartbeat message is the heartbeat step of the runs |
| Iphb.Scheduler.HandleWakeupTimeout | modules/iphb.c:2316-2334 | the timer callback is the timer step of the runs, or nothing after a cancel |
| Iphb.Scheduler.HandleLaterTimeout | modules/iphb.c:2534-2558 | the delayed check is its step of the runs, or nothing after a cancel |
| Iphb.Scheduler.HandleWait | modules/iphb.c:3140-3166 | a wait request of a known internal or external client is the request step of the runs |
| Iphb.Scheduler.HandleFirstWait | modules/iphb.c:3140-3166 | the first request of an internal client adds it to the list and is the request step of the runs |
| Iphb.Scheduler.HandleConnect | modules/iphb.c:2744-2761 | a new external client is appended and a check scheduled: the connect step of the runs |
| Iphb.Scheduler.HandleDisconnect | modules/iphb.c:2882-2918 | a client that vanished or broke the protocol leaves the list and a check is scheduled: the disconnect step of the runs |
| IphbService.Service.Deadlines | modules/iphb.c:2417-2597 | the deadline guarantee, and the bound for all other clients, of the object after anything that has reached it |
| IphbService.Service.Serves | modules/iphb.c:2417-2597 | the promises for single requests, of the object and everything that has reached it |
| IphbService.Service.OnHeartbeat | modules/iphb.c:3130-3137 | a heartbeat continues the object's run |
| IphbService.Service.OnWakeupTimeout | modules/iphb.c:2316-2334 | a wakeup timer that is due continues it |
| IphbService.Service.OnLaterTimeout | modules/iphb.c:2534-2558 | a delayed check that is due continues it |
| IphbService.Service.OnWait | modules/iphb.c:3140-3166 | a wait request continues it |
| LogRing.StepInv | dsme/logging.c:393-685 | each of the 14 atomic steps of the two threads keeps the ring invariant |
| LogRing.SlotOfWrapped | dsme/logging.c:442-486 | 128 divides 2^32, so that a wrapped counter selects the same slot |
| LogRing.BufferedIsUnread | dsme/logging.c:483-486 | the unsigned difference of the wrapped counters is the true number of unread entries |
| LogRing.GuardInv | dsme/logging.c:653-663 | the out-of-sync branch is never taken |
| LogRing.RingIsSafe | dsme/logging.c:393-685 | all interleavings: at most 128 unread entries, none overwritten or half written, OUT OF SYNC unreachable, and eventfd count + count held + notification in flight = unread |
| LogRing.WorkerOutputIsPrefix | dsme/logging.c:620-685 | all interleavings: the worker's output is a prefix of the accepted entries, and it sleeps only when all announced ones are out |
| LogRing.EveryCallAccounted | dsme/logging.c:565-613 | all interleavings: between calls every call is accepted, in one overflow record, or in the pending count, which is kept modulo 2^32 |
| LogRing.CoveredOnce | dsme/logging.c:571-598 | each accounted call belongs to exactly one entry of the log |
| LogRing.OverflowHysteresis | dsme/logging.c:571-598 | a call is written if and only if fewer than 128 entries are unread, or fewer than 112 after a loss; the record of a loss precedes the next message |
| LogRing.CloseDeliversAll | dsme/logging.c:971-984 | after close every accepted entry has been output in order, at most one of them twice, even by a worker that outlives the join |
| LogRing.StopInv | dsme/logging.c:1015-1048 | telling the worker to exit keeps the invariant wherever the worker is |
| LogRules.Rules.ClearRules | dsme/logging.c:694-708 | forgets rules and cache |
| LogRules.Rules.AddRule | dsme/logging.c:715-734 | puts a rule in front and drops the cache |
| LogRules.Rules.SetVerbosity | dsme/logging.c:800-812 | caps and stores the level |
| LogRules.Rules.Evaluate | dsme/logging.c:765-794 | with any valid cache: the first matching rule of the list |
| LogRules.Rules.Allows | dsme/logging.c:826-843 | the answer an uncached reading of the configuration history demands: newest matching rule since the last clear, verbosity otherwise |
| LogRules.KeyMeans | dsme/logging.c:772-774 | a rule is matched against file:function, cut off behind 255 characters |
| LogRules.AllowedMeans | dsme/logging.c:826-843 | by positions in the history: the last matching rule behind the last clear includes or excludes; without one, or without a known caller, the verbosity decides |
| LogRules.VerbosityMeans | dsme/logging.c:800-812 | the last level set counts, cut to 0..7 |
| LogRules.AgreeStep | dsme/logging.c:694-734 | first match in the list stays newest match in the history under every call |
| LogRules.LookupsUnobservable | dsme/logging.c:765-794 | dropping all lookups from a history changes no answer |
| StateMachine.StateModule.constructor | modules/state.c:1413-1488 | from every boot state, with ENTER_MALF where it belongs, the object is at the start of a run |
| StateMachine.StateModule.TryToChangeState | modules/state.c:578-684 | what each wanted state leads to from each current state, with the messages sent and the timer armed |
| DeviceLaws.WantedMeans | modules/state.c:513-567 | which state is called for, each one by its exact condition on calls, alarms, blockers, requests and inputs |
| DeviceLaws.RebootReboots | modules/state.c:1002-1012 | an accepted reboot request in USER goes to REBOOT, with data saved and the timer armed or the main loop left |
| DeviceLaws.ShutdownShutsDown | modules/state.c:967-977 | an accepted shutdown request in USER goes to SHUTDOWN when the charger is disconnected and no alarm is set or the home is encrypted |
| DeviceLaws.ShutdownGoesToActDead | modules/state.c:967-977 | with a charger or an alarm it goes down by the ACTDEAD path, to SHUTDOWN or REBOOT |
| DeviceLaws.ActdeadFromUser | modules/state.c:991-1000 | an ACTDEAD request in USER goes down, to be started in ACTDEAD |
| DeviceLaws.PowerupFromActDead | modules/state.c:979-989 | a power-up request in ACTDEAD reboots, or is taken back below 3 percent of battery |
| DeviceLaws.RequestsRefused | modules/state.c:714-741 | unprivileged requests do nothing; SHUTDOWN and REBOOT are denied while a PC has the device mounted |
| DeviceLaws.RequestsRemembered | modules/state.c:967-1012 | during a call or while blocked a request is only remembered, and which earlier ones it withdraws |
| DeviceLaws.MoveFromActDead | modules/state.c:594-641 | from ACTDEAD the way leads over REBOOT from 3 percent of battery on; below, shutdown counts as asked for again |
| DeviceLaws.MoveNowhere | modules/state.c:670-683 | which changes are not possible |
| DeviceLaws.GoingDownArms | modules/state.c:743-757 | the shutdown timer is armed once; without a timer the main loop is left |
| DeviceLaws.FirstState | modules/state.c:1413-1488 | the state announced first for every boot state, whether ENTER_MALF and SAVE_DATA are sent, and the timer |
| DeviceLaws.PluggedIn | modules/state.c:923-951 | a connected charger is believed at once |
| DeviceLaws.UnpluggedLater | modules/state.c:923-951 | in ACTDEAD a disconnected one after 5 s, or 15 s if the charger has been heard of before |
| DeviceLaws.ChargerAgain | modules/state.c:911-921 | a report while that delay runs ends it as a disconnect |
| DeviceLaws.UnpluggedActDead | modules/state.c:902-909 | the end of the delay shuts down a device in ACTDEAD that has no alarm |
| DeviceLaws.AlarmGone | modules/state.c:1114-1122 | so does the end of its last alarm |
| DeviceLaws.ThermalMeans | modules/state.c:1124-1136 | only OVERHEATED does anything: it starts the delay once, or counts at once without a timer |
| DeviceLaws.OverheatMeans | modules/state.c:877-884 | when the delay is over the device goes to SHUTDOWN, or when the call ends |
| DeviceLaws.BatteryMeans | modules/state.c:1192-1212 | an empty battery is announced every time and delayed once; a report that it is not ends the delay |
| DeviceLaws.EmptyMeans | modules/state.c:1148-1155 | when the delay is over the device goes to SHUTDOWN, or when the call ends |
| DeviceLaws.CallEnds | modules/state.c:309-322 | a call that ends in USER lets happen what was asked for meanwhile, alarms first |
| DeviceLaws.BlockersMean | modules/state.c:324-341 | when the last blocker leaves the shutdown and reboot requests are forgotten; messages from outside do nothing |
| DeviceLaws.RunlevelsOfRuns | modules/state.c:246-264 | in all runs a SHUTDOWN message is sent in SHUTDOWN with runlevel shutdown or in REBOOT with runlevel reboot |
| StateMachine.StateModule.Dispatch | modules/state.c:923-1330 | every message and timer continues the object's run by one turn of the transition function; during a call nothing but its end changes the state, announces or starts a shutdown |
| StateMachine.StateModule.Shape | modules/state.c:578-767 | of the object at any time: one first state, then SHUTDOWN or REBOOT only, the last one current; no SHUTDOWN message with a bad runlevel; alarms without a call mean SHUTDOWN; no shutdown timer during a call |
| DeviceRuns.SettleShape | modules/state.c:569-684 | change_state_if_necessary follows the legal edges, arms the timer when going down, and does nothing during a call or while blocked without alarm |
| DeviceRuns.HandleStep | modules/state.c:923-1330 | every event keeps the invariant and broadcasts legally |
| DeviceRuns.RunShape | modules/state.c:578-767 | all runs: a state is announced, only the first can be USER, ACTDEAD or TEST, later ones are SHUTDOWN or REBOOT; the last one announced is current; SHUTDOWN messages never name a runlevel that modules/runlevel.c rejects; a pending timer implies SHUTDOWN or REBOOT |
| DeviceRuns.LegalShutdowns | modules/runlevel.c:158-168 | no SHUTDOWN message of a legal run reaches the bad runlevel branch |
| DeviceRuns.EmergencyPrecedence | modules/state.c:513-567 | all runs: without a call, overheating or an empty battery means SHUTDOWN; during a call no shutdown timer is pending |
| DeviceRuns.EmergencyFreezes | modules/state.c:834-851 | while a call goes on nothing changes the state, announces or starts a shutdown |
| DeviceRuns.EmergencyFreezesRuns | modules/state.c:309-322 | the same for a call that begins at any point of any run |
| DeviceRuns.BlockingHolds | modules/state.c:538-541 | while blocked only overheating and an empty battery change the state, over whole runs |
| DeviceRuns.ShutdownAfterCall | modules/state.c:309-322 | a shutdown cancelled by a call during which anything may happen is scheduled again if and only if the bits at its end call for the other one of SHUTDOWN and REBOOT |
| DeviceRuns.OverheatedAfterCall | modules/state.c:834-884 | four events that leave an overheated device in SHUTDOWN with no timer |
| DeviceRuns.OverheatedAfterBoot | modules/state.c:834-884 | the same as a run from an ordinary boot |
| DeviceRuns.DeadForEver | modules/state.c:834-884 | from there on, over all later runs, no shutdown is started and no state announced |
| DeviceRuns.GoingDownPowersOff | modules/state.c:743-767 | all runs without an emergency call: in SHUTDOWN or REBOOT the shutdown timer runs, the main loop is left, or SHUTDOWN has been sent |
| DeviceRuns.StartupStep | modules/state.c:1413-1488 | every boot state leads to a first announced state along a legal edge |
| DeviceRuns.LegalChanges | modules/state.c:691-712 | the states announced are a walk along the edges that ends in the current state |
| ModuleBase.Bus.AddSingleHandler | dsme/modulebase.c:192-215 | the list stays sorted by type, priority, load order and gains exactly this handler |
| ModuleBase.Bus.AddMsgHandlers | dsme/modulebase.c:225-245 | a module's table is registered row by row |
| ModuleBase.Bus.RemoveMsgHandlers | dsme/modulebase.c:253-269 | exactly the handlers of the module leave, order kept |
| ModuleBase.SortedIsUnique | dsme/modulebase.c:165-176 | the sorted list is determined by which handlers are registered |
| ModuleBase.ReachedFacts | dsme/modulebase.c:569-591 | dispatch reaches exactly the handlers of matching type, recipient and size, in sorted order |
| ModuleBase.Bus.QueueMessage | dsme/modulebase.c:286-317 | appended with its extra payload, or dropped when shorter than 12 bytes |
| ModuleBase.AcceptedInOrder | dsme/modulebase.c:286-317 | of a row of posts each line that holds a header is queued once, with its payload, in the order of the posts |
| ModuleBase.Bus.HandleMessage | dsme/modulebase.c:562-594 | each reached handler is called once in order, and what the calls post - anything, call by call - is queued in that order |
| ModuleBase.Bus.Drain | dsme/modulebase.c:540-550 | messages leave first in first out, each exactly once, while handlers post more |
| ModuleBase.Bus.ProcessMessageQueue | dsme/modulebase.c:540-560 | IDLE comes only when everything posted so far has been delivered, and it does come when handlers stop posting; the queue then holds what its handlers posted |
| Blockers.Tracker.UpdateClientCount | modules/dsme_dbus.c:1937-1947 | the cached count becomes the table size; a message is posted for the counts 0 and 1 when it changed |
| Blockers.Tracker.AddClient | modules/dsme_dbus.c:1983-1999 | adds a name once |
| Blockers.Tracker.RemoveClient | modules/dsme_dbus.c:2001-2034 | removes a name, also one that dropped off the bus |
| Blockers.Tracker.FlushClients | modules/dsme_dbus.c:2014-2044 | a lost connection drops all names |
| SystemRuns.HandleBlocked | modules/state.c:1309-1330 | only BLOCK and ALLOW from within dsme touch the blocked bit |
| SystemRuns.NoticesAfter | modules/dbusproxy.c:138-156 | the messages of a count change lead the state module to the new emptiness of the client set |
| SystemRuns.StepInv | dsme/modulebase.c:540-551 | inhibit, release, disconnect, foreign messages, timers and deliveries keep the agreement with what is queued |
| SystemRuns.QueuedAgreement | modules/state.c:1309-1330 | all runs, at any moment: the queued messages lead blocked and the reported state to agreement |
| SystemRuns.DrainedAgreement | modules/state.c:324-341 | all runs, queue drained: blocked if and only if some D-Bus client inhibits shutdown, and dbusproxy reports the current state |
| PowerOn.Backend.UpdateCal | modules/powerontimer_backend.c:342-405 | the imperative update is the specified step |
| PowerOn.Backend.GetPoweronSecs | modules/powerontimer_backend.c:411-444 | stored time, plus in user mode the time since it was stored, or all of the uptime after a reboot |
| PowerOn.UpdateConserves | modules/powerontimer_backend.c:342-405 | a call keeps stored plus unsaved time if and only if it saves or stays in user mode; a loss is below the write limit, and so is what stays unsaved |
| PowerOn.UpdateCanLose | modules/powerontimer_backend.c:387-404 | an input on which ten minutes are lost |
| PowerOn.LimitMeans | modules/powerontimer_backend.c:320-336 | how much may stay unsaved: 15 minutes, 1 hour, 6 hours or a day, from 0, 8 hours, 7 days and 30 days of power-on time on |
| PowerOn.UpdateWrites | modules/powerontimer_backend.c:342-405 | the block is written if and only if that is forced, or there is time to save and a reboot, a pending save or the limit asks for it; then all of it is saved |
| PowerOn.QueryIsSaved | modules/powerontimer_backend.c:411-444 | a query reports what a forced save at the same moment would store, also after the uptime has dropped |
| PowerOn.FirstUpdate | modules/powerontimer_backend.c:356-365 | the first call after a boot counts a dropped uptime as one reboot and adds no time |
| PowerOn.RunConserves | modules/powerontimer.c:97-157 | over all event sequences with forced exits the ledger is the stored value plus all time in user mode |
| PowerOn.PowerOnConserved | modules/powerontimer.c:134-157 | query and a final forced save both give exactly that, at any later time |
| PowerOn.PowerOnFollowsState | modules/state.c:578-684 | joined with the state machine: in every one of its runs no power-on time is lost |
| ThermalObject.Classify | modules/thermalsensor_generic.c:886-892 | the level loop finds the highest limit reached, INVALID below all |
| ThermalObject.LevelsAreBands | modules/thermalsensor_generic.c:687-694 | with ascending limits each status is the band between its limit and the next; hotter is never a lower status |
| ThermalObject.ThermalObjectRecord.HandleUpdate | modules/thermalobject.c:547-648 | an awaited, successful reading of -50 to 200 degrees is debounced; anything else leaves the status alone; answers end the wait |
| ThermalObject.ObjectSummarises | modules/thermalobject.c:590-640 | the three fields are the last reading and the start of its unbroken run |
| ThermalObject.DebounceLaw | modules/thermalobject.c:590-640 | a new status is accepted only at the end of an unbroken run of it longer than 12 s, and every such run is accepted |
| ThermalObject.ThermalObjectRecord.Debounces | modules/thermalobject.c:590-640 | the same of the object, after all readings it has been given |
| ThermalObject.GlitchesIgnored | modules/thermalobject.c:590-640 | a status that never lasts longer is never accepted |
| ThermalObject.AcceptedNeedsSamples | modules/thermalmanager.h:85-93 | with polls at most 5 s apart at least three more agreeing samples precede acceptance |
| ThermalObject.TransitionFlag | modules/thermalobject.c:340-343 | in transition if and only if candidate and accepted differ and the run did not begin at clock 0 |
| ThermalObject.HiddenTransition | modules/thermalobject.c:340-343 | a reading at clock 0 that starts a transition the flag does not show |
| ThermalManager.WorstIsMaximum | modules/thermalmanager.c:653-684 | the overall status is one that occurs, or NORMAL, and none is more severe under FATAL > ALERT > LOW > WARNING > NORMAL |
| ThermalManager.WorstIgnoresOrder | modules/thermalmanager.c:653-684 | it depends only on which statuses occur |
| ThermalManager.WorstMeans | modules/thermalmanager.c:653-684 | which status decides: FATAL over all, then ALERT, then LOW, then WARNING |
| ThermalManager.Manager.LevelMeans | modules/thermalmanager.c:744-850 | the level announced last: overheated if and only if some object is FATAL; low temperature if and only if some is LOW and none ALERT or FATAL; normal otherwise |
| ThermalManager.Manager.OverallStatus | modules/thermalmanager.c:653-684 | the lowest/highest loop computes that maximum |
| ThermalManager.Manager.RegisterObject | modules/thermalmanager.c:454-472 | appended once |
| ThermalManager.Manager.UnregisterObject | modules/thermalmanager.c:495-511 | exactly that object leaves, the others keep their order, and the cached status may be out of date from then on |
| ThermalManager.Manager.BroadcastStatus | modules/thermalmanager.c:699-850 | signals and messages are sent only on change, so that consecutive ones differ and the last one is in force |
| ThermalManager.AlternatesAt | modules/thermalmanager.c:744-850 | consecutive announcements always differ |
| ThermalManager.Manager.HandleObjectUpdate | modules/thermalmanager.c:645-697 | the cached status becomes the worst of all objects, the level announced last is that of LevelMeans, and the next poll is scheduled; unregistered objects are ignored |
| ThermalManager.Manager.ObjectAnswers | modules/thermalobject.c:547-661 | every answer restores cached status = worst of all, across both modules |
| ThermalSensors.Requests.RequestUpdate | modules/thermalobject.c:478-526 | the recursive request terminates on every graph and is the specified function |
| ThermalSensors.Requests.RequestSensorUpdate | modules/thermalmanager.c:859-880 | requests the first object of that name or group |
| ThermalSensors.Requests.HandleSensorUpdate | modules/thermalmanager.c:922-958 | reads the dependents that wait for this sensor, cancels those whose read fails |
| ThermalSensors.Requests.HavePendingSensorUpdate | modules/thermalmanager.c:887-907 | some other member of the group still waits |
| ThermalSensors.Requests.HandleUpdate | modules/thermalobject.c:547-661 | an answer ends the wait, schedules the poll and revisits dependents |
| ThermalSensors.Requests.RegisterObject | modules/thermalsensor_generic.c:1239-1270 | an object that can be read joins the list at its end and is requested, any other is rejected; every meta-sensor has a possible source in front of it |
| ThermalSensors.Requests.PollObject | modules/thermalmanager.c:321-340 | a scheduled poll requests the object and is used up; the object list stays sound |
| ThermalSensors.Requests.SensorNotify | modules/thermalsensor_generic.c:1111-1133 | a callback answers its object once; the object list stays sound |
| ThermalSensors.Requests.Answers | modules/thermalobject.c:465-476 | AllAnswered of the object, after anything that has reached it |
| ThermalSensors.Requests.ReadSensor | modules/thermalsensor_generic.c:1148-1169 | a real sensor reads as the world lets it, a meta-sensor if its source has a status; success is answered through the idle callback only |
| ThermalSensors.Requests.GetSensorStatus | modules/thermalmanager.c:563-640 | succeeds if and only if some object of that name or group has a valid status |
| ThermalRequests.NameLikeMeans | modules/thermalobject.c:239-262 | a group name matches itself and itself followed by a colon or a digit |
| ThermalRequests.ChainIsSimple | modules/thermalobject.c:478-526 | a request makes no object wait twice |
| ThermalRequests.RequestFollowsChain | modules/thermalobject.c:478-526 | a request makes exactly its chain wait; at most the last object reads, and only its failure is answered at once |
| ThermalWaiting.StuckForEver | modules/thermalmanager.c:922-958 | meta-sensors that all wait and hold one another - as sources or by blocking - wait for ever, whatever is requested |
| ThermalWaiting.EventKeepsSound | modules/thermalobject.c:465-526 | every request, poll and callback leaves everybody who waits with a callback scheduled or a dependency on somebody who waits or was cancelled, and everybody attended to |
| ThermalWaiting.RunKeepsSound | modules/thermalobject.c:465-526 | the same over all runs |
| ThermalWaiting.CallbacksEnd | modules/thermalsensor_generic.c:1111-1133 | a callback makes somebody stop waiting or leaves one callback less: they come to an end |
| ThermalWaiting.WaitingNeedsTrouble | modules/thermalobject.c:465-476 | when no callback is scheduled any more, somebody waits only if somebody waits for a cancelled object, or for itself or a later one |
| ThermalWaiting.AllAnswered | modules/thermalobject.c:465-476 | then, without cancels and groups, in a registered list everybody has been answered and has its next poll scheduled, whatever the order of events |
| ThermalWaiting.AbandonedForEver | modules/thermalmanager.c:321-340 | objects without poll and callback that nobody else asks stay as they are for ever, waiting or dropped |
| ThermalWaiting.CycleSticks | modules/thermalmanager.c:859-880 | a cycle without groups, of any length, self-dependence included, becomes such a group by the first request, whatever else waits |
| ThermalWaiting.OwnGroupSticks | modules/thermalmanager.c:887-912 | so does, on its own, a meta-sensor that belongs to the group on which it depends |
| ThermalFate.RequestFate | modules/thermalobject.c:465-526 | whatever else waits, by the last object of the chain: all wait and nothing else changes; or its callback is scheduled; or it is answered at once |
| ThermalFate.StuckIffPassedOn | modules/thermalobject.c:465-526 | whatever else waits: the chain is stuck if and only if its last object passes the request on, no callback of it is left over and its objects hold one another |
| ThermalFate.RevisitDecides | modules/thermalmanager.c:922-958 | the law of one answer: a waiting dependent waits on if somebody who waits blocks it, is read if something on which it depends has a status, and is cancelled otherwise |
| ThermalFate.AnswerMovesOn | modules/thermalmanager.c:922-958 | an answer of the last object decides on the one before it in this way and leaves the rest of the chain, and the others beside it, alone |
| ThermalFate.CallbacksAnswer | modules/thermalsensor_generic.c:1111-1133 | the callbacks of a chain reach its first object if and only if the answer travels: no block and a status at every step |
| ThermalFate.RequestIsAnswered | modules/thermalobject.c:465-526 | with groups and others that wait beside the chain: a request is followed by an answer if and only if its chain is not passed on at the end and the answer travels back, unblocked and with a status at every step |
| ThermalFate.JoinedIsAnswered | modules/thermalobject.c:465-526 | a request that is passed on to an object that waits already is answered if and only if the answer travels along the waiting objects and the chain |
| ThermalFate.NoGroupsNoShortcuts | modules/thermalobject.c:465-526 | lists without groups meet the condition on shortcuts in any order |
| ThermalFate.OrderedChain | modules/thermalsensor_generic.c:1239-1270 | in a registered list chains descend, have no shortcuts and never close |
| ThermalFate.RegisteredIsAnswered | modules/thermalsensor_generic.c:1239-1270 | both cases for registered lists, where rows descend and need no other condition |
| ThermalFate.StuckNeedsGroup | modules/thermalmanager.c:946-948 | in a registered list waiting for ever needs a block through a group |
| ThermalFate.TwoSensors | modules/thermalmanager.c:946-948 | a registrable list of two on which a meta-sensor waits for ever |
| ThermalFate.LockedOut | modules/thermalmanager.c:946-948 | its waiting object keeps another meta-sensor from its answer for ever |
| ThermalFate.StartUp | modules/thermalsensor_generic.c:1239-1270 | the first request of a meta-sensor, made while its source still waits, is answered if and only if the source has a status |
| ThermalFate.GroupCycle | modules/thermalmanager.c:946-948 | a registrable cycle through a group that waits for ever |
| ThermalFate.ThreeSensors | modules/thermalmanager.c:950-954 | a registrable list without groups on which a failed read leaves a meta-sensor waiting, for ever when nothing else polls its source |
| ThermalWaiting.FailedSourceAbandons | modules/thermalmanager.c:922-958 | whatever else waits, a meta-sensor over one real sensor is dropped silently if and only if that sensor cannot be read |
| Bytes.LeOfUnsigned | modules/abootsettings.c:618-627 | writing back a number read from four bytes restores them |
| Bytes.UnsignedOfLe | modules/abootsettings.c:500-508 | reading back a written number gives it modulo 2^32 |
| Bytes.GetPutAll | modules/abootsettings.c:496-575 | fields that do not overlap read back as written |
| Bytes.Memcpy | modules/abootsettings.c:496-575 | a copy changes exactly its range |
| Aboot.DecodeEncode | modules/abootsettings.c:480-765 | decoding an encoding of proper data succeeds in all three layouts and restores every field the version carries |
| Aboot.DecodableMeans | modules/abootsettings.c:598-765 | byte by byte which blocks decode: versions 1 to 3, the magic string, flags 0 or 1 |
| Aboot.DecodedMeans | modules/abootsettings.c:598-765 | byte by byte where the fields of the three layouts are |
| Aboot.EncodeDecode | modules/abootsettings.c:480-765 | re-encoding a decoded block restores every live byte and zeroes padding and tail |
| Aboot.LiveIsCovered | modules/abootsettings.c:480-589 | the fields cover exactly bytes 0..16 and 20..size of a layout |
| Aboot.LockedImage | modules/abootsettings.c:884-915 | setting the flag changes bytes 20..23 of the live data only |
| Aboot.TornWriteIsSafe | modules/abootsettings.c:805-846 | a write interrupted after any number of bytes leaves a block that decodes, other fields as before, flag old or new by whether byte 20 was written |
| Aboot.LockFlagSurvives | modules/abootsettings.c:425-470 | the same on the whole partition; nothing in front of the last block changes |
| Aboot.LockRoundTrip | modules/abootsettings.c:884-915 | after a complete write the flag reads back if and only if the block has more than 20 bytes - as every real one has - or the value is 0 |
| Aboot.ImageForgets | modules/abootsettings.c:771-799 | what earlier, failed decodes left in the struct does not reach the disk |
| Aboot.AbootSettings.EncodeDeviceInfo | modules/abootsettings.c:480-589 | the advancing-offset encoder lays the version's fields over the buffer, or nothing for an unknown version |
| Aboot.AbootSettings.DecodeDeviceInfo | modules/abootsettings.c:598-765 | succeeds if and only if version, magic and flags are proper, and then yields the decoded struct |
| Aboot.AbootSettings.ReadDeviceInfo | modules/abootsettings.c:771-799 | reads the last block if the driver's block size is 1 to 1024 and below the size of the partition |
| Aboot.AbootSettings.WriteBlock | modules/abootsettings.c:805-846 | whatever the write calls return, a prefix of the image is in place, all of it on success |
| Aboot.AbootSettings.SetUnlockedValue | modules/abootsettings.c:884-915 | nothing is written unless the block decoded, then only a prefix of the new image to the last block |
| Aboot.AbootSettings.GetUnlockedValue | modules/abootsettings.c:852-878 | reports the stored flag if the block decodes |

## Left out

What the model does not capture of the parts it models:

- Aboot.AbootSettings.DecodeDeviceInfo: leaves open which fields have already been overwritten when decoding fails; by
  `Aboot.ImageForgets` they do not get to the disk.
- Aboot.AbootSettings.ReadDeviceInfo: open, seek and read errors of the partition are not modelled; they fail the call.
- Iphb.Scheduler.Visit: the kept clients are collected in a new list, where the code unlinks failed ones in place.
- Iphb.Scheduler.HandleWait: one request at a time, where one epoll round handles up to ten events with one time
  stamp.
- IphbRequest.AdjustMintime: 32-bit overflow for ranges near the limit of an int.
- IphbRequest.AdjustPeriod: 32-bit overflow for periods near the limit of an int.
- IphbRuns.NeverOverdue: an early timer is re-armed by the next scan with what is left, down to 0 ms; how often
  that happens is not bounded.
- LogRing.StepInv: one log entry is one value; formatting and truncation of its text are not modelled, nor is the
  degraded mode in which the main thread outputs messages itself after an eventfd error.
- LogRules.Rules.Evaluate: glob matching is a parameter.
- ModuleBase.Bus.Drain: takes a bound on the number of messages, because handlers may post for ever.
- ModuleBase.Bus.QueueMessage: null messages and allocation failure.
- PowerOn.Backend.UpdateCal: 32-bit seconds as unbounded integers; reading and writing the stored block.
- ThermalObject.Classify: re-enabling a disabled sensor and the configured offset come before it.
- ThermalSensors.Requests.ReadSensor: temperatures are left out; which real sensors can be read and which objects have
  a temperature within their levels is chosen by the environment, read by read.
- ThermalFate.RequestIsAnswered: only the callbacks of the chain itself are followed, and of the others that wait those
  on which the chain depends must not be read because of it - as one is that depends on the chain's end and shares a
  group with it. `ThermalWaiting.WaitingNeedsTrouble` has no such condition. Chains have no shortcuts, as none has that
  registration lets arise.
- ThermalFate.JoinedIsAnswered: the same.
- ThermalFate.RegisteredIsAnswered: the same about callbacks and others.
- ThermalSensors.Requests.RegisterObject: unregistering, which happens for all objects at once, and the other checks of
  a configuration.
- ThermalManager.Manager.ObjectAnswers: what an answer makes dependent sensors do is in `ThermalRequests`, which looks
  at the same objects without their status.
- SystemRuns.DrainedAgreement: dispatch is by message kind only; priorities among handlers of one message are in
  `ModuleBase`.
- StateMachine.StateModule.Dispatch: a timer may expire at any time once it is pending; of the disconnect timer the
  length is kept.

What is not modelled at all:

- D-Bus marshalling, introspection, name owner queries; sockets, epoll, rtc, android alarm, timerfd, wakelock, sysfs.
- The build with direct USER/ACTDEAD switching and its two timers; `need_to_use_reboot`, home encryption and the
  success of timer creation are choices of the environment.
- Parsing of boot state, malfunction and configuration texts, the contents of ENTER_MALF, runlevel commands, vibra, module loading, signal handling.
- `thermal_manager_get_sensor_status` over a group, poll delays, and broadcasts of temperatures.
- struct _iphb_wait_req_t and the message header come from libiphb and libdsme; these are not part of this model. The
  header is taken to be three 32-bit words.
- The trackers of USB, battery, alarm and call state, the process and disk watchers, and the hardware watchdog
  kicker: short, with only easy properties.
