# oxinit, verified

oxinit is PID 1 and a service manager. What it decides (which units start, in what
order, what a crash leads to, when a shutdown is over, when to feed the hardware
watchdog, which bytes of a service's output survive) is separate from the system
calls that carry the decisions out. This project models those decisions in Dafny
and proves what they guarantee.

Each component appears twice. What the program does by changing an object in
place is a class whose methods change the same fields in the same order
(`Supervisor`, `Instance`, `Timers`, `Policy`, `Splitter`, `Shipper`) or a method
with the program's own loop; each is proved equal to a function on values. The
theorems are about the functions. `SupervisorLoop.Live`, `ServicePolicy.Live`,
`WatchdogRuns.Feed` and `LogPipeline.Serve` run the objects through whole histories and state the same of
their fields.

Everything the program learns from outside is left open: the two clocks, whether
a fork, a limit or an output could be set up, which pid it got, whether a cgroup
is populated, which events arrive and in what order, when and whether a watchdog
device appears, where a pipe's reads end. A theorem about a run holds for every
such answer.

| part | files |
|---|---|
| the supervisor as a transition system on values | `Supervision.dfy` |
| its invariant, event by event and over runs | `SupervisionSafety.dfy`, `SupervisionRuns.dfy`, `SupervisionEvents.dfy`, `SupervisionTheorems.dfy`, `WaitsEnd.dfy`, `Tracking.dfy` |
| what each of its operations means | `Requirements.dfy`, `Readiness.dfy`, `Endings.dfy`, `Activations.dfy`, `Reloads.dfy`, `ShutdownOrder.dfy` |
| the supervisor as an object, and the loop around it | `Supervisor.dfy`, `SupervisorLoop.dfy` |
| boot: the resolver's plan joined to the start queue | `Boot.dfy`, `BeforeGate.dfy` |
| one unit's state machine and its restart policy | `Services.dfy`, `ServicePolicy.dfy`, `Units.dfy` |
| the alarm queues | `Alarms.dfy` |
| the dependency resolver | `Graph.dfy`, `OrderingEdges.dfy`, `Kahn.dfy`, `CycleWalk.dfy`, `Resolver.dfy` |
| the hardware watchdog, and the hardware it feeds | `Watchdogs.dfy`, `WatchdogRuns.dfy` |
| the log pipeline | `Splitting.dfy`, `LogFiles.dfy`, `LogStore.dfy`, `LogRuns.dfy`, `LogLoss.dfy`, `LogPipeline.dfy`, `Stamps.dfy` |
| calendars, command lines and durations | `Calendars.dfy`, `CalendarTexts.dfy`, `Exec.dfy`, `CommandLines.dfy`, `Durations.dfy` |
| names in order, sequences, options | `Names.dfy`, `Numbers.dfy`, `Wrappers.dfy` |

`dafny verify dfyconfig.toml` checks the whole project.

## Where the code and its documentation part

* `docs/UNIT_FORMAT.md` (216-224) calls `before = ["b"]` on `a` equivalent to
  `after = ["a"]` on `b`. The resolver orders them the same way; the start queue
  asks `after` only. `BeforeGate.NeverOvertakenExactlyWhen` gives the exact
  condition under which a queued unit is held back, and `BeforeGate.BootOvertakes`
  the boots in which it is not.
* `docs/UNIT_FORMAT.md` (167-173) says a unit does not start when something it
  requires fails to reach Active. The start queue looks once, at the unit's turn,
  for a requirement that is Failed already; `Requirements.TurnDecides` is exact.
* The comment on `find_cycle` says the walk must revisit a unit. It need not when
  it starts downstream of a cycle (`Resolver.TangledNamesNoCycle`);
  `CycleWalk.FoundIsCycleOrStray` says exactly when it does.
* At a line of `MAX_LINE` bytes the records depend on where the reads fall;
  `Splitting.CutMattersExactlyForLongLines` says when they do not.

## Model

| member | source | states |
|---|---|---|
| `Boot.BootNeverDeadlocks` | `crates/oxinit/src/supervisor.rs:233-298` | Boot never deadlocks: for every unit set the resolver accepts and every history without a reload, whenever `pump` returns with units still queued and no shutdown begun, the head of the queue is `after` a unit that is activating, and that unit's start timeout is outstanding. Joins the resolver's plan (`Resolver.IsPlan`) to the run-time queue. |
| `Boot.PumpDrains` | `crates/oxinit/src/supervisor.rs:243-298` | `pump` returns only when every queued unit has something left to wait for; it ends because each turn takes a unit off the queue. |
| `Boot.RunTidy` | `crates/oxinit/src/supervisor.rs:233-1483` | Over every history without a reload the definitions stay as loaded and the queue stays a part of the resolved order, in that order. |
| `Boot.HeadWaitsForActivation` | `crates/oxinit/src/supervisor.rs:279-298` | In any state whose queue is in resolved order, a head that cannot start waits for a unit in `Activating`, never for another queued unit: this is where the topological order is used. |
| `Boot.PlanDoesWhatUnitsSay` | `crates/oxinit-graph/src/lib.rs:75-287` | What every plan does for each unit in it: what it requires is there, and what it wants if it exists; what it is `after` comes before it, what it is `before` and the service it opens a socket for come after it, and nothing it conflicts with is there. |
| `Requirements.FailedRequirementFails` | `crates/oxinit/src/supervisor.rs:243-315` | In every state with no shutdown and under every kernel: a queued unit that is down and requires one that is Failed and not queued never comes up in a pump. It is still queued and as it was, or Failed. |
| `Requirements.TurnDecides` | `crates/oxinit/src/supervisor.rs:243-315` | The converse, exactly: a queued unit that is down and excluded by nothing either waits on as it was, or has its turn in some state of the pump, and is then up when `pump` returns if and only if in that state nothing it requires had failed and its cgroup with limits, its output and its process could be had. Otherwise it is Failed. |
| `Requirements.RequirementsDecide` | `crates/oxinit/src/supervisor.rs:243-315` | With nothing it requires still queued and every start allowed, a unit that gets its turn comes up if and only if nothing it requires has Failed; a requirement that is merely not up makes no difference. |
| `Requirements.FirstStartableIsTaken` | `crates/oxinit/src/supervisor.rs:269-277` | Turns are first come, first served: every queued unit before the one taken is still waiting. |
| `BeforeGate.NeverOvertakenExactlyWhen` | `crates/oxinit/src/supervisor.rs:243-336` | What `before` does over a whole `pump`, exactly: for any two units and every state that keeps what every run keeps (the invariant, and the queue in resolved order), the queued one never comes up while the other is still activating if and only if the other takes no time to activate (a `simple` service, or no service), its own `after` names the other (or itself), or the two conflict. `before` is not in the condition; `docs/UNIT_FORMAT.md` calls it the inverse of `after`. |
| `BeforeGate.GateIsAfterAlone` | `crates/oxinit/src/supervisor.rs:279-298` | The gate itself, exactly: in every state a queued unit waits for another that is activating if and only if its own `after` names that unit (or itself), whatever the other declares. |
| `BeforeGate.BootOvertakes` | `crates/oxinit/src/supervisor.rs:233-336` | The failing half over runs: for every set of units that nothing holds up, every order the resolver may plan for them and every kernel that lets the starts succeed, one boot event from loading ends with every planned unit up, and activating exactly when it is a service that is not `simple`, whatever the units say in `before`. |
| `BeforeGate.BeforeIsNotAfter` | `crates/oxinit/src/supervisor.rs:233-298` | An instance: `default` wants a and b, a says it comes before b. From loading, in any order the resolver may plan, one boot event ends with a activating and b active. |
| `BeforeGate.UnitsHaveAPlan` | `crates/oxinit-graph/src/lib.rs:201-287` | The resolver's conditions admit an order for those units, so that boot can happen. |
| `BeforeGate.BeforeAloneNeverHolds` | `crates/oxinit/src/supervisor.rs:279-298` | A queued unit with no `after` of its own has left the queue when `pump` returns, whoever declares to come before it. |
| `SupervisorLoop.Live` | `crates/oxinit/src/main.rs:371-479` | The same of the object, from loading on: after any number of turns, whatever woke them, its waits are bounded by alarms in its own queue, its recurring timers have their next firing, no two of its units that exclude each other are up, a shutdown stays closed, and, unless a reload got in between, a queue that is not empty waits for a unit that is activating and has its deadline. |
| `SupervisorLoop.Serve` | `crates/oxinit/src/main.rs:371-479` | From any safe state the object comes to, any number of turns is a possible run of the transition system that keeps it safe; a shutdown that had begun is the same one, with no unit newly stopping and no process tracked that was not tracked for the same unit. |
| `SupervisorLoop.Turn` | `crates/oxinit/src/main.rs:405-437` | One turn: every input dispatched in order, then the start queue pumped once, is a run ending in a pump. |
| `SupervisorLoop.Dispatch` | `crates/oxinit/src/main.rs:405-426` | Each handler takes the object through exactly one possible event of the transition system. |
| `SupervisionTheorems.NoWaitIsUnbounded` | `crates/oxinit/src/supervisor.rs:422-1483` | At every event boundary of every run: Restarting has a Restart alarm outstanding, Activating a StartTimeout, Deactivating a StopTimeout unless the kill was already used, Active with `watchdog-sec` a WatchdogCheck, each due no later than the latest moment the clock reported plus the unit's own longest backoff, `start-sec`, `stop-sec` or interval; and an active recurring timer unit has its next firing on one of the two clocks. |
| `WaitsEnd.NoWaitOutlastsItsBound` | `crates/oxinit/src/supervisor.rs:1426-1483` | The alarms end the waits. Take any moment of any run at which a unit waits: an activation, a stop with its kill unused, a backoff, or a ping that stays overdue. By the first timer event at which the clock has come to that moment plus the unit's own `start-sec`, `stop-sec`, longest backoff or interval, the wait has ended, reloads and everything else in between included. |
| `WaitsEnd.BatchEnds` | `crates/oxinit/src/supervisor.rs:1426-1483` | Whatever else is in a batch and wherever in it the alarm comes, handling the batch leaves an activation or a silent service stopping, a stop with its kill used, and a unit out of backoff. |
| `WaitsEnd.AlarmEndsWait` | `crates/oxinit/src/supervisor.rs:1426-1452` | So an event that hands out the alarm of a wait ends the wait, in every state that keeps the invariant. |
| `WaitsEnd.FireSteadies` | `crates/oxinit/src/supervisor.rs:1436-1450` | No alarm of any unit takes a service out of a stop, starts one that is up, or puts one in backoff. |
| `SupervisionTheorems.RestartAlarmEndsBackoff` | `crates/oxinit/src/supervisor.rs:1437-1445` | A restart that is due leaves the unit Active, Activating or Failed, never in backoff. |
| `Tracking.StartForgetsExactlyWhen` | `crates/oxinit/src/supervisor.rs:422-582` | When a process is forgotten: starting a service that has one loses it, whether the new start works or not, exactly unless the kernel gives the new process the same number. |
| `Tracking.StartRequestForgets` | `crates/oxinit/src/supervisor.rs:1186-1237` | A control start of a service that is up and running loses sight of its process: it is not stopped, and its exit belongs to no unit. |
| `SupervisionTheorems.OnlyServicesWait` | `crates/oxinit/src/supervisor.rs:422-1483` | Only services are ever Activating, Restarting or Deactivating across an event boundary. |
| `SupervisionTheorems.OnlyLiveUnitsAreTracked` | `crates/oxinit/src/supervisor.rs:422-1483` | A process is tracked only for a unit that is Activating, Active or Deactivating. |
| `SupervisionTheorems.ConflictsNeverRunTogether` | `crates/oxinit/src/supervisor.rs:322-441` | Mutual exclusion over every run, every control request and every reload: two distinct units related by `conflicts` in either direction are never both Activating or Active. |
| `SupervisionTheorems.ShutdownCloses` | `crates/oxinit/src/supervisor.rs:344-420` | Once a shutdown has begun, after any further events (reloads and stops that complete meanwhile included): every unit is Inactive, Failed or Deactivating, nothing new is tracked, the Deactivating set only shrinks, the shutdown is the one that began, and `settled` answers it exactly when that set is empty or the deadline has passed. |
| `SupervisionTheorems.ShutdownBegins` | `crates/oxinit/src/supervisor.rs:344-356` | A shutdown request in any reachable state leaves a shutdown in progress, so the closing theorem applies from there. |
| `SupervisionTheorems.BeginShutdownCloses` | `crates/oxinit/src/supervisor.rs:344-381` | Beginning a shutdown records the action and the moment, and leaves every unit down or on its way, those outside the resolved order included; a second request changes nothing. |
| `SupervisionTheorems.SleepingRemainingSettles` | `crates/oxinit/src/shutdown.rs:93-101` | A loop that sleeps for `remaining` wakes to a `settled` that answers: a unit that never stops cannot hold the machine. |
| `SupervisionTheorems.RunKeeps` | `crates/oxinit/src/supervisor.rs:243-1483` | The invariant of every run: bounded waits, mutual exclusion, and a shutdown that stays closed. |
| `SupervisionTheorems.StepKeeps` | `crates/oxinit/src/supervisor.rs:243-1483` | One event of any kind keeps that invariant, with every answer from the kernel left open. |
| `SupervisionTheorems.ReloadKeeps` | `crates/oxinit/src/supervisor.rs:1248-1299` | A reload keeps the invariant, shutdown in progress or not. |
| `SupervisionTheorems.RunningSurvivesReload` | `crates/oxinit/src/supervisor.rs:1248-1299` | A unit that is not idle keeps its instance and the definition it was started with through any reload. |
| `Reloads.ReloadAppliesTheDirectory` | `crates/oxinit/src/supervisor.rs:1248-1299` | From the states before and after alone: after an accepted reload every unit that was not running is known if and only if the directory has it, with exactly the directory's definition, fresh if that is new or changed and the same instance if not; a running unit is what it was. |
| `Reloads.ReloadMakesCgroups` | `crates/oxinit/src/supervisor.rs:1262-1278` | Each new service, and each changed one that is not running, has a cgroup afterwards if the kernel would make it; every cgroup there was keeps its number, and nothing else gets one. |
| `Reloads.ReloadIsAllOrNothing` | `crates/oxinit/src/supervisor.rs:1248-1299` | Refused exactly when the directory could not be loaded, and then nothing changes. |
| `Reloads.EditTakesEffect` | `crates/oxinit/src/supervisor.rs:1186-1299` | The next control start after the reload brings up what the directory says now. |
| `Readiness.ReadyExactlyWhenItSaysSo` | `crates/oxinit/src/supervisor.rs:1079-1112` | For every list of messages: an activating unit whose process is no other unit's is Active afterwards if and only if some message carries its pid and READY=1, and otherwise still Activating. |
| `Readiness.NoMessageMovesOthers` | `crates/oxinit/src/supervisor.rs:1079-1112` | No message moves a unit in any other state. |
| `Readiness.StrangersChangeNothing` | `crates/oxinit/src/supervisor.rs:1079-1112` | Messages from other processes leave a unit exactly as it was. |
| `Readiness.PingsCount` | `crates/oxinit/src/supervisor.rs:1079-1112` | An active service's last ping is the clock's answer with the last of its WATCHDOG=1 messages, and what it was if there are none. |
| `Readiness.CheckStopsExactlyTheSilent` | `crates/oxinit/src/supervisor.rs:1459-1483` | A watchdog check stops an active service if and only if more than one interval has passed since its last ping; one that has pinged is left as it was, with the next check armed. |
| `Readiness.ForkingIsReadyExactlyWhen` | `crates/oxinit/src/supervisor.rs:706-816` | A forking service whose first process is gone while it was activating is Active if and only if that process exited cleanly and its own cgroup is still populated; otherwise it is Failed, and no restart is scheduled. |
| `Endings.ExitFollowsPolicy` | `crates/oxinit/src/supervisor.rs:706-774` | The exit of a service that was not asked to stop: Restarting with its alarm armed after its own backoff if and only if the policy covers that exit and no shutdown has begun; called off on the way down; otherwise Inactive when clean and Failed when not. |
| `Endings.VanishingIsACrash` | `crates/oxinit/src/supervisor.rs:819-881` | An emptied cgroup of a unit that is up without a process of its own is an abnormal exit to its policy. |
| `Endings.StartTimeoutIsACrash` | `crates/oxinit/src/supervisor.rs:884-1032` | From the alarm to the end: a service whose start timeout fires is stopped, and when it is gone, however it exits, its policy is applied as to an abnormal exit. |
| `Endings.StopRequestNeverRestarts` | `crates/oxinit/src/supervisor.rs:935-1008` | From the request to the end: a service stopped on request ends Inactive with no restart armed, whatever its policy and however it exits. |
| `Endings.KilledStopFails` | `crates/oxinit/src/supervisor.rs:1033-1062` | Once the stop has timed out the unit ends Failed. |
| `Endings.EmptyingEndsStop` | `crates/oxinit/src/supervisor.rs:819-928` | A stop that is over only when the cgroup empties ends the same way then. |
| `Endings.RestartRequestStartsAgain` | `crates/oxinit/src/supervisor.rs:1186-1325` | From the request to the end: a control restart of a running service stops it and starts it again once it is gone, and it is then up if the kernel lets the start happen and Failed if not. |
| `Endings.RefusedChangesNothing` | `crates/oxinit/src/supervisor.rs:1186-1237` | A request that names a unit is refused exactly when there is no such unit, or when it asks for a start or restart on the way down; refused requests change nothing. |
| `Endings.OtherCgroupEventsChangeNothing` | `crates/oxinit/src/supervisor.rs:819-857` | A cgroup event matters only when the cgroup is known and has emptied, and only to a unit that is stopping or is up without a process of its own. |
| `Activations.TimerFires` | `crates/oxinit/src/supervisor.rs:630-672` | A timer that fires arms its next firing if and only if it recurs, on the clock and at the moment its schedule chooses, whatever comes of starting its service; the service is started when it is down and left as it is when it is not. |
| `Activations.TimerStartArms` | `crates/oxinit/src/supervisor.rs:443-476` | Starting a timer unit makes it active and arms its first firing. |
| `Activations.ConnectionStarts` | `crates/oxinit/src/supervisor.rs:1119-1138` | A connection starts the service behind the socket when it is down, and changes nothing when it is not. |
| `ShutdownOrder.StopsBackwards` | `crates/oxinit/src/supervisor.rs:371-381` | The stopping order is the resolved order from its last unit to its first, and then units that are not in it. |
| `ShutdownOrder.StopsBeforeWhatItIsAfter` | `crates/oxinit/src/supervisor.rs:344-381` | In every plan a unit is told to stop before what it was started after. |
| `ShutdownOrder.ShutdownAsksInOrder` | `crates/oxinit/src/supervisor.rs:344-381` | The place in that order is the order of the requests: the unit at place i is given its `stop-sec` from the clock's answer number i. |
| `SupervisionSafety.StartSafe` | `crates/oxinit/src/supervisor.rs:422-582` | Starting a unit keeps waits bounded and exclusion, the batch of alarms still being handled counted as owed. |
| `SupervisionEvents.FireAllKeeps` | `crates/oxinit/src/supervisor.rs:1426-1452` | Handling a popped batch keeps the invariant although the batch has already left the heap: each alarm is owed until it is handled, and its handler re-arms, stops or finds the wait over. |
| `SupervisionEvents.PoppedIsSafe` | `crates/oxinit/src/timer.rs:201-221` | Popping everything due moves deadlines from the heap to the batch and loses none. |
| `Supervisors.Supervisor.constructor` | `crates/oxinit/src/supervisor.rs:102-202` | Loading: a fresh instance for every unit, the resolver's plan as the order or no order at all when it is refused, a cgroup per service that could have one, and the sockets bound in start order. Ties the object to `Boot.Loaded`, the start of the boot theorem. |
| `Supervisors.Supervisor.StopUnit` | `crates/oxinit/src/supervisor.rs:935-1008` | The object's whole new state after a stop: off the queue, backoff cancelled, a unit without a process stopped at once, a busy service Deactivating with its cause and its StopTimeout, anything else untouched. |
| `Supervisors.Supervisor.FindConflicts` | `crates/oxinit/src/supervisor.rs:322-336` | The names found are the unit's own conflicts in declared order, then every other unit declaring one against it in name order, none twice. |
| `Supervisors.Supervisor.StartUnit` | `crates/oxinit/src/supervisor.rs:422-582` | Refused on the way down; otherwise every busy conflicting unit is asked to stop first, and then the unit is activated. |
| `Supervisors.Supervisor.ActivateUnit` | `crates/oxinit/src/supervisor.rs:443-476` | What activation does by kind: targets and sockets become Active, timers become Active and armed, services are launched. |
| `Supervisors.Supervisor.LaunchService` | `crates/oxinit/src/supervisor.rs:478-582` | Limits, then output, then the fork: the first that fails is a failure to start; a `simple` service is Active at once and any other is Activating with a StartTimeout. |
| `Supervisors.Supervisor.ArmTimer` | `crates/oxinit/src/supervisor.rs:589-623` | The next firing goes on the clock the schedule chose and is remembered; none forgets it. |
| `Supervisors.Supervisor.PumpQueue` | `crates/oxinit/src/supervisor.rs:243-298` | The start queue drained in place: the first unit whose ordering is satisfied, failed if something it requires failed and started otherwise, until none is left; on the way down the queue is emptied. |
| `Supervisors.Supervisor.IsReady` | `crates/oxinit/src/supervisor.rs:279-298` | Ready exactly when known and nothing it is `after` is queued or Activating. |
| `Supervisors.Supervisor.HasFailedRequirement` | `crates/oxinit/src/supervisor.rs:301-315` | Answers whether some required unit has Failed. |
| `Supervisors.Supervisor.StartAllUnits` | `crates/oxinit/src/supervisor.rs:233-236` | Boot queues the whole resolved order and pumps. |
| `Supervisors.Supervisor.ReapOne` | `crates/oxinit/src/supervisor.rs:706-774` | One reaped pid: a forking parent still activating is readiness; otherwise the policy decides, a restart on the way down is cancelled, and an exit mid-stop finishes the stop when no populated cgroup is left to wait for. |
| `Supervisors.Supervisor.ForkingParentGone` | `crates/oxinit/src/supervisor.rs:782-816` | A forking unit is ready exactly when its first process exited cleanly and left its cgroup populated. |
| `Supervisors.Supervisor.OnSigchld` | `crates/oxinit/src/supervisor.rs:706-774` | Every reaped child in turn. |
| `Supervisors.Supervisor.OnCgroupChange` | `crates/oxinit/src/supervisor.rs:819-881` | An emptied cgroup ends a stop in progress, or an active unit tracked by its cgroup alone; nothing else. |
| `Supervisors.Supervisor.FinishStop` | `crates/oxinit/src/supervisor.rs:884-928` | The end of a stop: the cause decides the state, a restart is scheduled or cancelled, and a control restart that was waiting starts the unit. |
| `Supervisors.Supervisor.ReceiveOne` | `crates/oxinit/src/supervisor.rs:1079-1112` | A message from a main process updates status and ping, and READY=1 makes an Activating unit Active and arms its watchdog. |
| `Supervisors.Supervisor.OnTimer` | `crates/oxinit/src/supervisor.rs:1426-1452` | Exactly what is due is popped, earliest first, and then handled. |
| `Supervisors.Supervisor.OnWallTimer` | `crates/oxinit/src/supervisor.rs:1410-1424` | The same for wall-clock deadlines, which fire timer units only; a clock step pops nothing. |
| `Supervisors.Supervisor.FireAlarm` | `crates/oxinit/src/supervisor.rs:1436-1450` | Each alarm acts only if its unit is still in the state it bounds. |
| `Supervisors.Supervisor.TimerUnitElapsed` | `crates/oxinit/src/supervisor.rs:630-672` | Re-armed before the service is started, skipped when the service is busy, silent on the way down. |
| `Supervisors.Supervisor.CheckWatchdog` | `crates/oxinit/src/supervisor.rs:1459-1483` | A missed ping stops the unit with cause Watchdog; otherwise the next check is armed. |
| `Supervisors.Supervisor.OnConnection` | `crates/oxinit/src/supervisor.rs:1119-1138` | A connection starts the service only when it is idle. |
| `Supervisors.Supervisor.HandleRequest` | `crates/oxinit/src/supervisor.rs:1186-1237` | State and answer for each control request, unknown units and refusals on the way down included. |
| `Supervisors.Supervisor.StartWhenStopped` | `crates/oxinit/src/supervisor.rs:1313-1325` | Starts an idle unit, remembers any other. |
| `Supervisors.Supervisor.ReloadUnits` | `crates/oxinit/src/supervisor.rs:1248-1299` | Refused whole on a load error; otherwise new and changed idle units get fresh instances and cgroups, running ones keep theirs, and idle ones whose file is gone are forgotten. |
| `Supervisors.Supervisor.StopSequence` | `crates/oxinit/src/supervisor.rs:371-381` | The resolved order backwards, then every other instance. |
| `Supervisors.Supervisor.BeginGoingDown` | `crates/oxinit/src/supervisor.rs:344-356` | Asks every unit to stop in that sequence, once. |
| `Supervisors.Supervisor.IsSettled` | `crates/oxinit/src/supervisor.rs:397-420` | The action exactly when nothing is busy or the shutdown is overdue. |
| `Alarms.PopDue` | `crates/oxinit/src/timer.rs:201-221` | Popping returns everything due and nothing else, earliest first, and leaves the rest: the queue is conserved. |
| `Alarms.ExpiryIsExact` | `crates/oxinit/src/timer.rs:201-221` | What a pop returns and what it leaves are determined deadline by deadline: due ones leave in full multiplicity, later ones stay. |
| `Alarms.ExpiryLosesNothing` | `crates/oxinit/src/timer.rs:201-221` | An alarm outstanding before a pop is still queued or in the batch handed out. |
| `Alarms.Timers.Schedule` | `crates/oxinit/src/timer.rs:127-133` | Adds one deadline `delay` from now and removes none. |
| `Alarms.Timers.WallExpired` | `crates/oxinit/src/timer.rs:149-169` | A clock step pops nothing and leaves every moment as it was. |
| `Services.Instance.Exited` | `crates/oxinit-service/src/lib.rs:266-286` | The object's whole new state and delay after an exit, field by field, equal to the state machine on values. |
| `Services.Instance.Deactivate` | `crates/oxinit-service/src/lib.rs:239-261` | The same for the end of a stop. |
| `Services.Instance.ApplyPolicy` | `crates/oxinit-service/src/lib.rs:289-318` | The same for the restart policy: forgiveness after a long enough run, the delay handed out before the step, the saturating count and the capped doubling. |
| `Services.Instance.EnterActive` | `crates/oxinit-service/src/lib.rs:181-186` | Active, reached, and its ping clock started. |
| `Services.Instance.CancelPendingRestart` | `crates/oxinit-service/src/lib.rs:227-233` | Only a unit waiting out its backoff is affected. |
| `ServicePolicy.BackoffInClosedForm` | `crates/oxinit-service/src/lib.rs:134-318` | In every reachable instance the backoff is `restart-sec` when no restart is counted and min(restart-sec * 2^restarts, 300 s) otherwise, the saturated counter included. |
| `ServicePolicy.ApplyKeepsClosedForm` | `crates/oxinit-service/src/lib.rs:169-318` | Every transition keeps the closed form, and any delay it hands out is the backoff of the restarts counted before the step. |
| `ServicePolicy.Live` | `crates/oxinit-service/src/lib.rs:134-331` | The same of the object over any history, state by state: its backoff is the closed form of its count, every delay it handed out is at most 300 s or `restart-sec`, and every exit that was not asked for is followed by what its policy says of that exit. |
| `ServicePolicy.ExitRestartsExactlyWhen` | `crates/oxinit-service/src/lib.rs:266-331` | For every runtime that is not stopping and every exit: a delay and Restarting if and only if the policy is `always`, or `on-failure` with an exit that is not clean, or `on-abnormal` with an abnormal one; otherwise no delay, Inactive when clean and Failed when not. The delay is the unit's own backoff, or `restart-sec` after a run longer than that. |
| `ServicePolicy.WatchdogStopRestartsExactlyWhen` | `crates/oxinit-service/src/lib.rs:211-331` | A watchdog stop is followed by a restart exactly for a policy that is not `no`, and ends Failed otherwise. |
| `ServicePolicy.ReachedExactlyWhen` | `crates/oxinit-service/src/lib.rs:118-286` | A unit counts as reached exactly from the first time it came up, or finished cleanly as a oneshot, for good. |
| `ServicePolicy.StopOnRequest` | `crates/oxinit-service/src/lib.rs:211-261` | The object stopped on request, with exits, pings, cancellations and timeouts in between: no restart, backoff and count as they were, Failed exactly when a stop timed out. |
| `ServicePolicy.DelaysAreBounded` | `crates/oxinit-service/src/lib.rs:289-318` | No delay handed out in any history exceeds 300 s unless `restart-sec` itself does. |
| `ServicePolicy.StoppingIsInert` | `crates/oxinit-service/src/lib.rs:211-286` | While stopping, exits, pings, cancellations and timeouts in any order change neither cause, backoff, count nor state, and only a timeout marks the kill. |
| `ServicePolicy.RequestedStopEnds` | `crates/oxinit-service/src/lib.rs:211-261` | A requested stop, whatever happens in between, yields no restart, leaves backoff and count as they were, and ends Failed exactly when the stop timed out. |
| `ServicePolicy.WatchdogStopEnds` | `crates/oxinit-service/src/lib.rs:211-318` | A watchdog stop ends with the same delay, state, count and backoff as an abnormal exit taken directly. |
| `Resolver.ResolveFrom` | `crates/oxinit-graph/src/lib.rs:75-88` | Resolution is exact: Ok if and only if the root exists, every `requires` in the closure is present, nothing in it conflicts, its sockets name services and its ordering is acyclic; the plan lists exactly the closure once in an order every edge respects; the warnings are exactly the missing `wants` and ordering names; and which error is returned follows from which check fails first. |
| `Resolver.TopologicalOrder` | `crates/oxinit-graph/src/lib.rs:201-287` | Kahn is sound and complete: Ok if and only if the after/before/socket edges inside the start set are acyclic, the result a permutation of it that every edge respects; otherwise the error's path is the walk of first blocked successors through the largest set of units that wait for one another: a simple cycle if it can go on for as many steps as that set has units, and otherwise a path that ends where nothing in the set follows. |
| `Resolver.Reachable` | `crates/oxinit-graph/src/lib.rs:130-174` | The breadth-first search computes the least set with the root closed under `requires` and existing `wants`, or names a unit of that set and the requirement it lacks. |
| `Resolver.CheckConflicts` | `crates/oxinit-graph/src/lib.rs:177-195` | No error exactly when no unit of the set conflicts with a member; otherwise such a pair. |
| `Resolver.CheckSockets` | `crates/oxinit-graph/src/lib.rs:97-123` | No error exactly when every socket of the set names an existing service; otherwise which and why. |
| `Graph.ClosureIsLeast` | `crates/oxinit-graph/src/lib.rs:130-174` | The closure is closed and inside every closed set: the independent definition the search is proved against. |
| `Graph.OrderedIsAcyclic` | `crates/oxinit-graph/src/lib.rs:201-287` | An order that every edge respects rules out cycles. |
| `Graph.NonemptyBlockedHasCycle` | `crates/oxinit-graph/src/lib.rs:201-287` | A non-empty set in which every unit has a predecessor contains a cycle: why a stuck Kahn means one. |
| `OrderingEdges.AddEdge` | `crates/oxinit-graph/src/lib.rs:343-356` | Declaring an edge twice does not disturb the in-degree count: after any call the count of each unit is the number of distinct predecessors. |
| `OrderingEdges.BuildEdges` | `crates/oxinit-graph/src/lib.rs:201-253` | The edges built are exactly the `after`, inverted `before` and socket edges inside the start set, with exact in-degrees and exact warnings. |
| `Kahn.Drain` | `crates/oxinit-graph/src/lib.rs:255-278` | Every unit placed has all its predecessors placed before it, and what remains counts exactly the unplaced predecessors of each unit. |
| `Kahn.Release` | `crates/oxinit-graph/src/lib.rs:267-278` | Placing one unit decrements each successor once and frees exactly those that reach zero. |
| `Resolver.TangledNamesNoCycle` | `crates/oxinit-graph/src/lib.rs:288-337` | The concrete units: c before d and a, d before c. The resolver's answer is a cycle error naming a alone, which is on no cycle; the comment above `find_cycle` says the walk must revisit a unit. |
| `CycleWalk.FoundIsCycleOrStray` | `crates/oxinit-graph/src/lib.rs:288-337` | The walk goes along edges through blocked units, and closes a simple cycle exactly when first blocked successors can be followed from the first blocked unit for as many steps as there are blocked units; otherwise it repeats nothing and ends where nothing blocked follows. Never both. |
| `CycleWalk.DownstreamUnitStrays` | `crates/oxinit-graph/src/lib.rs:288-337` | The concrete edges c->d, d->c, c->a: all three are blocked and the walk is [a]. |
| `CycleWalk.FindCycle` | `crates/oxinit-graph/src/lib.rs:294-337` | The walk as coded, from the first blocked unit by first blocked successors, with its loop closed at the first repetition; it terminates. |
| `WatchdogRuns.ResetExactlyWhenStarved` | `crates/oxinit-watchdog/src/lib.rs:240-458` | Fed and never reset, starved and always reset: from the start, with any devices appearing at any time and a loop that comes round less than one interval after each `next_wake`, the hardware has reset the machine if and only if the boot went overdue and one whole timeout has passed since the last write. |
| `WatchdogRuns.StarvedForGood` | `crates/oxinit-watchdog/src/lib.rs:387-409` | Once overdue with the device open nothing is ever written again, with no assumption on the loop. |
| `WatchdogRuns.BootVerdict` | `crates/oxinit-watchdog/src/lib.rs:378-458` | The boot is overdue exactly when some round found the deadline passed with the unit not up by then and no shutdown begun, and confirmed exactly when the unit came up and none had; independent of the device. |
| `WatchdogRuns.LateWriteIsJustifiedOrTheLast` | `crates/oxinit-watchdog/src/lib.rs:358-458` | A write to the device at or past `boot-sec`, a pet or the write that opening is, means the unit came up or a shutdown began before any round missed the deadline; or else it is the write that opens the device, late, and nothing is ever written after it. |
| `WatchdogRuns.Feed` | `crates/oxinit/src/watchdog.rs:118-150` | The policy object carried through the loop's turns, shutdown and a missing device included, beside the hardware: in a timely loop the machine is reset if and only if the object has the device open and the boot overdue and the hardware's timeout has passed since the last write; the object's verdict on the boot is what the rounds decide. |
| `Watchdogs.NextWakeIsExact` | `crates/oxinit-watchdog/src/lib.rs:387-433` | `next_wake(now)` is Some(w) if and only if now + w is the first moment at or after now at which a tick does or reports anything, and None if and only if there is no such moment, in every policy with a positive interval. |
| `Watchdogs.QuietChangesNothing` | `crates/oxinit-watchdog/src/lib.rs:387-409` | A tick with nothing to do leaves the policy as it was, so waking for something else does not move the next wake. |
| `Watchdogs.TickActsExactlyWhen` | `crates/oxinit-watchdog/src/lib.rs:378-458` | What a tick decides: an open device is written to once an interval has passed since the last write and never once the boot is overdue; one that is not open is tried at once and then once an interval after each try; a boot still pending is reported confirmed when the unit is up, and overdue when it is not by the deadline and no shutdown has begun. |
| `Watchdogs.PetInterval` | `crates/oxinit-watchdog/src/lib.rs:240-242` | Exactly half the timeout, odd seconds included. |
| `Watchdogs.Policy.DoTick` | `crates/oxinit-watchdog/src/lib.rs:387-409` | The object's whole new state and its decision, equal to the policy on values. |
| `Watchdogs.Policy.UpdateBoot` | `crates/oxinit-watchdog/src/lib.rs:439-458` | A unit that came up in the same wake-up as the deadline came up in time; a shutdown suspends the deadline. |
| `Watchdogs.Policy.SleepBound` | `crates/oxinit-watchdog/src/lib.rs:413-433` | The loop's bound as computed by the object. |
| `Watchdogs.Policy.DeviceOpened` | `crates/oxinit-watchdog/src/lib.rs:358-365` | Opening counts as a write, and the interval follows the timeout the driver settled on, or one second when it says none. |
| `Watchdogs.ResolvedIsSound` | `crates/oxinit-watchdog/src/lib.rs:186-213` | Every configuration accepted starts a policy with a positive interval and carries the timeout asked for, to the nanosecond. |
| `Watchdogs.ResolvesWhatWasAsked` | `crates/oxinit-watchdog/src/lib.rs:186-240` | A configuration results exactly from a timeout of whole seconds in range with a boot unit and a deadline given together, and carries the timeout, the device, and the unit with the time it has; a deadline of zero turns the boot check off. |
| `Watchdogs.CommandLineComesFirst` | `crates/oxinit-watchdog/src/lib.rs:172-184` | Each setting is the command line's where that has one and the file's otherwise. |
| `Watchdogs.CommandLineTurnsItOff` | `crates/oxinit-watchdog/src/lib.rs:172-213` | A zero timeout on the command line means no watchdog, whatever else either source says, its errors included. |
| `LogPipeline.OutputReachesTheLog` | `crates/oxlogd/src/main.rs:179-432` | End to end, from any directory and over any run with any number of pipes per unit, one after another or at once, up to the end of the socket: what survives of a unit's log is the end of what was there and what was written since, and of what was written since the part from each pipe whose lines are below the bound is exactly that pipe's own lines, and its last words once its writer or the socket is gone. |
| `LogPipeline.NothingIsHeldBack` | `crates/oxlogd/src/main.rs:270-307` | Once the socket has closed no pipe is held: each had broken, or has been written out to its last byte. |
| `LogPipeline.OnePipeReachesTheLog` | `crates/oxlogd/src/main.rs:179-432` | A unit with one pipe leaves exactly that pipe's lines, in order. |
| `LogPipeline.PipeLeavesItsLines` | `crates/oxlogd/src/main.rs:294-357` | Whatever other pipes do meanwhile, what the shipper writes from one pipe is what that pipe's own reads make: its lines, and its last words exactly when it was read to its end or the socket closed first. |
| `LogPipeline.Serve` | `crates/oxlogd/src/main.rs:179-307` | The shipper with its sources as objects, announcements and reads in any order, up to the end of the socket: its files are what that run of the pipes writes and nothing else. |
| `LogPipeline.DrainAll` | `crates/oxlogd/src/main.rs:294-307` | Every pipe still held gives up its last words, in the order the pipes came. |
| `LogRuns.LogsAreASuffix` | `crates/oxlogd/src/main.rs:360-432` | For every sequence of records and every unit, the surviving generations oldest to newest followed by the live file are a suffix of what was there and what was written since. |
| `LogRuns.LossNeedsAFullFile` | `crates/oxlogd/src/main.rs:360-432` | With a generation kept, a unit's log is still whole or holds more than `max_size` bytes. |
| `LogLoss.LossNeedsFullFiles` | `crates/oxlogd/src/main.rs:360-432` | What a loss takes, from a directory without a gap among the unit's generations and with each older file, together with the record that closed it, over the limit, which every run keeps: the log is whole, or every one of its `keep` old files and the live one is there, each older file over `max_size` with the record that closed it. |
| `LogLoss.LossFromNothing` | `crates/oxlogd/src/main.rs:360-432` | From an empty directory that needs no assumption: the log is everything the unit said, or every generation is there and full in that sense. |
| `LogLoss.LimitIsKeptExactlyBelowLargest` | `crates/oxinit-log/src/lib.rs:196-198` | No file exceeds `max_size` unless it holds a single record, over every run of records the shipper makes, if and only if the limit is below the largest 64-bit number; at that number short lines pile up past it in one file. |
| `Splitting.EmittedAreBounded` | `crates/oxinit-log/src/lib.rs:116-154` | No line the splitter emits from reads of one buffer holds a newline or reaches `MAX_LINE` plus that buffer: what makes a record of the shipper's. |
| `LogFiles.LargestLimitNeverRotates` | `crates/oxinit-log/src/lib.rs:196-198` | A size limit ever leads to a rotation exactly when it is below the largest 64-bit number. |
| `LogRuns.NoOlderThanKeep` | `crates/oxinit-log/src/lib.rs:205-228` | However long the run, no unit has an old file past generation `keep`. |
| `LogRuns.FewFiles` | `crates/oxinit-log/src/lib.rs:164-169` | So a unit has at most `keep` old files and a live one. |
| `LogRuns.FilesReadBack` | `crates/oxinit-log/src/lib.rs:81-85` | A file cut at its newlines is the records that were written to it. |
| `LogRuns.DrainingIsSplitting` | `crates/oxlogd/src/main.rs:316-357` | Reading a pipe to its end, retries included, yields exactly what the splitter makes of everything written to it, last words without a newline included. |
| `LogRuns.Shipper.WriteLine` | `crates/oxlogd/src/main.rs:360-395` | The object's directory, files and handles after one record: rotate first if it would not fit, drop the handle that would follow its file, reopen, append. |
| `LogRuns.Shipper.RotateUnit` | `crates/oxlogd/src/main.rs:421-432` | The plan carried out move by move, missing files ignored. |
| `LogRuns.Shipper.OpenSink` | `crates/oxlogd/src/main.rs:397-414` | The handle leads to the live file, made if missing, with the size it has. |
| `LogRuns.Shipper.Drain` | `crates/oxlogd/src/main.rs:316-357` | One read: every line it completes is written, end of file flushes the last words, a retry changes nothing. |
| `LogStore.WriteExtendsLog` | `crates/oxlogd/src/main.rs:360-395` | One write drops at most the oldest records, puts the new one last in the live file and, with a generation kept, loses something only when more than `max_size` bytes remain. |
| `LogStore.WriteLeavesOthers` | `crates/oxlogd/src/main.rs:360-395` | One unit's write changes no file of any other unit, dots in names notwithstanding. |
| `LogFiles.PathsAreDistinct` | `crates/oxinit-log/src/lib.rs:45-47` | No file name belongs to two units, or to one unit's log twice. |
| `LogFiles.PlanShifts` | `crates/oxinit-log/src/lib.rs:205-228` | A rotation moves every generation one older, drops the oldest, frees the live name and touches nothing else: the effect of the move order, which the reverse order would not have. |
| `LogFiles.Plan` | `crates/oxinit-log/src/lib.rs:205-228` | The loop's moves, oldest first. |
| `LogFiles.RecordIsOneLine` | `crates/oxinit-log/src/lib.rs:81-85` | A record is one line ending with the line given, byte for byte. |
| `Stamps.StampReadsBack` | `crates/oxinit-log/src/lib.rs:73-85` | A record's stamp is digits, a point and exactly six digits, and reads back as the moment it was made. |
| `Splitting.StreamConserves` | `crates/oxinit-log/src/lib.rs:116-141` | Over every chunking, the lines emitted followed by what is held are the input minus its newlines. |
| `Splitting.ChunkingDoesNotMatter` | `crates/oxinit-log/src/lib.rs:116-141` | When every line is below the bound, the lines emitted and what is held are exactly the newline split of the whole input, however it was cut. |
| `Splitting.CutMattersExactlyForLongLines` | `crates/oxinit-log/src/lib.rs:88-141` | Exactly when the cut does not matter: every way of reading a text, each read within one read's size, gives the newline split if and only if every line, the unfinished last one included, is below `MAX_LINE`. |
| `Splitting.LongLinesAreCutByReads` | `crates/oxinit-log/src/lib.rs:88-141` | The concrete case at the bound, in reads oxlogd makes: one line is one record when its last byte and newline come together and two when the newline comes alone. |
| `Splitting.HeldIsBounded` | `crates/oxinit-log/src/lib.rs:116-141` | What is held has no newline and stays below `MAX_LINE` after every push. |
| `Splitting.Splitter.Feed` | `crates/oxinit-log/src/lib.rs:116-141` | The object's buffer and what it emits for one read. |
| `Splitting.Splitter.Flush` | `crates/oxinit-log/src/lib.rs:148-154` | What is held, once, or nothing. |
| `Calendars.NextAtIsExact` | `crates/oxinit-timer/src/lib.rs:94-144` | `next_at` is the least moment at or after `now` the schedule names, weekly being Monday midnights. |
| `Calendars.EveryMomentFiresOnce` | `crates/oxinit-timer/src/lib.rs:258-269` | `calendar_at` iterated at its own results visits every later named moment, no other, once each and in increasing order. |
| `Calendars.LateWakeupsSkip` | `crates/oxinit-timer/src/lib.rs:258-269` | A timer re-armed from the clock when its firing is handled, however late: it fires for exactly the named moments that did not go by between an earlier firing coming due and being handled, each once and in order. |
| `Calendars.Schedule.First` | `crates/oxinit-timer/src/lib.rs:244-246` | A schedule that is not empty has a first firing. |
| `Calendars.Schedule.Following` | `crates/oxinit-timer/src/lib.rs:258-260` | A firing is followed by another exactly when the schedule has an interval or a calendar. |
| `Calendars.OnBootIsForTheFirst` | `crates/oxinit-timer/src/lib.rs:244-265` | Where `on-boot` is given `interval` has no say in the first firing; where it is not, the first firing is like any other; every later firing is the sooner of the interval and the calendar's next moment. |
| `Calendars.Sooner` | `crates/oxinit-timer/src/lib.rs:277-290` | The choice is one of the two, unchanged and on its own clock, and due no later than either. |
| `CalendarTexts.TimesAreExact` | `crates/oxinit-timer/src/lib.rs:57-87` | A time of day is accepted exactly when the text is two or three in-range numbers between colons, and then as that time, an absent second being zero. |
| `CalendarTexts.PrintingRoundTrips` | `crates/oxinit-timer/src/lib.rs:57-135` | Every schedule prints as text that parses back to it. |
| `CalendarTexts.AcceptedIsInRange` | `crates/oxinit-timer/src/lib.rs:57-87` | Nothing accepted is out of the ranges the arithmetic relies on. |
| `Exec.QuotingRoundTrips` | `crates/oxinit-unit/src/exec.rs:25-116` | Backslash-escaping every character, quoting empty arguments, doubling `%` and joining with spaces parses back to the argv, for every argv and every meaning of the specifiers; it is refused exactly when there is no program or it is not absolute. |
| `Exec.SplittingIsCompositional` | `crates/oxinit-unit/src/exec.rs:68-116` | When a command line splits, a space and more text mean its arguments followed by the more's, or the more's error. |
| `CommandLines.SplittingIsExact` | `crates/oxinit-unit/src/exec.rs:66-116` | A command line splits into an argv if and only if it is a line of words, made of open characters, escapes and runs between quotes, that mean that argv; white space and the other quote inside a run included. |
| `CommandLines.QuotedRunIsOneArgument` | `crates/oxinit-unit/src/exec.rs:66-116` | Between two quotes it does not hold, text without a backslash is one argument, white space and all. |
| `CommandLines.ExpansionIsExact` | `crates/oxinit-unit/src/exec.rs:39-63` | Accepted exactly when every per cent sign begins a known specifier, and then with each replaced by what it stands for: %n the name, %N the full name, %H the host name, %u the user, %% a per cent sign. |
| `CommandLines.ParsingIsExact` | `crates/oxinit-unit/src/exec.rs:25-37` | `exec` is accepted as an argv if and only if it reads as that argv, specifiers before quotes, and its program is absolute. |
| `CommandLines.StylesRoundTrip` | `crates/oxinit-unit/src/exec.rs:25-116` | Writing every argument in any of the three ways, escaped or between either quote, and parsing gives the arguments back. |
| `Exec.DoExpand` | `crates/oxinit-unit/src/exec.rs:43-65` | The loop computes the substitution, unknown and trailing specifiers being errors. |
| `Exec.DoSplit` | `crates/oxinit-unit/src/exec.rs:68-116` | The loop with its pending word, quote and escape computes the character automaton, its errors included. |
| `Exec.DoParse` | `crates/oxinit-unit/src/exec.rs:25-37` | Expansion before splitting, then an absolute program. |
| `Durations.DurationsAreExact` | `crates/oxinit-unit/src/value.rs:28-93` | Accepted as a total if and only if the text is a non-empty run of number and known-suffix pairs, white space only around them, whose exact sum is that total and fits 64 bits. |
| `Durations.ReadingDecides` | `crates/oxinit-unit/src/value.rs:49-93` | Any text that reads as such pairs parses to their sum, and to the overflow error exactly when it does not fit. |
| `Durations.DurationsAdd` | `crates/oxinit-unit/src/value.rs:49-93` | Two accepted texts written one after the other are accepted exactly when their sum fits, as that sum. |
| `Durations.UnitsAreInProportion` | `crates/oxinit-unit/src/value.rs:28-43` | Each unit's names mean the same, and the units are as many of one another as they should be. |
| `Durations.DoParse` | `crates/oxinit-unit/src/value.rs:49-93` | The loop computes the sum or the first error in the order the code checks for them. |

## Left out

- System calls and descriptors: epoll, signalfd, timerfd, sockets, mounts, fork and exec, pipes, signals sent to processes and cgroups. Only their outcomes enter the model.
- `timerfd_settime` is assumed to succeed. When it fails, `expired` returns an error and drops the alarms it had popped.
- Each operation reads the clock once; the code reads it again for each deadline it arms, moments later.
- The binary heaps are multisets whose least deadlines come out first; deadlines that are equal come out in any order.
- The supervisor's map holds instances as values, as the program's map owns them; `Services.Instance` is the same state machine as an object, and the two are proved equal transition by transition.
- Of a unit only what the decisions read is kept; `exec`, `user`, `environment`, `listen` and the like are not, so two definitions that differ only there are equal to `reload` here and different to the program.
- TOML decoding and the validation of units and directories; a reload is assumed to read units the parser accepts (a watchdog only on a notify service, a schedule that is in range and not empty).
- `sync_sockets`, which watches a socket exactly while its service is idle: a connection may arrive at any time here, which covers it.
- The control protocol's framing, the status it reports, console text, accounting and `oxctl`.
- Lower bounds on time: alarms are never cancelled, so one left over from an earlier start can end a later wait early. Upper bounds are claimed.
- One main process per unit, which is false of the program: `start` does not check that a unit is idle and does not take it off the queue, so a control start of a running unit forks another (`Tracking.StartForgetsExactlyWhen`, `Tracking.StartRequestForgets`).
- Boot progress across a reload, which can delete or re-wire a queued unit; every other supervisor theorem includes reloads.
- Integers are unbounded except where a width decides something: restart counts saturate at 32 bits, duration sums and log sizes at 64. `NextAt` and the schedule arithmetic agree with the program for every moment below 2^64 seconds less ten days.
- Errors of the log writer's file operations, which the program reports and carries on from; a missing file during a rotation is modelled.
- A byte of a log is a character here; nothing depends on there being 256 of them. Unit names are taken to be plain file names.
- `Settings::from_cmdline` and `watchdog.toml` decoding: the layering and the resolution of what they yield are modelled.
- A watchdog left running by an initramfs before oxinit opens it, the magic close at the end of a shutdown, and a write to the device that fails.
- BootVerdict: the unit that confirms the boot is an input of each round; that it is `reached` of the configured unit is wiring in the main loop.
- `parse_size`, the fully-qualified name and host name lookups behind the specifiers, user and group resolution, container detection and the paths crate: short checks around a library call.
