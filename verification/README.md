# Verified model of The Forge's unit graph engine

The Forge is an init system. Its core activates the units that a boot target pulls in, resolves their ordering, starts
them in waves, supervises the processes it started, and passes listening sockets on to them. This project models that
core in Dafny and proves what it guarantees for every unit graph, every order of hash iteration, and every outcome of
the operating system calls behind it.

| file | content |
|---|---|
| `Units.dfy`, `Names.dfy`, `Graphs.dfy` | units and errors; name order and sorting; walks, reachability, cycles |
| `ForgeModel.dfy` | the scheduler's state as a value, its invariant, and the graphs its searches follow |
| `Activation.dfy` | target closure, socket fixpoint, required units |
| `Resolution.dfy` | dependency lists together with their reverse index |
| `Waves.dfy`, `Countdown.dfy`, `Scheduling.dfy` | what a layered schedule is, what degree counters make of any index, and the loop that counts |
| `BootPlan.dfy`, `BootLog.dfy` | which units the boot loop attempts, in what order, and what the log of a boot says about it |
| `ReverseIndex.dfy`, `Schedules.dfy` | what the reverse index holds after resolution, where it is not exact, and when there is a schedule |
| `Devices.dfy` | devices that start their service once |
| `NamedGraphs.dfy` | the graphs that closure and resolution follow, read off the names in the units' fields |
| `ExitOutcomes.dfy`, `StartOutcomes.dfy`, `StopOutcomes.dfy`, `OperationOutcomes.dfy`, `BootOutcomes.dfy` | when exits, starts, stops, restarts, turns of the drain, devices and boots work and what they leave, by the fields of the units and what the environment decided |
| `Supervision.dfy`, `Keeping.dfy`, `Runs.dfy` | supervision steps as functions, what each keeps, and whole runs |
| `ForgeState.dfy` | the class whose methods update the state in place |
| `Guarantees.dfy` | start order, stop order and deadlock, over whole dependency chains |
| `PidIndex.dfy`, `PidExamples.dfy` | when pids and services determine each other, and runs after which they do not |
| `RestartLimiter.dfy`, `RestartDrain.dfy`, `DrainExamples.dfy` | the sliding-window limit on restarts, and the drain of the restart queue |
| `FdPassing.dfy` | descriptor renumbering in the child, and the LISTEN_PID text |
| `Jobs.dfy` | the job queue under concurrent manager calls |
| `Runlevels.dfy` | the marker database and runlevel inheritance |
| `Native.dfy` | loading native unit files and their `before` edges |

The unit arena never removes a unit, so a key is modelled as its position. Hash iteration is a choice among the
elements left. System calls, parsers and clocks appear as parameters or arbitrary choices: the record `World` holds
what the environment decides during one service start. The class methods equal functions on the state they find, and
the searches and the scheduling loop work on a value of that state; the invariants and theorems are about those
functions, and what each of them does is stated on the units' own fields as well. Restarts within the drain read the clock anywhere inside a span of 60-second windows.

Where the code differs from a comment, or from what a reader may expect, the model follows the code. Three such places
are proved: the required set holds every active unit, wider than the comment at its definition
(`ForgeStates.ClosureRequiresActive`), a unit ordered after an active timer is never released
(`BootOutcomes.NamedTimerDeadlocks`), and a duplicate definition is dropped while its virtual names are kept
(`Runs.DuplicateKeepsFirst`). Seven properties fail outside a condition. For each the condition is proved, and an input
that fails it:

| property | holds | fails at |
|---|---|---|
| recorded pids stay indexed | `Keeping.RecordSlots` | `PidExamples.SharedDaemonReached` |
| an exit leaves the slots of other processes alone | `PidIndex.ExitSlotExact`, `PidIndex.RecordInverse` | `PidExamples.SecondStartReached` |
| the reverse index is exact | `ReverseIndex.FailedResolutionIndex`, `ReverseIndex.LateActivationIndex` | `ReverseIndex.FailedResolutionInexact` |
| no degree is counted below zero | `Scheduling.BootWaves` | `Schedules.FailedResolutionUnderflows` |
| the restart drain ends | `ForgeStates.ForgeState.ProcessPendingRestarts` | `DrainExamples.DrainNeedNotEnd` |
| a finish hits its own job | `Jobs.StepExact`, `Jobs.InFlightExact` | `Jobs.TakenIdFinishesOlder`, `Jobs.WrappedIdFinishesOlder` |
| enabling and disabling are local | `Runlevels.EnableLocalExact`, `Runlevels.DisableLocalExact` | `Runlevels.UnseededEnableTurnsOff`, `Runlevels.UnseededDisableTurnsOn` |

## Model

| member | source | states |
|---|---|---|
| `Graphs.ReachSetLeast` | the-forge/forge-core/src/service/forge.rs:832-899 | Reachability over the edges is the least set that holds the seeds and is closed under the edges. |
| `NamedGraphs.ActivatedExact` | the-forge/forge-core/src/service/forge.rs:838-986 | What a target activates before the filter, by the fields alone: the least set that holds the target and, for each of its units, whatever answers by real or virtual name to what a target or service requires or wants, a socket activates or a device starts; and then the least set with these that holds the sockets its services name. |
| `NamedGraphs.UnansweredExact` | the-forge/forge-core/src/service/forge.rs:855-880 | The search meets an unresolvable requirement if and only if a unit of that set requires, or as a socket activates, a name that is in neither index. |
| `Activation.TargetClosure` | the-forge/forge-core/src/service/forge.rs:832-899 | The breadth-first search ends, also on cyclic graphs, and returns exactly the units reachable from the target over requires, wants, socket-service and device-service edges. It fails if and only if the boot is not lenient and a reachable unit requires an unresolvable name, and the error names such a unit and name. |
| `Activation.ExpandSocketDependencies` | the-forge/forge-core/src/service/forge.rs:968-985 | The socket fixpoint ends with exactly the units that the start set reaches over services' socket names, whatever the iteration order. |
| `Activation.CollectRequiresFrom` | the-forge/forge-core/src/service/forge.rs:947-962 | The depth-first search with a shared seen set only adds units it reaches from the key, and everything a new unit hard-requires is seen too; it ends on cyclic graphs. |
| `Activation.CollectRequiredUnits` | the-forge/forge-core/src/service/forge.rs:939-945 | The required set is exactly what the active units reach over hard requirements resolved by real name. |
| `ForgeStates.ClosureRequiresActive` | the-forge/forge-core/src/service/forge.rs:938-945 | Every active unit counts as required, which is wider than the comment on the function says. |
| `BootOutcomes.ClosureExact` | the-forge/forge-core/src/service/forge.rs:815-985 | The active set is that set without the services that a seeded marker database does not mark for the target, and the required set is the least set that holds the active set and whatever its units require, by real names only. |
| `BootOutcomes.GraphFailsExact` | the-forge/forge-core/src/service/forge.rs:815-1033 | Closure or resolution fails if and only if the target name is not that of a target, or the boot is not lenient and a reached unit requires, or an active unit starts after, a name that is in neither index. |
| `ForgeStates.ForgeState.ResolveTargetClosure` | the-forge/forge-core/src/service/forge.rs:815-912 | On success the active set is the reachable set closed under sockets and filtered by runlevel, the required set follows from it, and nothing else changes; on any error nothing changes, and each error has its exact cause. |
| `Activation.FilterExact` | the-forge/forge-core/src/service/forge.rs:914-936 | The runlevel filter drops, in a seeded marker database, exactly the services that no level inherited by the target marks or that declare no such level; it never drops another kind of unit, and without a seed it drops nothing. |
| `Activation.FilterInherits` | the-forge/forge-core/src/service/forge.rs:914-936 | A target whose level inherits another's keeps at least the units that the other keeps, in any database. |
| `Resolution.TransposePush` | the-forge/forge-core/src/service/forge.rs:1038-1042 | Adding an entry to a forward list together with one to the index keeps the index the multiset transpose of the lists. |
| `Resolution.ResolveUnit` | the-forge/forge-core/src/service/forge.rs:1007-1045 | One unit's names resolve to its dependency list, repeated entries included, with the index kept transposed. It fails exactly on an unresolvable name in a boot that is not lenient; then the first such name is reported, and exactly the entries of the names before it are indexed. |
| `Resolution.ResolveAll` | the-forge/forge-core/src/service/forge.rs:987-1048 | In any iteration order the active units get their lists and the index is their transpose. It fails exactly when an active unit orders after an unresolvable name; then the lists finished so far stay, and the index is the transpose of these and of the stopped unit's entries up to its missing name. |
| `ForgeStates.ForgeState.ResolveDependencies` | the-forge/forge-core/src/service/forge.rs:987-1048 | After success the reverse index equals the multiset transpose of the active units' lists and each list is the resolved `after` names followed by new hard requirements. After a failure some units are finished, one is indexed up to its missing name, and the error names both. Only lists and index ever change. |
| `NamedGraphs.DependsExact` | the-forge/forge-core/src/service/forge.rs:987-1048 | After a successful resolution, by the fields alone: an active unit lists d if and only if d is active, is not a target, and answers by real or virtual name to an `after` entry or a service's requirement; it lists d once for each such entry and once for each further required name. |
| `ReverseIndex.FailedResolutionIndex` | the-forge/forge-core/src/service/forge.rs:1023-1033 | After a failed resolution the index is exact if and only if, before it began, the unit it stops at listed just the entries up to its missing name, and every other unit it did not reach had an empty list. |
| `ReverseIndex.FailedResolutionInexact` | the-forge/forge-core/src/service/forge.rs:1023-1033 | An input where exactness fails: with unit a ordered after unit b and after a missing name, every resolution stops at a with an inexact index, on which the first wave would count a's degree, zero, further down. |
| `ReverseIndex.FailedResolutionCounts` | the-forge/forge-core/src/service/forge.rs:1023-1033 | After a failed resolution the index counts no more than the lists, for bootable units, if and only if the stopped unit, if bootable, listed before at least the bootable entries up to its missing name. |
| `ReverseIndex.LateActivationIndex` | the-forge/forge-core/src/service/forge.rs:1458 | Activating a further unit after resolution keeps the index exact if and only if that unit has no dependency list. |
| `ReverseIndex.LateActivationCounts` | the-forge/forge-core/src/service/forge.rs:1458 | It never makes the index count more than the lists. |
| `Runs.RunCountsDown` | the-forge/forge-core/src/service/forge.rs:1202-1214 | Whatever is registered, started, stopped or reaped after a resolution that succeeded, no later schedule counts a degree below zero. |
| `Countdown.PendingRelease` | the-forge/forge-core/src/service/forge.rs:1202-1214 | Finishing a unit lowers the open entries of a list by exactly its multiplicity in the list. |
| `Countdown.HitsPending` | the-forge/forge-core/src/service/forge.rs:1182-1209 | On an index that agrees with a list, the entries counted so far and the entries still open add up to its length. |
| `Scheduling.Release` | the-forge/forge-core/src/service/forge.rs:1203-1214 | Counting down the dependents of a finished unit queues a unit exactly when as many entries were counted as its list is long, once; it stops exactly at an entry for a unit whose degree is zero. |
| `Scheduling.ProcessWave` | the-forge/forge-core/src/service/forge.rs:1202-1215 | Unless a degree would go below zero, after a wave the ready queue holds exactly the unstarted units of degree zero, each once. |
| `Scheduling.BootWaves` | the-forge/forge-core/src/service/forge.rs:1181-1223 | On any index, exact or not, the degree-counting loop would count below zero if and only if in some round the index entries at the units started so far outnumber some unit's list; otherwise it yields the rounds of the counters, each in name order, and reports completeness exactly. |
| `Countdown.RoundsAreLayering` | the-forge/forge-core/src/service/forge.rs:1181-1223 | On an index that agrees with a graph's lists the rounds of the counters are the declarative layering of the graph. |
| `ForgeStates.ForgeState.BootWaves` | the-forge/forge-core/src/service/forge.rs:1181-1223 | On every index on which no degree goes below zero it fails with a cycle error if and only if some bootable unit's counter never reaches zero; otherwise it returns the rounds of the counters, which hold every bootable unit. |
| `Schedules.CountedExact` | the-forge/forge-core/src/service/forge.rs:1181-1223 | If the index counts for no pair of bootable units more than the list, no degree goes below zero, the counters stall exactly if units deadlock or an entry is not counted, and the waves returned are exactly the complete layering of the lists. |
| `Schedules.SpareEntryCounts` | the-forge/forge-core/src/service/forge.rs:1181-1223 | That condition is not needed: an index entry that no list has may stand in for an entry on a timer, and the schedule still completes. |
| `Schedules.ExactSchedules` | the-forge/forge-core/src/service/forge.rs:1181-1223 | After a successful resolution no degree goes below zero, the counters stall exactly if a set of bootable units is blocked, each member waiting for one inside the set or for one that is not bootable, and the waves are the complete layering of the lists. |
| `Waves.StartedSettles` | the-forge/forge-core/src/service/forge.rs:1196 | Stopping when nothing is ready loses nothing: after an empty round no unit would ever start. |
| `Waves.PositionUnique` | the-forge/forge-core/src/service/forge.rs:1193-1217 | In a complete layering every bootable unit has exactly one position, and all its dependencies are in strictly earlier waves. |
| `Waves.CoverageExact` | the-forge/forge-core/src/service/forge.rs:1219-1221 | The layering misses a unit if and only if a blocked set exists. |
| `Waves.BlockedMeansCycle` | the-forge/forge-core/src/service/forge.rs:1219-1221 | If all dependencies of bootable units are bootable, blocked sets exist exactly when dependency cycles do. |
| `Waves.WaveIsLongestChain` | the-forge/forge-core/src/service/forge.rs:1188-1217 | A unit's wave number is the length of its longest dependency chain. |
| `Waves.WaveIsEarliest` | the-forge/forge-core/src/service/forge.rs:1188-1217 | No valid schedule starts a unit before its wave, so none has fewer waves. |
| `Waves.ScheduleExists` | the-forge/forge-core/src/service/forge.rs:1219-1222 | The layering is complete if and only if any valid schedule of the bootable units exists. |
| `Names.SortedUnique` | the-forge/forge-core/src/service/forge.rs:1199 | A wave in name order is determined by its set of units. |
| `Names.BeforeExact` | the-forge/forge-core/src/service/forge.rs:1199 | The order of two names is decided at the first place where they differ, and a name comes before its continuations. |
| `Waves.LayeringUnique` | the-forge/forge-core/src/service/forge.rs:1188-1217 | The list of waves does not depend on hash iteration order. |
| `Guarantees.DeadlockIsCycle` | the-forge/forge-core/src/service/forge.rs:1181-1221 | With bootable dependencies only, the cycle error occurs exactly on a real dependency cycle. |
| `BootOutcomes.NamedTimerDeadlocks` | the-forge/forge-core/src/service/forge.rs:1035-1062 | A bootable unit that names an active timer in `after` or as a requirement blocks the whole schedule, as coded. |
| `BootOutcomes.NamedTimerFailsBoot` | the-forge/forge-core/src/service/forge.rs:1251-1274 | A boot whose closure holds such a unit and its timer fails before it starts anything, unless it is lenient. |
| `Guarantees.DeadlockExact` | the-forge/forge-core/src/service/forge.rs:1035-1062 | After a successful resolution there is no schedule if and only if a bootable unit lists an active timer or a dependency cycle starts at a bootable unit. |
| `Guarantees.NamedStartsEarlier` | the-forge/forge-core/src/service/forge.rs:1007-1045 | A unit named in `after` or `requires`, by real or virtual name, is in a strictly earlier wave. |
| `Guarantees.StopOrderComplete` | the-forge/forge-core/src/service/forge.rs:2450-2461 | The stop order of any waves that hold each bootable unit once lists every bootable service exactly once and nothing else. |
| `Guarantees.StopsBeforeDependencies` | the-forge/forge-core/src/service/forge.rs:2450-2461 | A service stops before every service it depends on through any chain of units, sockets and mounts included. |
| `Guarantees.StopOrderExact` | the-forge/forge-core/src/service/forge.rs:2450-2461 | Of two services in the stop order the first is in the later wave, or in the same wave and earlier by name. |
| `ForgeStates.ForgeState.StopOrder` | the-forge/forge-core/src/service/forge.rs:2450-2461 | The stop order is the services of the computed waves, latest wave first; it fails exactly when the counters stall, on every index on which no degree goes below zero. |
| `BootPlan.PlanCovers` | the-forge/forge-core/src/service/forge.rs:1277-1318 | The plan of the wave loop contains exactly the active sockets, mounts and services. |
| `BootPlan.PlanOnce` | the-forge/forge-core/src/service/forge.rs:1277-1318 | No unit is planned twice. |
| `BootPlan.PlanOrderExact` | the-forge/forge-core/src/service/forge.rs:1277-1337 | The plan goes wave by wave, in each through its sockets, then mounts, then services, each in the order of the wave, and then reaps. |
| `BootOutcomes.WavesHold` | the-forge/forge-core/src/service/forge.rs:1050-1063 | The waves of a boot hold every active unit but targets and timers. |
| `BootOutcomes.AttemptsExact` | the-forge/forge-core/src/service/forge.rs:1283-1318 | A boot that finishes attempts exactly the active services, sockets and mounts. |
| `BootOutcomes.AttemptExact` | the-forge/forge-core/src/service/forge.rs:1283-1425 | What each attempt in the log of any boot did, by the fields and what the environment decided: when it worked, the state it left the unit in, Failed after an error, the slot and the index. |
| `ForgeStates.ForgeState.PassUnit` | the-forge/forge-core/src/service/forge.rs:1284-1293 | One unit's turn in a pass attempts it exactly if it is of the pass's kind; the log then records the attempt with the state before, the state after and the result, and the loop ends exactly when that is an error, the boot is strict and the unit is required. |
| `ForgeStates.ForgeState.RunWaves` | the-forge/forge-core/src/service/forge.rs:1277-1337 | The loop carries out the plan, entry by entry, each on the state the one before it left, to its end or up to the first failure that a strict boot cannot accept, which it reports; every wave that finishes is followed by a reaping, and the graph stays. |
| `ForgeStates.ForgeState.PlanWaves` | the-forge/forge-core/src/service/forge.rs:1263-1274 | On a cycle error a lenient boot runs all bootable units as one wave, any other boot fails. |
| `ForgeStates.ForgeState.PrepareGraph` | the-forge/forge-core/src/service/forge.rs:1251-1253 | The active and required sets become those of the target's closure and the lists and index those of a resolution over it. It fails if and only if there is no target, or the boot is not lenient and the target reaches a missing requirement or an active unit orders after a missing name; a failed closure changes nothing. |
| `ForgeStates.ForgeState.PrepareBoot` | the-forge/forge-core/src/service/forge.rs:1251-1274 | Closure, resolution and scheduling give waves that partition the bootable units of the target's resolved graph; it fails exactly if one of the three does, the last only in a boot that is not lenient. |
| `ForgeStates.ForgeState.BootParallel` | the-forge/forge-core/src/service/forge.rs:1251-1349 | A boot fails before any attempt exactly if closure, resolution or, unless lenient, scheduling fails, and then leaves what these left. Otherwise the planned state has the target's closure and resolved lists, and from it the wave loop carries out the plan as far as it goes, with its result; if the loop ends well, the services of the devices then present are started, and a failure among those is ignored. |
| `ForgeStates.ForgeState.ActivateDeviceByKey` | the-forge/forge-core/src/service/forge.rs:1150-1165 | A device is marked and its service started by name, once; anything else is left alone. |
| `ForgeStates.ForgeState.ActivateReadyDevices` | the-forge/forge-core/src/service/forge.rs:1167-1179 | The devices whose path exists are activated one after the other in arena order, up to the first failure. |
| `Devices.DevicesRunActivates` | the-forge/forge-core/src/service/forge.rs:1150-1179 | Such a pass marks exactly the ready devices, up to and including the first whose service fails to start, and changes no definition, list or other device. |
| `Devices.DevicesRunPresent` | the-forge/forge-core/src/service/forge.rs:1167-1179 | Only devices whose path exists are activated, and, if the pass succeeds, all of them. |
| `OperationOutcomes.DeviceExact` | the-forge/forge-core/src/service/forge.rs:1150-1165 | The first activation of a device marks it, makes the service that answers to its name active, works if and only if there is one and its start succeeds, and leaves it as a start does. |
| `BootLog.StrictBootComplete` | the-forge/forge-core/src/service/forge.rs:1277-1337 | In a strict boot success means that every active socket, mount and service was attempted exactly once and nothing else was, and that each attempt, activation by kind and the mark of a failure, returned Ok on the state it found. |
| `BootOutcomes.StrictBootStarts` | the-forge/forge-core/src/service/forge.rs:1306-1318 | A strict boot that succeeds started every active service: early boot worked, the host's instance was adopted, or a child was spawned and got through the checks of its type. |
| `BootOutcomes.StrictBootSpawns` | the-forge/forge-core/src/service/forge.rs:1938-2170 | In particular every active simple service, unless adopted, was left running as the child that was spawned, with that pid in its slot and indexed to it. |
| `BootOutcomes.StrictBootListens` | the-forge/forge-core/src/service/forge.rs:1283-1293 | A strict boot that succeeds leaves every active socket unit listening, whatever was started or exited after it. |
| `BootOutcomes.RelaxedBootFinishes` | the-forge/forge-core/src/service/forge.rs:1283-1318 | A boot that is not strict goes on after every failure and attempts every active service, socket and mount. |
| `BootLog.StrictBootMounts` | the-forge/forge-core/src/service/forge.rs:1295-1305 | A strict boot that succeeds in PID 1 leaves every active mount mounted, whatever was started after it. |
| `BootLog.AbortStaysInWave` | the-forge/forge-core/src/service/forge.rs:1284-1318 | After an error in a strict boot nothing of a later wave was attempted, everything done before had worked, and the last attempt is that of a required unit, whose failure is the error. |
| `RestartLimiter.PruneTwice` | the-forge/forge-core/src/service/forge.rs:512 | Pruning early loses nothing that a later decision would count. |
| `RestartLimiter.PruningLosesNothing` | the-forge/forge-core/src/service/forge.rs:509-522 | For every later decision the stored list stands for the whole history of grants of that name. |
| `RestartLimiter.DecisionExact` | the-forge/forge-core/src/service/forge.rs:513-521 | A restart is granted if and only if fewer than five grants of its name are less than 60 seconds old, in every run with a clock that never goes back. |
| `RestartLimiter.SixGrantsSpanWindow` | the-forge/forge-core/src/service/forge.rs:44-45 | Any six consecutive grants of one name span at least 60 seconds. |
| `RestartLimiter.DecisionSpends` | the-forge/forge-core/src/service/forge.rs:509-522 | Within one window a grant spends exactly one of its name's remaining restarts and a denial none, and other names are unaffected. |
| `RestartLimiter.DecisionSpendsBudget` | the-forge/forge-core/src/service/forge.rs:509-522 | Over any number of windows every grant is paid from its name's budget of five restarts a window, and no decision raises any budget. |
| `ForgeStates.ForgeState.RestartAllowed` | the-forge/forge-core/src/service/forge.rs:509-522 | The limiter's decision and new table. |
| `RestartDrain.DrainMeasure` | the-forge/forge-core/src/service/forge.rs:2206-2218 | Each turn of the drain spends budget or shortens the queue, however many restarts the start queues and whatever window it falls in. |
| `ForgeStates.ForgeState.DrainNext` | the-forge/forge-core/src/service/forge.rs:2208-2217 | One round takes the first queued unit and starts it exactly if it is granted. |
| `OperationOutcomes.TurnExact` | the-forge/forge-core/src/service/forge.rs:2206-2218 | A granted turn leaves the service at the head as a start leaves it; a denied one changes nothing but queue and history. |
| `ForgeStates.ForgeState.ProcessPendingRestarts` | the-forge/forge-core/src/service/forge.rs:2206-2218 | With the clock inside any number of windows the drain ends with an empty queue, and what it did is a sequence of turns, each of which takes the head of the queue and starts it exactly if the limiter grants it. |
| `RestartDrain.DrainBound` | the-forge/forge-core/src/service/forge.rs:2206-2218 | In every sequence of turns over any number of windows each name is started at most five times a window, and no more often than what was left of its first window allows. |
| `DrainExamples.DrainNeedNotEnd` | the-forge/forge-core/src/service/forge.rs:2206-2218 | Without a bound on time the drain need not end: from a state that is reached, two forking services that exit during each other's starts keep it going for any number of turns, one a window, each granted. |
| `Runs.ClaimExact` | the-forge/forge-core/src/service/forge.rs:660-661 | Claiming virtual names adds exactly the unclaimed ones, and an earlier claim stands. |
| `Runs.DuplicateKeepsFirst` | the-forge/forge-core/src/service/forge.rs:660-673 | Registering a known name changes no unit, but its unclaimed virtual names do go to the first definition. |
| `Runs.StepKeeps` | the-forge/forge-core/src/service/forge.rs:596-2550 | Every register, order, start, stop, restart, exit, drain and shutdown, and every socket, mount, service and device activation of a boot keeps names and name index inverse, keys live and recorded pids indexed, changes no dependency list, and takes back no name, claim, definition, mount or device activation. |
| `Runs.RunKeeps` | the-forge/forge-core/src/service/forge.rs:596-2550 | The same for whole runs: each state is sound and extends every earlier one. |
| `Runs.RunFromStart` | the-forge/forge-core/src/service/forge.rs:250-277 | Every state reachable from the empty scheduler is sound. |
| `OperationOutcomes.RunIndexes` | the-forge/forge-core/src/service/forge.rs:2155-2156 | In every run each indexed pid belongs to a service. |
| `Runs.RegisterExact` | the-forge/forge-core/src/service/forge.rs:596-675 | A new unit has exactly the definition given and nothing running, mounted, activated or listening; each virtual name not yet claimed goes to it, and no other. |
| `Runs.UnindexedIsFresh` | the-forge/forge-core/src/service/forge.rs:2155-2156 | A pid that is indexed nowhere satisfies the freshness condition of the run theorems. |
| `Runs.SharedDaemonBreaksIndex` | the-forge/forge-core/src/service/forge.rs:2084-2097 | Without freshness the property fails: a forking service whose process search finds another service's pid takes over its index entry. |
| `Runs.SecondExitIgnored` | the-forge/forge-core/src/service/forge.rs:2490-2493 | After an exit report, and after any run in which no start spawns or finds that pid again, a second report for the pid finds nothing and changes nothing. |
| `ExitOutcomes.ReapExact` | the-forge/forge-core/src/service/forge.rs:2490-2567 | A series of exit reports, repetitions included, takes exactly the reported pids out of the index; a unit changes if and only if one of its processes is reported, and is then without a process, with the last of these exits recorded, failed on a nonzero code or a signal and dead otherwise. |
| `Runs.ExitQueuesExactly` | the-forge/forge-core/src/service/forge.rs:2503-2547 | An exit queues exactly its own unit, and only for a service that is not shut down and whose policy is `always`, or `on-failure` with a nonzero exit or a signal. |
| `Runs.ShutdownQueuesNothing` | the-forge/forge-core/src/service/forge.rs:2509-2513 | Once shutdown has begun, no series of exits queues a restart. |
| `Runs.RunQueue` | the-forge/forge-core/src/service/forge.rs:2516-2547 | In no run does a service whose policy is `no` ever wait for a restart. |
| `Keeping.RecordSlots` | the-forge/forge-core/src/service/forge.rs:2155-2156 | Recording a pid keeps all recorded pids indexed to their services if and only if no other service records that pid. |
| `Keeping.StartSlots` | the-forge/forge-core/src/service/forge.rs:1576-2170 | A start in any outcome, whatever it reaps meanwhile, keeps every recorded pid indexed to its service if its pids are fresh. |
| `Keeping.StartKeeps` | the-forge/forge-core/src/service/forge.rs:1576-2170 | A start in any outcome changes neither the graph nor the indexes by name. |
| `StartOutcomes.StartExact` | the-forge/forge-core/src/service/forge.rs:1576-2170 | A start returns Ok if and only if early boot works, the service is adopted, or its sockets open and a child is spawned, ready, and, for a forking or oneshot service, exits with code 0, a forking one leaving a daemon behind. |
| `StartOutcomes.StartFails` | the-forge/forge-core/src/service/forge.rs:1576-2170 | The error of a start: of a unit that is no service, of the first of its sockets that does not open, or of the spawn. |
| `StartOutcomes.StartLaunched` | the-forge/forge-core/src/service/forge.rs:1938-2170 | Once there is a child: if it comes up, a oneshot is dead without a process and any other service runs with the process that stays in slot and index; if not, the slot is empty. The index gains nothing else and loses exactly the exits seen while waiting. |
| `StartOutcomes.StartHalted` | the-forge/forge-core/src/service/forge.rs:1576-1944 | Without a child no slot and no index entry changes, and only early boot and adoption end well. |
| `StartOutcomes.StartByNameExact` | the-forge/forge-core/src/service/forge.rs:1448-1460 | Starting by name works if and only if a service answers to the name and its start succeeds; the service is active from then on either way; without one nothing changes. |
| `ForgeStates.ForgeState.InsertUnit` | the-forge/forge-core/src/service/forge.rs:795-813 | The first definition of a name is kept, a new name gets a new key. |
| `ForgeStates.ForgeState.RegisterUnit` | the-forge/forge-core/src/service/forge.rs:596-675 | Insertion followed by the claims of virtual names. |
| `ForgeStates.ForgeState.PrependOrdering` | the-forge/forge-core/src/service/forge.rs:766-793 | The named unit orders after the other, once; targets are left alone; an unknown unit is an error. |
| `Runs.OrderExact` | the-forge/forge-core/src/service/forge.rs:766-793 | Exactly for a known unit, the name joins the end of its `after` list unless it is there already or the unit is a target; nothing else changes, and doing it again changes nothing. |
| `ForgeStates.ForgeState.OnChildExit` | the-forge/forge-core/src/service/forge.rs:2490-2550 | The pid leaves the index, the slot is cleared, and a restart is queued by policy unless shutting down. |
| `ForgeStates.ForgeState.ReapAllPending` | the-forge/forge-core/src/service/forge.rs:2552-2567 | All reported exits are handled in order. |
| `ForgeStates.ForgeState.StartService` | the-forge/forge-core/src/service/forge.rs:1576-1944 | Every early failure, adoption and launch has the state it leaves. |
| `ForgeStates.ForgeState.AwaitLaunched` | the-forge/forge-core/src/service/forge.rs:2033-2170 | What each service type records, clears and returns once the child runs. |
| `ForgeStates.ForgeState.StopService` | the-forge/forge-core/src/service/forge.rs:2319-2350 | A running service becomes Stopping and keeps its pid until its exit; anything else is an error. |
| `ForgeStates.ForgeState.StartServiceByName` | the-forge/forge-core/src/service/forge.rs:1448-1460 | Lookup by real, then virtual name, activation, and start, with both errors. |
| `ForgeStates.ForgeState.StopServiceByName` | the-forge/forge-core/src/service/forge.rs:1462-1470 | Found by real, then virtual name, a running service becomes Stopping; anything else is an error that changes nothing. |
| `StopOutcomes.StopByNameExact` | the-forge/forge-core/src/service/forge.rs:1462-1470 | Stopping by name works if and only if the unit that answers is a service with a recorded process, and only that unit's state changes. |
| `ForgeStates.ForgeState.RestartServiceByName` | the-forge/forge-core/src/service/forge.rs:1472-1492 | A running service is stopped and exits are reaped before the new start. |
| `OperationOutcomes.RestartExact` | the-forge/forge-core/src/service/forge.rs:1472-1492 | A restart leaves a service as a start does, and before that, if it ran, takes exactly the pids reported while it stopped out of the index. |
| `ForgeStates.ForgeState.Shutdown` | the-forge/forge-core/src/service/forge.rs:2407-2448 | The first call makes every bootable service that records a process Stopping, in the stop order, or in any order if the counters stall; after that only exit reports change units, and no restart is queued. A second call changes nothing. On every index on which no degree goes below zero. |
| `StopOutcomes.StopAllExact` | the-forge/forge-core/src/service/forge.rs:2423-2427 | Stopping a list of units changes exactly the state of the listed services that record a process. |
| `StopOutcomes.ShutdownExact` | the-forge/forge-core/src/service/forge.rs:2407-2431 | A first shutdown leaves each listed service with a process Stopping, or as its last reported exit left it; exactly the reported pids leave the index. |
| `ForgeStates.ForgeState.ActivateSocketUnit` | the-forge/forge-core/src/service/forge.rs:1351-1376 | A socket unit listens with the opened entries, or is left Starting with an error. |
| `StartOutcomes.SocketExact` | the-forge/forge-core/src/service/forge.rs:1351-1376 | A socket unit listens, with the entries that its own listener gave, if and only if that listener can be opened. |
| `Keeping.MountExact` | the-forge/forge-core/src/service/forge.rs:1378-1425 | Activating a mount unit leaves it mounted, and running if it was not mounted before, if and only if it was or the call works; in PID 1 that decides the result, elsewhere a failure only leaves the unit dead; no other unit changes. |
| `Runs.SettledOnce` | the-forge/forge-core/src/service/forge.rs:1378-1385 | In every run a mounted unit stays mounted and is never mounted again, and an activated device stays activated and is never activated again. |
| `ForgeStates.ForgeState.CollectSocketFds` | the-forge/forge-core/src/service/forge.rs:2283-2317 | The collected entries and the sockets opened on the way, with the three errors. |
| `Keeping.CollectedInOrder` | the-forge/forge-core/src/service/forge.rs:2287-2316 | A service collects all entries of its sockets in the order it names them, and all of these sockets are listening. |
| `StartOutcomes.CollectExact` | the-forge/forge-core/src/service/forge.rs:2283-2317 | Collecting works if and only if each name is that of a socket unit that listens or can be opened; whatever the outcome, only named sockets that did not listen change. |
| `StartOutcomes.CollectFails` | the-forge/forge-core/src/service/forge.rs:2283-2317 | The error is that of the first name whose socket does not open: a missing unit, a unit that is no socket, or a listener that fails. |
| `FdPassing.DupEntries` | the-forge/forge-core/src/service/forge.rs:2308-2313 | The copies are new, distinct descriptors of the entries' open files in order, with -1 carried along unchecked where a duplication fails; every other descriptor is unchanged. |
| `FdPassing.ParkMoves` | the-forge/forge-core/src/service/forge.rs:1903-1913 | A source inside the target range moves out of it without touching any other descriptor. |
| `FdPassing.PlaceNext` | the-forge/forge-core/src/service/forge.rs:1919-1929 | Placing one descriptor at its target disturbs neither those placed nor those still to be placed. |
| `FdPassing.PassFds` | the-forge/forge-core/src/service/forge.rs:1899-1929 | For any distinct open sources, failed duplications among them, success means that none had failed, descriptor 3 + i is source i's open file without close-on-exec, sources outside the targets are closed, and every other descriptor outside the targets is unchanged. |
| `FdPassing.PassEntries` | the-forge/forge-core/src/service/forge.rs:1843-1929 | End to end, if the child's set-up succeeds, every collected socket was duplicated, the i-th is the child's descriptor 3 + i and survives exec, and the parent keeps its own descriptors. |
| `FdPassing.PrintDigit` | the-forge/forge-core/src/service/forge.rs:1879-1883 | Printing one digit keeps value and digits together equal to the pid. |
| `FdPassing.FormatPid` | the-forge/forge-core/src/service/forge.rs:1869-1884 | For every pid below 2^31 the bytes up to the NUL are its decimal form without superfluous zeros, and the buffer is never exhausted. |
| `Jobs.JobQueue.EnqueueJob` | the-forge/forge-core/src/jobs.rs:79-83 | A new job with the next id goes to the end of the active queue. |
| `Jobs.JobQueue.FinishJob` | the-forge/forge-core/src/jobs.rs:85-96 | The first active job with the id is completed and moved to the history, trimmed to the latest 256; an unknown id changes nothing. |
| `Jobs.JobQueue.Recent` | the-forge/forge-core/src/jobs.rs:104-106 | The latest n finished jobs, latest first. |
| `Jobs.FinishHitsOwn` | the-forge/forge-core/src/jobs.rs:85-94 | Whatever ran in between, a call's finish section completes that call's own job. |
| `Jobs.FinishExact` | the-forge/forge-core/src/jobs.rs:85-96 | Finishing an id completes the first job that has it, with the given result, drops it from the queue and ends the history with it, trimmed to the latest 256; an unknown id changes nothing. |
| `Jobs.WorkDecides` | the-forge/forge-core/src/system_bus/systemd1.rs:42-55 | A call's job is finished with the result of that call's own work, whatever other calls do in between, as long as their jobs get free ids. |
| `Jobs.ScopeIsDone` | the-forge/forge-core/src/system_bus/systemd1.rs:66-78 | A session-scope call has no work: its job is finished as done, with the id it was given. |
| `Jobs.SessionScopeExact` | the-forge/forge-core/src/system_bus/systemd1.rs:66 | The calls treated so are those for names that begin with `session-` and end with `.scope`. |
| `Jobs.StepExact` | the-forge/forge-core/src/system_bus/systemd1.rs:30-100 | In any state in which the active jobs are those of the calls in flight, a critical section keeps them matched if and only if it queues no job whose id an active job has. |
| `Jobs.InFlightExact` | the-forge/forge-core/src/system_bus/systemd1.rs:30-100 | In every run, of any length, jobs and calls stay matched in every state if and only if each new job's id is free when it is queued. |
| `Jobs.InterleavingSafe` | the-forge/forge-core/src/system_bus/systemd1.rs:30-100 | Under any interleaving of start, stop and scope calls in which each new id is free, the active queue holds exactly the jobs of the calls in flight, once each, each call's finish completes its own job, every job issued is active or finished, and the history is the last 256 finishes. |
| `Jobs.IdsDistinctExact` | the-forge/forge-core/src/jobs.rs:42 | The first 2^32 jobs always have free ids; all ids ever issued differ if and only if there were no more. |
| `Jobs.TakenIdFinishesOlder` | the-forge/forge-core/src/jobs.rs:85-94 | In any state where the next id is taken, the new call's finish completes an older job, and its own job stays behind in the queue. |
| `Jobs.WrappedIdFinishesOlder` | the-forge/forge-core/src/jobs.rs:42 | Such a state is reached from the start by a real interleaving: one long call during 2^32 - 1 scope calls, so the bound on the number of jobs is tight. |
| `Runlevels.TargetInheritsAsNamed` | the-forge/forge-core/src/rc_update.rs:15-39 | Mapping a target to its runlevel gives the chain of its lower-case name, aliases included. |
| `Runlevels.CaseBlind` | the-forge/forge-core/src/rc_update.rs:15-23 | Case makes no difference to what a target inherits. |
| `Runlevels.ChainExact` | the-forge/forge-core/src/rc_update.rs:30-39 | A chain begins with the level its name stands for, goes on by direct inheritance, and ends with `sysinit`; an unknown level has none. |
| `Runlevels.AncestorsNested` | the-forge/forge-core/src/rc_update.rs:30-39 | A level inherits all that any level in its chain inherits. |
| `Runlevels.InheritanceMonotone` | the-forge/forge-core/src/rc_update.rs:78-114 | In every marker database, a service enabled at a level is enabled at every level that inherits it. |
| `Runlevels.EnableExact` | the-forge/forge-core/src/rc_update.rs:116-126 | Exactly which answers a new marker changes, in any database. |
| `Runlevels.DisableExact` | the-forge/forge-core/src/rc_update.rs:128-138 | Exactly which answers a removed marker changes, in any database: without a seed, a service that loses its last marker is on everywhere again. |
| `Runlevels.EnableLocalExact` | the-forge/forge-core/src/rc_update.rs:94-126 | Enabling changes no answer at levels that do not inherit the level if and only if the database is seeded or the service has some marker already. |
| `Runlevels.DisableLocalExact` | the-forge/forge-core/src/rc_update.rs:94-138 | Disabling changes no answer there if and only if it does not remove the service's last marker from an unseeded database. |
| `Runlevels.DisableUndoesEnable` | the-forge/forge-core/src/rc_update.rs:116-138 | In any database enabling and then disabling answers as disabling alone does, which changes nothing if there was no marker at that level before. |
| `Runlevels.UnseededEnableTurnsOff` | the-forge/forge-core/src/rc_update.rs:112-113 | In an unseeded database locality fails: enabling at one level can turn the service off at another. |
| `Runlevels.UnseededDisableTurnsOn` | the-forge/forge-core/src/rc_update.rs:112-113 | Likewise, disabling at one level can turn the service on at another. |
| `Runlevels.MarkerDatabase.IsEnabled` | the-forge/forge-core/src/rc_update.rs:94-114 | The loop over the chain computes the declarative answer. |
| `Runlevels.MarkerDatabase.EnableService` | the-forge/forge-core/src/rc_update.rs:116-126 | The marker is added; on an I/O error no marker changes. |
| `Runlevels.MarkerDatabase.DisableService` | the-forge/forge-core/src/rc_update.rs:128-138 | An existing marker is removed; a missing one is no error. |
| `Native.RegisterNative` | the-forge/forge-core/src/service/native.rs:423-508 | A file's unit is registered, with its virtual names for a service, if and only if the file was parsed and what a service refers to can be read; a refusal changes nothing, and earlier definitions and claims stay. |
| `Native.RegisterFiles` | the-forge/forge-core/src/service/native.rs:328-393 | It stops exactly in a strict load with a bad file; otherwise exactly the good files' names are added and their virtual names are claimed, errors are counted exactly if a file is bad, and the collected edges are those the files declare, refused services included. |
| `Native.ApplyEdges` | the-forge/forge-core/src/service/native.rs:395-405 | Every edge to a known unit is recorded; a strict load stops exactly if some unit is unknown. |
| `Native.LoadNativeUnits` | the-forge/forge-core/src/service/native.rs:300-420 | It succeeds if and only if every file is good and every `before` edge ends at a unit known after registration. A lenient load never stops: it registers every good file and records every edge to a known unit. |
| `Guarantees.BeforeStartsEarlier` | the-forge/forge-core/src/service/native.rs:354-405 | A recorded `before` edge puts its origin in a strictly earlier wave of every later schedule. |
| `Native.LoadAndBoot` | the-forge/forge-core/src/service/native.rs:300-420 | Loading and then booting: a boot that succeeds ran waves that hold each bootable unit once and, unless lenient, schedule them, and after a successful load every `before` edge between booted units orders these waves. |

## Left out

- ForgeStates.ForgeState.BootWaves: requires that no degree goes below zero, under the exact condition of `Scheduling.BootWaves`; beyond it the source's unsigned counter overflows, and what that does depends on the build.
- ForgeStates.ForgeState.StopOrder: requires the same, for the same reason.
- ForgeStates.ForgeState.Shutdown: requires the same, for the same reason; unmounting, which only makes system calls, is not modelled.
- ForgeStates.ForgeState.BootParallel: cgroup set-up and the boot timing report are not modelled.
- ForgeStates.ForgeState.ProcessPendingRestarts: the clock stays within the given number of windows and never goes back to an earlier one.
- ForgeStates.ForgeState.StartService: the reason of each failure, environment, user, cgroup, sandbox and log set-up are one outcome each in `World`.
- Activation.TargetClosure: the searches and the scheduling loop read a value of the state rather than the class's fields, which none of them assigns; the class methods that call them state what the fields are afterwards.
- Runs.RunKeeps: target changes and resolution are not steps of the run theorem; the class methods for them state that soundness is kept.
- FdPassing.DupEntries: a failed `dup` is carried on as -1; a check inside the standard library that may panic on it first is not modelled.
- Jobs.InterleavingSafe: the work sections are arbitrary results; the manager's other D-Bus methods and the creation time of a job are not modelled.
- Native.RegisterNative: parsing of files, command lines and environment files is one flag per unit.
- Races between the wait for one child and the reaping of all others: they depend on kernel timing.
- Watchdog restarts: no caller ever arms a deadline.
- Fallback targets, target switching, reload, device events after boot, timers and `list_enabled`: short compositions or I/O around the modelled operations.
- Runlevel names outside ASCII: case folding is modelled for ASCII letters, which is all that the known names contain.
