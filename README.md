# Traffic intersection scheduler

This is a model of the `TrafficSimulation` engine of a four-way traffic-intersection simulator.

- Each approach (north, south, east, west) holds a first-come-first-served queue of vehicles.
- On every tick, vehicles may arrive and one approach has the green light. The head of the green approach's queue may be served.
- At a switch, a scheduling policy chooses the next green approach:
  - round robin;
  - priority scheduling: emergency vehicles first, then the longest queue;
  - shortest job next: the smallest total crossing time;
  - on the dashboard page only, a hybrid of emergency preemption and a skip-empty round robin.

The repository holds three versions of the engine, and each is modelled as its own class:

- app/page.tsx: `PageEngine.TrafficSimulation`.
- src/utils/TrafficSimulation.js: `UtilsEngine.TrafficSimulation`.
- App.jsx: `RootAppEngine.TrafficSimulation`.

The modules:

- `Intersection`: directions, the two scan orders, per-direction records, vehicles, the random draws, queue arrival, truncation and wait refresh.
- `Scheduling`: the policy choices as the code computes them, their loops as methods, independent "meaning" predicates, and lemmas that tie the two together.
- `Measures`: sums, maxima, means and the rate figures.
- `SliceEngine`: the tick shared by src/utils and App.jsx, with the queue cap as a parameter.

Each class keeps the source's fields, and its methods update them in place. Each class also has a ghost `State()` that reads those fields as a value of the module's `Engine` datatype. Every method is proved to turn `old(State())` into a pure function of it (`Stepped`, `Processed`, `Signalled`, ...). The invariants, conservation laws and policy properties are proved as lemmas about those functions. `Step` carries the class invariant `Valid()` from tick to tick.

The random choices are lifted into parameters. For each approach and tick, a `Draw` records:

- whether a vehicle arrives;
- whether it is an emergency vehicle;
- its crossing-time roll in {0, 1, 2}, which gives a crossing time of 2 to 4;
- an opaque stamp that stands for the `Date.now()` part of the identifier.

## Model

| member | source | states |
|---|---|---|
| Intersection.DensityFactor | app/page.tsx:68-69 | the density weight is 0.25 for low and 0.7 for high; any other string (medium or unknown) gets 0.45 |
| Intersection.NewVehicle | app/page.tsx:51-62 | a generated vehicle arrives now with no wait and a crossing time of 2 to 4; it is an emergency vehicle, and has priority 1, exactly when the draw says so |
| Intersection.Truncated | app/page.tsx:77-79 | a queue of more than 15 keeps exactly its first 15 (oldest) vehicles; a shorter one is kept unchanged |
| Intersection.ArrivalsAmongGet | app/page.tsx:70-80 | after the trials of the first n approaches in the order N, S, E, W, each of those approaches has had its own trial with the next identifier, and the others are untouched |
| Intersection.ArrivalsKeepHead | app/page.tsx:72-80 | arrivals never remove the head of a non-empty queue |
| Intersection.ArrivalKeepsWellFormed | app/page.tsx:72-80 | an arrival keeps a queue in arrival order with valid crossing times, and leaves it non-empty exactly when it was non-empty or a vehicle spawned |
| Intersection.Advance | app/page.tsx:179-180 | moving k places on in the order N, E, S, W lands at position (p + k) mod 4 |
| Intersection.RefreshedTotal | app/page.tsx:84-89 | the refresh keeps the number of queued vehicles |
| Intersection.Refreshed | app/page.tsx:84-89 | the refresh sets every queued vehicle's wait to the time since its arrival and changes nothing else |
| Intersection.RefreshQueue | src/utils/TrafficSimulation.js:79-81 | the inner `forEach` loop leaves every vehicle as it was except for its refreshed wait |
| Intersection.RefreshLanes | src/utils/TrafficSimulation.js:77-82 | the loop over the four queues computes exactly the refreshed lanes |
| Intersection.RefreshKeepsLanes | app/page.tsx:84-89 | the refresh keeps well-formedness, the cap and the number of queued vehicles, and makes every wait non-negative |
| Intersection.TailWellFormed | app/page.tsx:91-92 | the `shift` of a refreshed, well-formed queue leaves a refreshed, well-formed queue |
| Intersection.EmergencyCount | app/page.tsx:288-291 | a queue's emergency count is at most its length, and positive exactly when the queue holds an emergency vehicle |
| Intersection.QueuedEmergencies | src/utils/TrafficSimulation.js:189-192 | the queued emergency vehicles number at most the queued vehicles |
| Intersection.CrossingSumSign | app/page.tsx:212-216 | a queue's total crossing time is non-negative, and zero exactly for an empty queue |
| Scheduling.FirstEmergency | app/page.tsx:165-173 | the scan returns nothing exactly when no queue holds an emergency vehicle; otherwise it returns the first direction in the given order that holds one |
| Scheduling.FirstEmergencyScan | src/utils/TrafficSimulation.js:135-139 | the `for ... of` loop returns the first direction in N, E, S, W order that holds an emergency vehicle, or nothing |
| Scheduling.FirstEmergencyInArrivalOrder | app/page.tsx:165-173 | the N, S, E, W scan restated per direction: no emergency vehicle anywhere, or one at the result and none in an earlier-ranked queue |
| Scheduling.MostVehiclesAmong | app/page.tsx:208 | the `reduce` returns a queue at least as long as every queue scanned, and strictly longer than every earlier one |
| Scheduling.MostVehiclesIsLongest | src/utils/TrafficSimulation.js:141 | the reduce result is the longest queue, the earliest in N, E, S, W order on a tie |
| Scheduling.LongestQueueUnique | app/page.tsx:208 | the longest queue with earliest tie-break is unique |
| Scheduling.PriorityChoiceMeaning | app/page.tsx:202-208 | priority scheduling picks the first direction in N, E, S, W order with an emergency vehicle, else the longest queue with earliest tie-break |
| Scheduling.PriorityChoiceUnique | app/page.tsx:202-208 | the priority choice is uniquely determined by the queues |
| Scheduling.ShortestJobAmong | App.jsx:131-135 | the SJN reduce keeps north unless a non-empty queue with a strictly smaller total crossing time appears; the result has the smallest total among the non-empty queues scanned, and the earliest such queue wins |
| Scheduling.ShortestJobMeaning | app/page.tsx:210-222 | shortest job next returns north whenever north is empty; otherwise it returns a non-empty queue whose total is at most every other non-empty queue's, strictly below every earlier one's |
| Scheduling.ShortestJobUnique | app/page.tsx:210-222 | the shortest-job choice is uniquely determined by the queues |
| Scheduling.ShortestJobScan | src/utils/TrafficSimulation.js:145-158 | the `for` loop over east, south and west computes the same direction as the reduce |
| Scheduling.GapAdvance | app/page.tsx:179-181 | moving k places on in N, E, S, W and measuring the distance back gives k |
| Scheduling.AdvanceGap | app/page.tsx:179-181 | every direction is 1 to 4 places on from any other, counting a direction as 4 places on from itself |
| Scheduling.NextOccupied | app/page.tsx:179-187 | the scan from a given offset returns the first non-empty queue at offsets from there to 4, or the plain successor when all of them are empty |
| Scheduling.SkipEmptySuccessor | app/page.tsx:175-192 | the skip-empty round robin returns the first non-empty queue after the last pick, checking the last pick itself last; when every queue is empty it returns the plain successor |
| Scheduling.SkipEmptyScan | app/page.tsx:177-191 | the loop over offsets 1 to 4 computes exactly that choice |
| Scheduling.OccupiedOffset | app/page.tsx:179-187 | a non-empty queue anywhere is found at one of the offsets 1 to 4 |
| Scheduling.FixedPolicyChoiceMeaning | src/utils/TrafficSimulation.js:125-163 | round robin gives the cyclic successor, priority and SJN give their defined choices, and any other algorithm keeps the active direction |
| Measures.Max | src/utils/TrafficSimulation.js:113 | `Math.max` of the samples is one of them and is at least every one |
| Measures.MeanAtMostMax | app/page.tsx:126-127 | the average wait is at most the maximum wait |
| Measures.MeanShifted | app/page.tsx:95-101 | samples each between lo and hi above their partners average between lo and hi above the partners' average (turnaround against wait) |
| Measures.MeanNonNegative | app/page.tsx:126 | non-negative samples have a non-negative average |
| Measures.ThroughputBounded | app/page.tsx:143-144 | with at most one vehicle served per tick, throughput is between 0 and 60 per simulated minute |
| Measures.UtilizationBounded | app/page.tsx:146 | with no more idle ticks than ticks, utilization is between 0 and 100 |
| Measures.Efficiency | app/page.tsx:298 | efficiency is the percentage of generated vehicles already served (efficiency times generated equals 100 times served), and 0 before any vehicle is generated |
| Measures.EfficiencyBounded | app/page.tsx:298 | with no more vehicles served than generated, efficiency is between 0 and 100 |
| PageEngine.EmergencyWaitsAppend | app/page.tsx:112-114 | a served vehicle adds one emergency-wait sample exactly when it is an emergency vehicle |
| PageEngine.ServiceOf | app/page.tsx:94-107 | a served vehicle's record starts service and crossing now, from its direction, and completes its crossing time later |
| PageEngine.ServiceLogAppend | app/page.tsx:97-114 | appending one served vehicle's record and its wait, turnaround, response and (for emergencies) emergency-wait samples keeps the samples aligned with the records |
| PageEngine.ServeKeepsInvariants | app/page.tsx:91-114 | serving the head keeps the queues well formed and within the cap, adds exactly one record and one served vehicle, and keeps served plus queued at most generated |
| PageEngine.EmergencyWaitsWithin | app/page.tsx:112-114 | emergency-wait samples lie within any bounds that hold for all recorded waits |
| PageEngine.SliceSuccessor | app/page.tsx:198-200 | at a slice boundary, the round-robin direction of the next slice is the successor of the current one |
| PageEngine.CadenceAdvances | app/page.tsx:252-257 | under a fixed policy the countdown ends a slice exactly when the tick count reaches a multiple of 10 |
| PageEngine.SampleCount | app/page.tsx:148-149 | the history gains one snapshot exactly on every fifth tick |
| PageEngine.Stepped | app/page.tsx:236-283 | every step advances the clock by one tick |
| PageEngine.InitialInv | app/page.tsx:12-49 | the reset state satisfies the invariant |
| PageEngine.ArrivalsKeepQueues | app/page.tsx:67-81 | arrivals keep every queue well formed and at most 15 long, and add at most one vehicle per spawn |
| PageEngine.ArrivalsReach | app/page.tsx:72-80 | after the arrivals, a queue is non-empty exactly when it was non-empty or gained a vehicle |
| PageEngine.ArrivalsKeep | app/page.tsx:236-238 | the clock and arrivals take the invariant to the mid-tick state |
| PageEngine.ProcessedKeeps | app/page.tsx:83-122 | `processVehicles` serves one vehicle exactly when the active queue is non-empty, and idles exactly when it is empty |
| PageEngine.HeadServedKeeps | app/page.tsx:91-114 | serving the head adds exactly one served vehicle and no idle tick |
| PageEngine.HeadServedConsistent | app/page.tsx:91-114 | serving the head keeps the queues, the record log and the accounting consistent |
| PageEngine.SignalKeeps | app/page.tsx:241-280 | the signal update keeps a slice of 1 to 10 ticks and keeps the fixed policies on their 10-tick cadence |
| PageEngine.CadenceKeeps | app/page.tsx:252-275 | a fixed policy on its cadence before the signal update is still on it afterwards |
| PageEngine.MetricsRestored | app/page.tsx:124-163 | recomputing the metrics restores the invariant at the end of the tick |
| PageEngine.MetricsRecomputed | app/page.tsx:124-163 | every figure describes the samples recorded so far, and the history holds one snapshot per fifth tick |
| PageEngine.StepKeepsInv | app/page.tsx:236-283 | every step keeps the invariant: the slice stays within 1 to 10, served plus idle ticks equal the time, served plus queued vehicles are at most generated, identifiers count generations, and the fixed policies stay on cadence |
| PageEngine.SignalOnly | app/page.tsx:241-280 | the signal update leaves the clock, the queues, the counters and the records alone |
| PageEngine.SignalCounts | app/page.tsx:243-246 | the switch counter rises exactly when the active direction changes (the preemption path always changes it) |
| PageEngine.MetricsOnly | app/page.tsx:124-163 | the metrics update leaves the signal, the queues, the counters and the records alone |
| PageEngine.StepServes | app/page.tsx:91-121 | a tick serves one vehicle exactly when the active approach had a vehicle waiting or gained one on the tick; otherwise it adds exactly one idle tick |
| PageEngine.ProcessedQueues | app/page.tsx:84-92 | `processVehicles` refreshes the waits of every queue, then takes the head off the active queue when it has one; no other queue loses a vehicle |
| PageEngine.StepVehicles | app/page.tsx:241-282 | the signal and metrics updates leave the queues as the service left them |
| PageEngine.StepQueues | app/page.tsx:236-239 | over a whole step, every queue ends as its arrived self with refreshed waits; only the active queue loses its head, exactly when that approach had a vehicle waiting or gained one |
| PageEngine.ServedHead | app/page.tsx:92-107 | the vehicle served is the old head of the active queue, with wait equal to now minus its arrival, and service starting now |
| PageEngine.ServesQueueHead | app/page.tsx:236-239 | over a whole step, the head of a non-empty active queue is the vehicle recorded, with its service starting at the new time |
| PageEngine.ArrivedFrame | app/page.tsx:237-239 | the start of a step advances the clock and counts every spawn once in both counters, without touching the signal |
| PageEngine.StepCounts | app/page.tsx:63 | each step adds one generation and one identifier per spawn, and counts a switch exactly when the direction changes |
| PageEngine.FixedSignal | app/page.tsx:252-275 | under a fixed policy, the rest of the tick moves the signal only at the end of a 10-tick slice, and then to the policy's choice |
| PageEngine.FixedCountdown | app/page.tsx:252-275 | the countdown of a fixed policy on cadence ends its slice exactly on a multiple of 10 ticks |
| PageEngine.FixedPolicyCadence | app/page.tsx:241-283 | under round robin, priority and SJN, after k steps from reset the slice has 10 - (k mod 10) ticks left, and the direction changes only when k is a multiple of 10 |
| PageEngine.FixedPolicyChoosesByRule | app/page.tsx:194-222 | at a fixed policy's switch, the new green is the policy's choice in its own terms, over the queues as they stand after the service |
| PageEngine.HybridSignal | app/page.tsx:241-249 | under hybrid, the signal goes to the first emergency direction in N, S, E, W order when there is one; otherwise it rests on an empty queue only when all queues are empty |
| PageEngine.HybridServesDemand | app/page.tsx:224-229 | under hybrid, after every step an emergency vehicle's approach has the green (the first in N, S, E, W order), and an empty approach has it only when every queue is empty |
| PageEngine.MetricsInRange | app/page.tsx:124-146 | throughput is within 0..60 and utilization within 0..100; average wait and emergency delay are between 0 and the maximum wait; response equals wait; once a vehicle has been served, the average turnaround is 2 to 4 above the average wait |
| PageEngine.TrafficSimulation.constructor | app/page.tsx:7-10 | a new engine is in the reset state, which is valid |
| PageEngine.TrafficSimulation.Reset | app/page.tsx:12-49 | `reset` establishes the reset state |
| PageEngine.TrafficSimulation.ResetClock | app/page.tsx:13-16 | the clock, the signal and the counters return to their initial values |
| PageEngine.TrafficSimulation.ResetQueues | app/page.tsx:17-28 | the queues become empty and every counter becomes 0 |
| PageEngine.TrafficSimulation.ResetRecords | app/page.tsx:29-45 | the metrics, samples, records and history become empty or 0 |
| PageEngine.TrafficSimulation.GenerateVehicle | app/page.tsx:51-65 | the vehicle gets the current identifier, arrives now with no wait and a crossing time of 2 to 4, and both counters rise by one |
| PageEngine.TrafficSimulation.ArriveAt | app/page.tsx:73-79 | one approach's trial appends the spawned vehicle and truncates to 15 |
| PageEngine.TrafficSimulation.AddVehicles | app/page.tsx:67-81 | the loop over N, S, E, W performs every approach's trial, numbering new vehicles in that order |
| PageEngine.TrafficSimulation.ProcessVehicles | app/page.tsx:83-122 | `processVehicles` refreshes the waits, then serves the head or records an idle tick |
| PageEngine.TrafficSimulation.ServeHead | app/page.tsx:92-114 | the head is dequeued, counted and recorded with its samples |
| PageEngine.TrafficSimulation.Dequeue | app/page.tsx:92 | the `shift` returns the old head and the active approach counts one more served vehicle |
| PageEngine.TrafficSimulation.RecordService | app/page.tsx:94-114 | the record and the samples of the served vehicle are appended |
| PageEngine.TrafficSimulation.RecordTimes | app/page.tsx:97-101 | the response and turnaround samples are appended |
| PageEngine.TrafficSimulation.RecordCrossing | app/page.tsx:103-114 | the crossing record and the wait are appended, and the wait once more for an emergency vehicle |
| PageEngine.TrafficSimulation.UpdateMetrics | app/page.tsx:124-163 | the figures are recomputed, and on every fifth tick a snapshot is pushed |
| PageEngine.TrafficSimulation.HasEmergencyVehicles | app/page.tsx:165-173 | no result exactly when no queue holds an emergency vehicle; otherwise the first such approach in N, S, E, W order |
| PageEngine.TrafficSimulation.GetNextRoundRobinDirection | app/page.tsx:175-192 | returns the skip-empty round-robin choice and remembers it |
| PageEngine.TrafficSimulation.GetNextDirection | app/page.tsx:194-234 | returns the configured policy's choice; hybrid takes the first emergency direction, else the skip-empty round robin |
| PageEngine.TrafficSimulation.Step | app/page.tsx:236-283 | `step` computes the step function and keeps the invariant |
| PageEngine.TrafficSimulation.Tick | app/page.tsx:236-283 | the body of `step` computes the step function |
| PageEngine.TrafficSimulation.Arrive | app/page.tsx:237-239 | clock, arrivals and service |
| PageEngine.TrafficSimulation.SwitchSignal | app/page.tsx:241-280 | hybrid preemption, else the countdown |
| PageEngine.TrafficSimulation.Preempt | app/page.tsx:243-246 | the emergency approach takes the green with a fresh slice, counted as a switch |
| PageEngine.TrafficSimulation.CountDown | app/page.tsx:252-280 | the slice counts down and may hand over |
| PageEngine.TrafficSimulation.HandOver | app/page.tsx:258-279 | the policy's choice takes the green with a fresh slice, and a change of direction counts as a switch |
| PageEngine.TrafficSimulation.CountSwitch | app/page.tsx:277-279 | one more switch exactly when the direction changed |
| PageEngine.TrafficSimulation.SwitchToNext | app/page.tsx:260-275 | under priority scheduling both branches yield the priority choice, because the argument "roundRobin" is ignored; the other policies take their choice |
| PageEngine.TrafficSimulation.GetRealtimeMetrics | app/page.tsx:304-306 | returns the last 20 snapshots (all of them when fewer), in order |
| PageEngine.TrafficSimulation.GetStatistics | app/page.tsx:285-302 | reports served, queued and generated totals; the emergency count is the number of queued emergency vehicles; served plus queued at most generated; efficiency is `Efficiency` of served and generated (their percentage), in 0..100, and 0 before any generation |
| SliceEngine.Stepped | src/utils/TrafficSimulation.js:165-184 | every step advances the clock by one tick |
| SliceEngine.EmergencyWaitsAppend | src/utils/TrafficSimulation.js:99-101 | a served vehicle adds one emergency-wait sample exactly when it is an emergency vehicle |
| SliceEngine.ArrivedLanesGet | src/utils/TrafficSimulation.js:60-72 | each approach's queue after `addVehicles` is its own arrival trial |
| SliceEngine.ArrivedLanesByDirection | App.jsx:54-59 | queues that each went through their own trial are the arrived lanes |
| SliceEngine.ArrivalKeeps | src/utils/TrafficSimulation.js:64-71 | an arrival keeps a queue well formed, and with the cap at most 15 long |
| SliceEngine.ArrivalShape | App.jsx:54-58 | an arrival never removes the head; the queue is non-empty exactly when it was or a vehicle spawned; it grows by at most one, and by exactly the spawn without the cap |
| SliceEngine.ArrivedLanesKeep | src/utils/TrafficSimulation.js:50-73 | `addVehicles` keeps all queues well formed, and with the cap within 15 |
| SliceEngine.MetricsUpdatedMeaning | src/utils/TrafficSimulation.js:110-123 | the maximum wait is the largest sample and bounds the average; figures without samples keep their old values; throughput is 0 at time 0 and otherwise 60 times served per tick; nothing but the metrics changes |
| SliceEngine.InitialInv | src/utils/TrafficSimulation.js:7-34 | the reset state satisfies the invariant |
| SliceEngine.EmergencyWaitsWithin | src/utils/TrafficSimulation.js:99-101 | emergency-wait samples lie within any bounds that hold for all recorded waits |
| SliceEngine.ArrivalsKeep | src/utils/TrafficSimulation.js:166-170 | the clock, arrivals and decrement take the invariant to the mid-tick state, with 0 to 9 ticks left |
| SliceEngine.LogCarried | src/utils/TrafficSimulation.js:166-170 | steps that leave the records alone keep the record log and the metrics ready |
| SliceEngine.HeadServedConsistent | src/utils/TrafficSimulation.js:85-101 | serving the head keeps the queues, the record log and the accounting consistent, and adds one served vehicle |
| SliceEngine.RefreshKeepsQueues | App.jsx:64-68 | the refresh keeps the queues well formed (capped or not) and makes every wait current |
| SliceEngine.GrantedKeeps | src/utils/TrafficSimulation.js:172-175 | the guarded service adds one served vehicle exactly when time is left and the active queue is non-empty |
| SliceEngine.SwitchedKeeps | src/utils/TrafficSimulation.js:177-183 | the switch and the metrics update restore the invariant: a slice of 1 to 10 ticks and current metrics |
| SliceEngine.StepKeepsInv | src/utils/TrafficSimulation.js:165-184 | every step keeps the invariant: 1 to 10 ticks left, queues well formed (within 15 with the cap), one record per served vehicle, served at most time, current metrics |
| SliceEngine.SwitchOnly | src/utils/TrafficSimulation.js:177-183 | the switch and the metrics update leave the clock, queues, counters and records alone |
| SliceEngine.ArrivedFrame | App.jsx:143-147 | the start of a step advances the clock, decrements the slice and replaces the queues with the arrived ones, and nothing else |
| SliceEngine.GrantedQueues | src/utils/TrafficSimulation.js:75-108 | a grant refreshes every queue's waits and removes only the active queue's head; no grant changes nothing |
| SliceEngine.StepServes | src/utils/TrafficSimulation.js:165-175 | a step serves one vehicle exactly when at least 2 ticks were left and the active approach had or gained a vehicle; only the active queue loses its head, and every queue is its arrived self with refreshed waits |
| SliceEngine.GrantedRecord | App.jsx:62-87 | a grant records the refreshed head of the active queue crossing now, and its wait |
| SliceEngine.ServesQueueHead | src/utils/TrafficSimulation.js:84-97 | queues are first come, first served: a serving step records the old head (or the single arrival) with its whole time in the queue as its wait; a non-serving step records nothing |
| SliceEngine.StepSignal | App.jsx:154-158 | the green passes on exactly when at most one tick was left or the active queue is empty after the service, then to the policy's choice over the current queues with a fresh slice; otherwise one tick less remains |
| SliceEngine.SwitchChoosesByRule | App.jsx:111-140 | at a switch, the new green is the policy's choice in its own terms |
| SliceEngine.ArrivedTotal | App.jsx:52-60 | without the cap, arrivals add exactly one queued vehicle per spawn; with it, at most one |
| SliceEngine.StepConserves | App.jsx:142-161 | without the cap, served plus queued grows by exactly the spawns; with the cap, by at most the spawns |
| SliceEngine.Run | src/utils/TrafficSimulation.js:165-184 | a run of steps advances the clock by its length |
| SliceEngine.GrantServesAtMostNine | src/utils/TrafficSimulation.js:170-175 | a run of steps that never switches lasts at most 9 ticks (timeSlice - 1), keeps the direction, counts the slice down, and serves at most one vehicle per step |
| SliceEngine.ClosedGrantServesAtMostNine | src/utils/TrafficSimulation.js:170-181 | a whole grant, including the tick that closes it (which may serve the last vehicle of the queue and then switch), serves at most timeRemaining - 1 vehicles, so at most 9 from a fresh slice |
| SliceEngine.MetricsInRange | src/utils/TrafficSimulation.js:110-123 | throughput is within 0..60; the average wait and the emergency delay are between 0 and the maximum wait |
| UtilsEngine.TrafficSimulation.constructor | src/utils/TrafficSimulation.js:3-5 | a new engine is in the reset state with nothing generated, which is valid |
| UtilsEngine.TrafficSimulation.Reset | src/utils/TrafficSimulation.js:7-34 | `reset` establishes the reset state |
| UtilsEngine.TrafficSimulation.GenerateVehicle | src/utils/TrafficSimulation.js:36-48 | the vehicle arrives now with no wait and a crossing time of 2 to 4; it has priority 1 exactly for an emergency; the generation count rises by one |
| UtilsEngine.TrafficSimulation.AddVehicles | src/utils/TrafficSimulation.js:50-73 | the loop over N, S, E, W performs each approach's trial with the cap and counts every spawn |
| UtilsEngine.TrafficSimulation.ArriveAt | src/utils/TrafficSimulation.js:64-71 | one approach's trial appends the spawned vehicle, then truncates to 15 |
| UtilsEngine.TrafficSimulation.ProcessVehicles | src/utils/TrafficSimulation.js:75-108 | refreshes the waits, then serves the head of the active queue if it has one |
| UtilsEngine.TrafficSimulation.Dequeue | src/utils/TrafficSimulation.js:86-96 | the `shift` returns the old head and the active approach counts one more |
| UtilsEngine.TrafficSimulation.RecordCrossing | src/utils/TrafficSimulation.js:89-101 | the crossing record and the wait are appended, and the wait once more for an emergency vehicle |
| UtilsEngine.TrafficSimulation.UpdateMetrics | src/utils/TrafficSimulation.js:110-123 | `updateMetrics` computes the figures |
| UtilsEngine.TrafficSimulation.GetNextDirection | src/utils/TrafficSimulation.js:125-163 | returns the policy's choice: the cyclic successor, the first emergency else the longest queue, the SJN loop, or the active direction |
| UtilsEngine.TrafficSimulation.Step | src/utils/TrafficSimulation.js:165-184 | `step` computes the capped step function, counts every spawn, and keeps the invariant, including served plus queued at most generated |
| UtilsEngine.TrafficSimulation.Tick | src/utils/TrafficSimulation.js:165-184 | the body of `step` |
| UtilsEngine.TrafficSimulation.Arrive | src/utils/TrafficSimulation.js:166-170 | clock, arrivals and decrement |
| UtilsEngine.TrafficSimulation.Complete | src/utils/TrafficSimulation.js:172-183 | the guarded service, the switch and the metrics update |
| UtilsEngine.TrafficSimulation.Serve | src/utils/TrafficSimulation.js:172-175 | serves only while time is left and a vehicle waits |
| UtilsEngine.TrafficSimulation.Switch | src/utils/TrafficSimulation.js:177-181 | passes the green on with a fresh slice when the slice is used up or the active queue is empty |
| UtilsEngine.TrafficSimulation.GetStatistics | src/utils/TrafficSimulation.js:186-202 | reports served, queued and generated totals; the emergency count is the number of queued emergency vehicles; served plus queued at most generated; efficiency is `Efficiency` of served and generated (their percentage), in 0..100, and 0 when nothing was generated |
| RootAppEngine.TierFactor | App.jsx:53 | the density weight is 0.3 for low, 0.6 for medium and 0.9 for anything else |
| RootAppEngine.TrafficSimulation.constructor | App.jsx:9-11 | a new engine is in the reset state, which is valid |
| RootAppEngine.TrafficSimulation.Reset | App.jsx:13-39 | `reset` establishes the reset state |
| RootAppEngine.TrafficSimulation.GenerateVehicle | App.jsx:41-50 | the vehicle arrives now with no wait and a crossing time of 2 to 4, and is an emergency vehicle exactly when the draw says so; nothing is counted |
| RootAppEngine.TrafficSimulation.AddVehicles | App.jsx:52-60 | the loop over N, S, E, W appends each spawned vehicle, with no cap |
| RootAppEngine.TrafficSimulation.ArriveAt | App.jsx:55-58 | one approach's trial appends the spawned vehicle |
| RootAppEngine.TrafficSimulation.ProcessVehicles | App.jsx:62-94 | refreshes the waits, then serves the head of the active queue if it has one |
| RootAppEngine.TrafficSimulation.Dequeue | App.jsx:72-82 | the `shift` returns the old head and the active approach counts one more |
| RootAppEngine.TrafficSimulation.RecordCrossing | App.jsx:75-87 | the crossing record and the wait are appended, and the wait once more for an emergency vehicle |
| RootAppEngine.TrafficSimulation.UpdateMetrics | App.jsx:96-109 | `updateMetrics` computes the figures |
| RootAppEngine.TrafficSimulation.GetNextDirection | App.jsx:111-140 | returns the policy's choice: the cyclic successor, the first emergency else the longest queue, the SJN reduce, or the active direction |
| RootAppEngine.TrafficSimulation.Step | App.jsx:142-161 | `step` computes the uncapped step function and keeps the invariant; served plus queued always equals the vehicles ever appended |
| RootAppEngine.TrafficSimulation.Tick | App.jsx:142-161 | the body of `step` |
| RootAppEngine.TrafficSimulation.Arrive | App.jsx:143-147 | clock, arrivals and decrement |
| RootAppEngine.TrafficSimulation.Complete | App.jsx:149-160 | the guarded service, the switch and the metrics update |
| RootAppEngine.TrafficSimulation.Serve | App.jsx:149-152 | serves only while time is left and a vehicle waits |
| RootAppEngine.TrafficSimulation.Switch | App.jsx:154-158 | passes the green on with a fresh slice when the slice is used up or the active queue is empty |

## Left out

- Rendering, the React components, the `setInterval` drivers and the speed control: these only display engine state or pace it in wall-clock time.
- The `setTimeout` callbacks that remove a served vehicle from `crossingVehicles` after its crossing time: they run asynchronously, between ticks. In the model, `crossingVehicles` only grows within a step.
- `Math.random()`: its outcomes are parameters of `step` (a `Draw` per approach). The spawn probabilities are not modelled: the density weight, the `0.8 + rand * 0.4` jitter, the `* 0.3` factor, and the 8% and 10% emergency rates. `DensityFactor` and `TierFactor` record the density tables as documentation only: no other member uses them, and a draw may take any outcome.
- `Date.now()`: in app/page.tsx the identifier is modelled by its `vehicleIdCounter` part. In src/utils and App.jsx it is an opaque `stamp` taken from the draw, so the identifier strings themselves are not modelled.
- `exportData` (src/utils/TrafficSimulation.js:204-212): it only packages existing values with a wall-clock timestamp.
- Floating point: averages, throughput, utilization and efficiency are exact `real`s, so IEEE rounding is not modelled.
- Density strings that name members of `Object.prototype` (such as "constructor"): for them, the `densityFactors[density] || 0.45` lookup does not fall back to 0.45. `DensityFactor` treats every unknown string alike.
- Vehicle `priority`: it is written but never read by any engine, so it is derived from the vehicle's kind (`Vehicle.Priority`) rather than stored.
- UtilsEngine.TrafficSimulation.GenerateVehicle and RootAppEngine.TrafficSimulation.GenerateVehicle: the identifier is the draw's stamp, not the `direction-time-random` string.
- SliceEngine.GrantServesAtMostNine: covers only the ticks of a grant before the one that closes it (`WithinOneGrant`). The closing tick can serve a vehicle, and `SliceEngine.ClosedGrantServesAtMostNine` adds it.
- The App.jsx engine keeps no count of generated vehicles. The model's conservation law therefore uses a ghost count `appended`, which the source does not have.
