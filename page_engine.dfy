/** The engine of the dashboard page (app/page.tsx): four policies including
    the hybrid one, queues capped at 15 vehicles, response, turnaround and
    idle-time accounting, direction-switch counting and a metrics history
    sampled every 5 ticks. */
module PageEngine {
  import opened Intersection
  import opened Scheduling
  import opened Measures

  const SampleEvery: nat := 5
  const HistoryWindow: nat := 20

  /** The seven figures of `this.metrics`. */
  datatype Metrics = Metrics(
    avgWaitingTime: real, maxWaitingTime: int, throughput: real, emergencyDelay: real,
    avgTurnaroundTime: real, avgResponseTime: real, utilization: real)

  const ZeroMetrics := Metrics(0.0, 0, 0.0, 0.0, 0.0, 0.0, 0.0)

  /** A served vehicle as pushed on `crossingVehicles`: the vehicle with its
      service and completion times, the direction it left and when it started. */
  datatype TimedCrossing = TimedCrossing(
    vehicle: Vehicle, direction: Direction, crossingStartTime: int,
    startServiceTime: int, completionTime: int)

  /** One entry of the metrics history. */
  datatype Snapshot = Snapshot(
    time: int, throughput: real, avgWaitingTime: real, avgTurnaroundTime: real,
    avgResponseTime: real, utilization: real, queueLength: nat, emergencyCount: nat)

  /** The record returned by `getStatistics`. */
  datatype Statistics = Statistics(
    totalProcessed: nat, totalWaiting: nat, emergencyCount: nat, totalGenerated: nat,
    efficiency: real, directionSwitches: nat, metrics: Metrics)

  /** A consistent service record: service starts on the tick
      the vehicle leaves its queue, the recorded wait is the time it spent
      queued, and it completes its crossing time later. */
  ghost predicate ServiceRecord(c: TimedCrossing)
  {
    && c.startServiceTime == c.crossingStartTime
    && 0 <= c.vehicle.arrivalTime <= c.startServiceTime
    && 2 <= c.vehicle.crossingTime <= 4
    && c.vehicle.waitingTime == c.startServiceTime - c.vehicle.arrivalTime
    && c.completionTime == c.startServiceTime + c.vehicle.crossingTime
  }

  /** The waiting times of the emergency vehicles among the records, in service order. */
  function EmergencyWaits(cs: seq<TimedCrossing>): (e: seq<int>)
    ensures |e| <= |cs|
  {
    if cs == [] then []
    else
      var last := cs[|cs| - 1];
      EmergencyWaits(cs[..|cs| - 1]) + (if last.vehicle.kind == Emergency then [last.vehicle.waitingTime] else [])
  }

  /** Every emergency wait is the wait of some served vehicle, so bounds on the
      latter carry over. */
  lemma {:induction false} EmergencyWaitsWithin(cs: seq<TimedCrossing>, lo: int, hi: int)
    requires forall i :: 0 <= i < |cs| ==> lo <= cs[i].vehicle.waitingTime <= hi
    ensures forall j :: 0 <= j < |EmergencyWaits(cs)| ==> lo <= EmergencyWaits(cs)[j] <= hi
  {
    if cs != [] {
      var init := cs[..|cs| - 1];
      assert forall i :: 0 <= i < |init| ==> init[i] == cs[i];
      EmergencyWaitsWithin(init, lo, hi);
    }
  }

  lemma EmergencyWaitsAppend(cs: seq<TimedCrossing>, c: TimedCrossing)
    ensures EmergencyWaits(cs + [c])
         == EmergencyWaits(cs) + (if c.vehicle.kind == Emergency then [c.vehicle.waitingTime] else [])
  {
    assert (cs + [c])[..|cs|] == cs;
  }

  /** The record of vehicle v served from direction d at time now. */
  function ServiceOf(v: Vehicle, d: Direction, now: int): (c: TimedCrossing)
    ensures c.vehicle == v && c.direction == d
    ensures c.crossingStartTime == c.startServiceTime == now
    ensures c.completionTime - c.startServiceTime == v.crossingTime
  {
    TimedCrossing(v, d, now, now, now + v.crossingTime)
  }

  /** The per-vehicle sample lists line up with the crossing records: one wait,
      response and turnaround per served vehicle, the response equal to the
      wait, the turnaround the wait plus the crossing time, and the emergency
      waits those of the emergency vehicles. */
  ghost predicate ServiceLog(cs: seq<TimedCrossing>, waits: seq<int>, turnarounds: seq<int>,
                             responses: seq<int>, emergencyWaits: seq<int>)
  {
    && |waits| == |cs| && |turnarounds| == |cs|
    && responses == waits
    && emergencyWaits == EmergencyWaits(cs)
    && forall i :: 0 <= i < |cs| ==>
         && ServiceRecord(cs[i])
         && waits[i] == cs[i].vehicle.waitingTime
         && turnarounds[i] == waits[i] + cs[i].vehicle.crossingTime
  }

  /** Recording one more consistent service keeps the log consistent. */
  lemma ServiceLogAppend(cs: seq<TimedCrossing>, waits: seq<int>, turnarounds: seq<int>,
                         responses: seq<int>, emergencyWaits: seq<int>, c: TimedCrossing)
    requires ServiceLog(cs, waits, turnarounds, responses, emergencyWaits) && ServiceRecord(c)
    ensures ServiceLog(cs + [c], waits + [c.vehicle.waitingTime],
                       turnarounds + [c.completionTime - c.vehicle.arrivalTime],
                       responses + [c.startServiceTime - c.vehicle.arrivalTime],
                       emergencyWaits + if c.vehicle.kind == Emergency then [c.vehicle.waitingTime] else [])
  {
    EmergencyWaitsAppend(cs, c);
    assert responses + [c.startServiceTime - c.vehicle.arrivalTime] == waits + [c.vehicle.waitingTime];
  }

  /** Serving the head of a refreshed, well-formed queue keeps the queues
      well formed, refreshed and within the cap, the service log consistent,
      and no more vehicles served or queued than were generated. */
  lemma ServeKeepsInvariants(lanes: Lanes, now: int, d: Direction, processed: PerDirection<nat>,
                             cs: seq<TimedCrossing>, waits: seq<int>, turnarounds: seq<int>,
                             responses: seq<int>, emergencyWaits: seq<int>, generated: nat)
    requires LanesWellFormed(lanes, now) && LanesWithin(lanes, QueueCap) && LanesRefreshed(lanes, now)
    requires lanes.Get(d) != []
    requires |cs| == Total(processed) && ServiceLog(cs, waits, turnarounds, responses, emergencyWaits)
    requires Total(processed) + TotalQueued(lanes) <= generated
    ensures var q := lanes.Get(d);
      var c := ServiceOf(q[0], d, now);
      var lanes' := lanes.Set(d, q[1..]);
      var processed' := processed.Set(d, processed.Get(d) + 1);
      && LanesWellFormed(lanes', now) && LanesWithin(lanes', QueueCap) && LanesRefreshed(lanes', now)
      && |cs + [c]| == Total(processed') == Total(processed) + 1
      && ServiceLog(cs + [c], waits + [c.vehicle.waitingTime],
                    turnarounds + [c.completionTime - c.vehicle.arrivalTime],
                    responses + [c.startServiceTime - c.vehicle.arrivalTime],
                    emergencyWaits + if c.vehicle.kind == Emergency then [c.vehicle.waitingTime] else [])
      && Total(processed') + TotalQueued(lanes') <= generated
  {
    var q := lanes.Get(d);
    WellFormedGet(lanes, now, d);
    RefreshedGet(lanes, now, d);
    ServiceLogAppend(cs, waits, turnarounds, responses, emergencyWaits, ServiceOf(q[0], d, now));
    TotalQueuedSet(lanes, d, q[1..]);
    TotalSet(processed, d, processed.Get(d) + 1);
    TailWellFormed(q, now);
    WellFormedSet(lanes, now, d, q[1..]);
    RefreshedSet(lanes, now, d, q[1..]);
    WithinSet(lanes, QueueCap, d, q[1..]);
  }

  /** Advancing the round-robin cadence: the direction for slice k + 1 is the
      successor of the one for slice k. */
  lemma SliceSuccessor(t: nat)
    requires t % TimeSlice == TimeSlice - 1
    ensures Successor(SchedulingOrder[(t / TimeSlice) % 4]) == SchedulingOrder[((t + 1) / TimeSlice) % 4]
  {
    var k := t / TimeSlice;
    assert (t + 1) / TimeSlice == k + 1;
    assert Position(SchedulingOrder[k % 4]) == k % 4;
  }

  /** The fixed policies' countdown from `remaining == 10 - t % 10` ends the
      slice exactly when t + 1 is a multiple of 10, and otherwise stays in
      the same slice with one tick less. */
  lemma CadenceAdvances(t: nat, remaining: int)
    requires remaining == TimeSlice - t % TimeSlice
    ensures remaining <= 1 <==> (t + 1) % TimeSlice == 0
    ensures remaining > 1 ==> remaining - 1 == TimeSlice - (t + 1) % TimeSlice && (t + 1) / TimeSlice == t / TimeSlice
  {
  }

  /** The history grows by one snapshot on every fifth tick. */
  lemma SampleCount(t: nat)
    ensures (t + 1) / SampleEvery == t / SampleEvery + if (t + 1) % SampleEvery == 0 then 1 else 0
    ensures (t + 1) % SampleEvery == 0 ==> t + 1 == SampleEvery * (t / SampleEvery + 1)
  {
  }


  /** The whole state of a simulation, field by field as the class holds it. */
  datatype Engine = Engine(
    algorithmType: Algorithm, time: nat, activeDirection: Direction, timeRemaining: int, timeSlice: int,
    vehicles: Lanes, processedVehicles: PerDirection<nat>, metrics: Metrics,
    crossingVehicles: seq<TimedCrossing>, waitingTimes: seq<int>, emergencyWaitingTimes: seq<int>,
    turnaroundTimes: seq<int>, responseTimes: seq<int>, totalVehiclesGenerated: nat,
    lastRoundRobinDirection: Direction, realtimeMetrics: seq<Snapshot>, directionSwitches: nat,
    totalIdleTime: nat, vehicleIdCounter: nat)

  /** The state `reset` establishes: time 0, north has the green with a full
      slice of 10 ticks, nothing queued, served or measured, and the hybrid
      round robin positioned so that its first pick after west is north. */
  function ResetState(algorithm: Algorithm): Engine
  {
    Engine(algorithm, 0, North, TimeSlice, TimeSlice, NoVehicles, PerDirection(0, 0, 0, 0), ZeroMetrics,
           [], [], [], [], [], 0, West, [], 0, 0, 0)
  }

  /** `addVehicles`: one arrival trial per approach in the order N, S, E, W,
      each new vehicle taking the next identifier. */
  function WithArrivals(e: Engine, draws: Draws): Engine
  {
    e.(vehicles := ArrivalsAmong(e.vehicles, draws, e.vehicleIdCounter, e.time, QueueCap, 4),
       vehicleIdCounter := e.vehicleIdCounter + SpawnsAmong(draws, 4),
       totalVehiclesGenerated := e.totalVehiclesGenerated + SpawnsAmong(draws, 4))
  }

  /** `processVehicles`: every queued vehicle's wait is refreshed; the head of
      the active queue is served when there is one and the slice is not used
      up; an empty active queue makes the tick idle. */
  function Processed(e: Engine): Engine
  {
    Serving(WaitsRefreshed(e))
  }

  /** Every queued vehicle's wait becomes the time since its arrival. */
  function WaitsRefreshed(e: Engine): Engine
  {
    e.(vehicles := RefreshedLanes(e.vehicles, e.time))
  }

  /** Serving the active queue, or an idle tick when it is empty. */
  function Serving(e: Engine): Engine
  {
    var q := e.vehicles.Get(e.activeDirection);
    if |q| > 0 && e.timeRemaining > 0 then HeadServed(e)
    else if |q| == 0 then e.(totalIdleTime := e.totalIdleTime + 1)
    else e
  }

  /** The head of the active queue leaves it with service starting now; its
      wait, response and turnaround are recorded and the approach's count
      goes up by one. */
  function HeadServed(e: Engine): Engine
    requires e.vehicles.Get(e.activeDirection) != []
  {
    Recorded(Dequeued(e), ServiceOf(e.vehicles.Get(e.activeDirection)[0], e.activeDirection, e.time))
  }

  /** The `shift` of the active queue, counted as one more vehicle served. */
  function Dequeued(e: Engine): Engine
    requires e.vehicles.Get(e.activeDirection) != []
  {
    e.(vehicles := e.vehicles.Set(e.activeDirection, e.vehicles.Get(e.activeDirection)[1..]),
       processedVehicles := e.processedVehicles.Set(e.activeDirection, e.processedVehicles.Get(e.activeDirection) + 1))
  }

  /** The samples a served vehicle adds: its crossing record, wait, turnaround,
      response and, for an emergency vehicle, its wait once more. */
  function Recorded(e: Engine, c: TimedCrossing): Engine
  {
    e.(crossingVehicles := e.crossingVehicles + [c],
       waitingTimes := e.waitingTimes + [c.vehicle.waitingTime],
       turnaroundTimes := e.turnaroundTimes + [c.completionTime - c.vehicle.arrivalTime],
       responseTimes := e.responseTimes + [c.startServiceTime - c.vehicle.arrivalTime],
       emergencyWaitingTimes := e.emergencyWaitingTimes + if c.vehicle.kind == Emergency then [c.vehicle.waitingTime] else [])
  }

  /** The history entry `updateMetrics` pushes. */
  function SnapshotOf(e: Engine): Snapshot
  {
    Snapshot(e.time, e.metrics.throughput, e.metrics.avgWaitingTime, e.metrics.avgTurnaroundTime,
             e.metrics.avgResponseTime, e.metrics.utilization, TotalQueued(e.vehicles), QueuedEmergencies(e.vehicles))
  }

  /** `updateMetrics`: each average (and the maximum wait) is recomputed when
      its sample list is non-empty and kept otherwise; throughput and
      utilization always; a snapshot of the new figures every fifth tick. */
  function MetricsUpdated(e: Engine): Engine
  {
    var m := e.metrics;
    var sampled := |e.waitingTimes| > 0;
    var metrics := Metrics(
      if sampled then Mean(e.waitingTimes) else m.avgWaitingTime,
      if sampled then Max(e.waitingTimes) else m.maxWaitingTime,
      Throughput(Total(e.processedVehicles), e.time),
      if |e.emergencyWaitingTimes| > 0 then Mean(e.emergencyWaitingTimes) else m.emergencyDelay,
      if |e.turnaroundTimes| > 0 then Mean(e.turnaroundTimes) else m.avgTurnaroundTime,
      if |e.responseTimes| > 0 then Mean(e.responseTimes) else m.avgResponseTime,
      Utilization(e.time, e.totalIdleTime));
    var measured := e.(metrics := metrics);
    if e.time % SampleEvery == 0 then measured.(realtimeMetrics := e.realtimeMetrics + [SnapshotOf(measured)])
    else measured
  }

  /** What `getNextDirection` returns, with the hybrid round robin's memory
      after the call. */
  datatype Choice = Choice(direction: Direction, lastRoundRobin: Direction)

  /** `getNextDirection`: the fixed policies' choice, or under the hybrid
      policy the first approach (N, S, E, W) with an emergency vehicle, else
      the skip-empty round robin, which remembers its pick. */
  function NextDirection(algorithm: Algorithm, active: Direction, lanes: Lanes, lastRoundRobin: Direction): Choice
  {
    if algorithm != Hybrid then
      Choice(FixedPolicyChoice(algorithm, active, lanes), lastRoundRobin)
    else
      match FirstEmergency(ArrivalOrder, lanes)
      case Some(d) => Choice(d, lastRoundRobin)
      case None =>
        var d := SkipEmptySuccessor(lastRoundRobin, lanes);
        Choice(d, d)
  }

  /** The signal part of `step`: under the hybrid policy an emergency vehicle
      on another approach takes the green at once with a fresh slice (a
      switch); otherwise the slice counts down. */
  function Signalled(e: Engine): Engine
  {
    if e.algorithmType == Hybrid && e.timeRemaining > 0 && FirstEmergency(ArrivalOrder, e.vehicles).Some?
       && FirstEmergency(ArrivalOrder, e.vehicles).value != e.activeDirection then
      Preempted(e, FirstEmergency(ArrivalOrder, e.vehicles).value)
    else
      CountedDown(e)
  }

  /** An emergency vehicle's approach takes the green at once with a fresh
      slice, which counts as a switch. */
  function Preempted(e: Engine, d: Direction): Engine
  {
    e.(activeDirection := d, timeRemaining := e.timeSlice, directionSwitches := e.directionSwitches + 1)
  }

  /** The countdown: when the slice runs out (or, under the hybrid policy,
      the active queue is empty) the policy picks the next direction for a
      fresh slice, a change of direction counting as a switch; otherwise one
      tick less remains. */
  function CountedDown(e: Engine): Engine
  {
    if e.timeRemaining - 1 <= 0 || (e.algorithmType == Hybrid && e.vehicles.Get(e.activeDirection) == []) then
      HandedOver(e, NextDirection(e.algorithmType, e.activeDirection, e.vehicles, e.lastRoundRobinDirection))
    else
      e.(timeRemaining := e.timeRemaining - 1)
  }

  /** The green goes to the chosen direction with a fresh slice. */
  function HandedOver(e: Engine, choice: Choice): Engine
  {
    e.(activeDirection := choice.direction, timeRemaining := e.timeSlice,
       lastRoundRobinDirection := choice.lastRoundRobin,
       directionSwitches := e.directionSwitches + if choice.direction != e.activeDirection then 1 else 0)
  }

  /** The clock advancing by one tick. */
  function Clocked(e: Engine): Engine
  {
    e.(time := e.time + 1)
  }

  /** `step`: the clock advances, vehicles arrive, the active queue is
      served, the signal is updated and the metrics recomputed. */
  function Stepped(e: Engine, draws: Draws): (r: Engine)
    ensures r.time == e.time + 1
  {
    MetricsUpdated(Signalled(Processed(WithArrivals(Clocked(e), draws))))
  }

  // ---------------------------------------------------------------------
  // The invariant every reachable state satisfies.

  /** Every queue holds at most 15 well-formed vehicles. */
  ghost predicate QueuesWellFormed(e: Engine)
  {
    LanesWellFormed(e.vehicles, e.time) && LanesWithin(e.vehicles, QueueCap)
  }

  /** The per-vehicle samples line up with the crossing records, one per served vehicle. */
  ghost predicate ServiceLogged(e: Engine)
  {
    && |e.crossingVehicles| == Total(e.processedVehicles)
    && ServiceLog(e.crossingVehicles, e.waitingTimes, e.turnaroundTimes, e.responseTimes, e.emergencyWaitingTimes)
  }

  /** No more vehicles were served or are queued than were generated (the
      cap discards the rest), and identifiers count generations. */
  ghost predicate Accounted(e: Engine)
  {
    && Total(e.processedVehicles) + TotalQueued(e.vehicles) <= e.totalVehiclesGenerated
    && e.vehicleIdCounter == e.totalVehiclesGenerated
  }

  /** Each of the first `ticks` ticks either served one vehicle or was idle. */
  ghost predicate Busy(e: Engine, ticks: int)
  {
    Total(e.processedVehicles) + e.totalIdleTime == ticks
  }

  /** At time t the fixed policies are t % 10 ticks into a 10-tick slice, and
      the round robin is on the (t / 10)-th direction of N, E, S, W, cyclically. */
  ghost predicate OnCadenceAt(e: Engine, t: nat)
  {
    e.algorithmType != Hybrid ==>
      && e.timeRemaining == TimeSlice - t % TimeSlice
      && (e.algorithmType == RoundRobin ==> e.activeDirection == SchedulingOrder[(t / TimeSlice) % 4])
  }

  /** The metrics describe the samples recorded so far, and one snapshot was
      taken on every fifth tick. */
  ghost predicate MetricsCurrent(e: Engine)
  {
    && e.metrics.avgWaitingTime == MeanOrZero(e.waitingTimes)
    && e.metrics.maxWaitingTime == (if |e.waitingTimes| > 0 then Max(e.waitingTimes) else 0)
    && e.metrics.emergencyDelay == MeanOrZero(e.emergencyWaitingTimes)
    && e.metrics.avgTurnaroundTime == MeanOrZero(e.turnaroundTimes)
    && e.metrics.avgResponseTime == MeanOrZero(e.responseTimes)
    && e.metrics.throughput == Throughput(Total(e.processedVehicles), e.time)
    && e.metrics.utilization == Utilization(e.time, e.totalIdleTime)
    && |e.realtimeMetrics| == e.time / SampleEvery
    && forall i :: 0 <= i < |e.realtimeMetrics| ==> e.realtimeMetrics[i].time == SampleEvery * (i + 1)
  }

  /** What the metrics update needs in the middle of a tick: an average without
      samples is still 0, and the history holds one snapshot per fifth tick
      before this one. */
  ghost predicate MetricsReady(e: Engine)
  {
    && (|e.waitingTimes| == 0 ==> e.metrics.avgWaitingTime == 0.0 && e.metrics.maxWaitingTime == 0)
    && (|e.emergencyWaitingTimes| == 0 ==> e.metrics.emergencyDelay == 0.0)
    && (|e.turnaroundTimes| == 0 ==> e.metrics.avgTurnaroundTime == 0.0)
    && (|e.responseTimes| == 0 ==> e.metrics.avgResponseTime == 0.0)
    && e.time >= 1
    && |e.realtimeMetrics| == (e.time - 1) / SampleEvery
    && forall i :: 0 <= i < |e.realtimeMetrics| ==> e.realtimeMetrics[i].time == SampleEvery * (i + 1)
  }

  /** What holds at every point of a tick: a slice of 1 to 10 ticks, well-formed
      queues, a consistent service log and full accounting. */
  ghost predicate Consistent(e: Engine)
  {
    && e.timeSlice == TimeSlice
    && 1 <= e.timeRemaining <= e.timeSlice
    && QueuesWellFormed(e) && ServiceLogged(e) && Accounted(e)
  }

  /** The invariant of the simulation between ticks. */
  ghost predicate Inv(e: Engine)
  {
    Consistent(e) && Busy(e, e.time) && OnCadenceAt(e, e.time) && MetricsCurrent(e)
  }

  /** After the clock and the arrivals of a tick. */
  ghost predicate Pending(e: Engine)
  {
    e.time >= 1 && Consistent(e) && Busy(e, e.time - 1) && OnCadenceAt(e, e.time - 1) && MetricsReady(e)
  }

  /** After the service of a tick. */
  ghost predicate Served(e: Engine)
  {
    e.time >= 1 && Consistent(e) && Busy(e, e.time) && OnCadenceAt(e, e.time - 1) && MetricsReady(e)
  }

  /** After the signal update of a tick. */
  ghost predicate Switched(e: Engine)
  {
    Consistent(e) && Busy(e, e.time) && OnCadenceAt(e, e.time) && MetricsReady(e)
  }

  lemma InitialInv(algorithm: Algorithm)
    ensures Inv(ResetState(algorithm))
  {
    var e := ResetState(algorithm);
    assert QueuesWellFormed(e) by {}
    assert ServiceLogged(e) by {}
    assert Accounted(e) by {}
    assert OnCadenceAt(e, 0) by {}
    assert MetricsCurrent(e) by {}
  }

  /** The arrival trials keep the queues well formed and within the cap, and
      add at most one vehicle per spawn. */
  lemma {:induction false} ArrivalsKeepQueues(lanes: Lanes, draws: Draws, firstId: nat, now: nat, n: nat)
    requires n <= 4 && LanesWellFormed(lanes, now) && LanesWithin(lanes, QueueCap)
    ensures var r := ArrivalsAmong(lanes, draws, firstId, now, QueueCap, n);
      && LanesWellFormed(r, now) && LanesWithin(r, QueueCap)
      && TotalQueued(r) <= TotalQueued(lanes) + SpawnsAmong(draws, n)
  {
    if n > 0 {
      ArrivalsKeepQueues(lanes, draws, firstId, now, n - 1);
      var d := ArrivalOrder[n - 1];
      var prev := ArrivalsAmong(lanes, draws, firstId, now, QueueCap, n - 1);
      var id := firstId + SpawnsAmong(draws, n - 1);
      var q := Truncated(Enqueued(prev.Get(d), draws.Get(d), id, now), QueueCap);
      WellFormedGet(prev, now, d);
      ArrivalKeepsWellFormed(prev.Get(d), draws.Get(d), id, now, QueueCap);
      TotalQueuedSet(prev, d, q);
      WellFormedSet(prev, now, d, q);
      WithinSet(prev, QueueCap, d, q);
    }
  }

  /** After the arrival trials a queue is non-empty exactly when it was
      before or its trial spawned a vehicle (the cap of 15 never empties a queue). */
  lemma ArrivalsReach(lanes: Lanes, draws: Draws, firstId: nat, now: nat, d: Direction)
    requires LanesWellFormed(lanes, now)
    ensures ArrivalsAmong(lanes, draws, firstId, now, QueueCap, 4).Get(d) != []
        <==> lanes.Get(d) != [] || draws.Get(d).spawn
  {
    ArrivalsAmongGet(lanes, draws, firstId, now, QueueCap, 4, d);
    WellFormedGet(lanes, now, d);
    ArrivalKeepsWellFormed(lanes.Get(d), draws.Get(d), firstId + SpawnsAmong(draws, ArrivalRank(d)), now, QueueCap);
  }

  /** The start of a tick: the clock advances and the arrivals keep every
      part of the invariant that does not depend on the service and the
      signal of the tick. */
  lemma ArrivalsKeep(e: Engine, draws: Draws)
    requires Inv(e)
    ensures Pending(WithArrivals(Clocked(e), draws))
  {
    WellFormedLater(e.vehicles, e.time, e.time + 1);
    ArrivalsKeepQueues(e.vehicles, draws, e.vehicleIdCounter, e.time + 1, 4);
  }

  /** Processing keeps the queues, the service log and the accounting
      consistent; it serves one vehicle exactly when the active queue is
      non-empty (the slice is never used up between ticks), and counts an
      idle tick exactly when the active queue is empty. */
  lemma ProcessedKeeps(e: Engine)
    requires Pending(e)
    ensures Served(Processed(e))
    ensures Total(Processed(e).processedVehicles)
         == Total(e.processedVehicles) + (if e.vehicles.Get(e.activeDirection) != [] then 1 else 0)
    ensures Processed(e).totalIdleTime == e.totalIdleTime + (if e.vehicles.Get(e.activeDirection) == [] then 1 else 0)
  {
    RefreshKeepsLanes(e.vehicles, e.time, QueueCap);
    RefreshedLanesGet(e.vehicles, e.time, e.activeDirection);
    if e.vehicles.Get(e.activeDirection) != [] {
      HeadServedKeeps(e);
    }
  }

  /** Serving the head of a non-empty active queue keeps the queues, the
      service log and the accounting consistent and counts one vehicle. */
  lemma HeadServedKeeps(e: Engine)
    requires Pending(e) && e.vehicles.Get(e.activeDirection) != []
    ensures Served(Processed(e))
    ensures Total(Processed(e).processedVehicles) == Total(e.processedVehicles) + 1
    ensures Processed(e).totalIdleTime == e.totalIdleTime
  {
    RefreshKeepsLanes(e.vehicles, e.time, QueueCap);
    RefreshedLanesGet(e.vehicles, e.time, e.activeDirection);
    HeadServedConsistent(WaitsRefreshed(e));
    assert Processed(e) == HeadServed(WaitsRefreshed(e));
  }

  /** The service step itself, on queues whose waits are fresh. */
  lemma HeadServedConsistent(r: Engine)
    requires LanesWellFormed(r.vehicles, r.time) && LanesWithin(r.vehicles, QueueCap) && LanesRefreshed(r.vehicles, r.time)
    requires ServiceLogged(r) && Accounted(r) && r.vehicles.Get(r.activeDirection) != []
    ensures var h := HeadServed(r);
      && QueuesWellFormed(h) && ServiceLogged(h) && Accounted(h)
      && Total(h.processedVehicles) == Total(r.processedVehicles) + 1
  {
    ServeKeepsInvariants(r.vehicles, r.time, r.activeDirection, r.processedVehicles, r.crossingVehicles,
                         r.waitingTimes, r.turnaroundTimes, r.responseTimes, r.emergencyWaitingTimes,
                         r.totalVehiclesGenerated);
  }

  /** The signal update keeps a slice of 1 to 10 ticks and keeps the fixed
      policies on their 10-tick cadence. */
  lemma SignalKeeps(e: Engine)
    requires Served(e)
    ensures Switched(Signalled(e))
  {
    var s := Signalled(e);
    SignalOnly(e);
    if e.algorithmType != Hybrid {
      assert OnCadenceAt(e, e.time - 1);
      CadenceKeeps(e);
    }
    assert s.metrics == e.metrics && s.waitingTimes == e.waitingTimes && s.realtimeMetrics == e.realtimeMetrics;
    assert s.emergencyWaitingTimes == e.emergencyWaitingTimes && s.turnaroundTimes == e.turnaroundTimes;
    assert s.responseTimes == e.responseTimes && s.timeSlice == e.timeSlice;
  }

  /** A fixed policy on its cadence before the signal update is on it after. */
  lemma CadenceKeeps(e: Engine)
    requires e.algorithmType != Hybrid && e.time >= 1 && e.timeSlice == TimeSlice
    requires OnCadenceAt(e, e.time - 1)
    ensures OnCadenceAt(Signalled(e), e.time)
  {
    CadenceAdvances(e.time - 1, e.timeRemaining);
    if e.algorithmType == RoundRobin && e.time % TimeSlice == 0 {
      SliceSuccessor(e.time - 1);
    }
  }

  /** Recomputing the metrics in the middle of a tick makes them current. */
  lemma MetricsRestored(e: Engine)
    requires Switched(e)
    ensures Inv(MetricsUpdated(e))
  {
    MetricsRecomputed(e);
  }

  /** The recomputed figures describe the samples, and the history gains a
      snapshot exactly on every fifth tick. */
  lemma MetricsRecomputed(e: Engine)
    requires MetricsReady(e)
    ensures MetricsCurrent(MetricsUpdated(e))
  {
    SampleCount(e.time - 1);
  }

  /** Every step keeps the invariant. */
  lemma StepKeepsInv(e: Engine, draws: Draws)
    requires Inv(e)
    ensures Inv(Stepped(e, draws))
  {
    ArrivalsKeep(e, draws);
    var arrived := WithArrivals(Clocked(e), draws);
    ProcessedKeeps(arrived);
    SignalKeeps(Processed(arrived));
    MetricsRestored(Signalled(Processed(arrived)));
  }

  // ---------------------------------------------------------------------
  // What a step does, stated on the state value.

  /** The signal update leaves the queues, the counters and the records alone. */
  lemma SignalOnly(e: Engine)
    ensures var s := Signalled(e);
      && s.time == e.time && s.algorithmType == e.algorithmType && s.vehicles == e.vehicles
      && s.processedVehicles == e.processedVehicles && s.totalIdleTime == e.totalIdleTime
      && s.crossingVehicles == e.crossingVehicles
      && s.totalVehiclesGenerated == e.totalVehiclesGenerated && s.vehicleIdCounter == e.vehicleIdCounter
  {
  }

  /** The signal update counts a switch exactly when the direction changes. */
  lemma SignalCounts(e: Engine)
    ensures Signalled(e).directionSwitches
         == e.directionSwitches + (if Signalled(e).activeDirection != e.activeDirection then 1 else 0)
  {
  }

  /** The metrics update leaves the signal, the queues, the counters and the
      records alone. */
  lemma MetricsOnly(e: Engine)
    ensures var m := MetricsUpdated(e);
      && m.activeDirection == e.activeDirection && m.timeRemaining == e.timeRemaining
      && m.vehicles == e.vehicles
      && m.processedVehicles == e.processedVehicles && m.totalIdleTime == e.totalIdleTime
      && m.crossingVehicles == e.crossingVehicles && m.directionSwitches == e.directionSwitches
      && m.totalVehiclesGenerated == e.totalVehiclesGenerated && m.vehicleIdCounter == e.vehicleIdCounter
  {
  }

  /** `processVehicles` refreshes the waits of every queue and then takes the
      head off the active queue when it has one; no other queue loses a vehicle. */
  lemma ProcessedQueues(p: Engine)
    requires 1 <= p.timeRemaining
    ensures forall d ::
      Processed(p).vehicles.Get(d)
        == if d == p.activeDirection && p.vehicles.Get(d) != [] then Refreshed(p.vehicles.Get(d), p.time)[1..]
           else Refreshed(p.vehicles.Get(d), p.time)
  {
    forall d {
      RefreshedLanesGet(p.vehicles, p.time, d);
    }
  }

  /** Over a whole step, every queue ends as its arrived self with refreshed
      waits, and only the active one loses its head, exactly when the active
      approach had a vehicle waiting or gained one. */
  lemma StepQueues(e: Engine, draws: Draws)
    requires 1 <= e.timeRemaining && LanesWellFormed(e.vehicles, e.time)
    ensures var r := Stepped(e, draws);
      var lanes := ArrivalsAmong(e.vehicles, draws, e.vehicleIdCounter, e.time + 1, QueueCap, 4);
      var waiting := e.vehicles.Get(e.activeDirection) != [] || draws.Get(e.activeDirection).spawn;
      && (waiting <==> lanes.Get(e.activeDirection) != [])
      && forall d ::
        r.vehicles.Get(d)
          == if d == e.activeDirection && waiting then Refreshed(lanes.Get(d), e.time + 1)[1..]
             else Refreshed(lanes.Get(d), e.time + 1)
  {
    var arrived := WithArrivals(Clocked(e), draws);
    var lanes := ArrivalsAmong(e.vehicles, draws, e.vehicleIdCounter, e.time + 1, QueueCap, 4);
    assert arrived.vehicles == lanes && arrived.time == e.time + 1 && arrived.activeDirection == e.activeDirection
      && arrived.timeRemaining == e.timeRemaining;
    var waiting := e.vehicles.Get(e.activeDirection) != [] || draws.Get(e.activeDirection).spawn;
    assert waiting <==> lanes.Get(e.activeDirection) != [] by {
      WellFormedLater(e.vehicles, e.time, e.time + 1);
      ArrivalsReach(e.vehicles, draws, e.vehicleIdCounter, e.time + 1, e.activeDirection);
    }
    var vehicles := Processed(arrived).vehicles;
    assert Stepped(e, draws).vehicles == vehicles by {
      StepVehicles(e, draws);
    }
    forall d
      ensures vehicles.Get(d)
        == if d == e.activeDirection && waiting then Refreshed(lanes.Get(d), e.time + 1)[1..]
           else Refreshed(lanes.Get(d), e.time + 1)
    {
      ProcessedQueues(arrived);
    }
  }

  /** The signal and metrics updates leave the queues as the service left them. */
  lemma StepVehicles(e: Engine, draws: Draws)
    ensures Stepped(e, draws).vehicles == Processed(WithArrivals(Clocked(e), draws)).vehicles
  {
    var p := Processed(WithArrivals(Clocked(e), draws));
    SignalOnly(p);
    MetricsOnly(Signalled(p));
  }

  /** A tick serves a vehicle exactly when the active approach had one waiting
      or gained one on this tick; otherwise the tick is idle. */
  lemma StepServes(e: Engine, draws: Draws)
    requires Inv(e)
    ensures var r := Stepped(e, draws);
      var waiting := e.vehicles.Get(e.activeDirection) != [] || draws.Get(e.activeDirection).spawn;
      && Total(r.processedVehicles) == Total(e.processedVehicles) + (if waiting then 1 else 0)
      && r.totalIdleTime == e.totalIdleTime + (if waiting then 0 else 1)
  {
    var arrived := WithArrivals(Clocked(e), draws);
    ArrivalsKeep(e, draws);
    WellFormedLater(e.vehicles, e.time, e.time + 1);
    ArrivalsReach(e.vehicles, draws, e.vehicleIdCounter, e.time + 1, e.activeDirection);
    assert arrived.vehicles.Get(e.activeDirection) != []
       <==> e.vehicles.Get(e.activeDirection) != [] || draws.Get(e.activeDirection).spawn;
    var served := Processed(arrived);
    ProcessedKeeps(arrived);
    SignalOnly(served);
    MetricsOnly(Signalled(served));
    assert Stepped(e, draws) == MetricsUpdated(Signalled(served));
  }

  /** Serving takes the head of the active queue: the record appended names
      that vehicle, the active direction, service starting at the current
      time and the vehicle's whole time in the queue as its wait. */
  lemma ServedHead(e: Engine)
    requires Pending(e) && e.vehicles.Get(e.activeDirection) != []
    ensures var p := Processed(e);
      var head := e.vehicles.Get(e.activeDirection)[0];
      var n := |e.crossingVehicles|;
      && |p.crossingVehicles| == n + 1
      && p.crossingVehicles[..n] == e.crossingVehicles
      && p.crossingVehicles[n].vehicle.id == head.id
      && p.crossingVehicles[n].direction == e.activeDirection
      && p.crossingVehicles[n].startServiceTime == e.time
      && p.crossingVehicles[n].vehicle.waitingTime == e.time - head.arrivalTime
  {
    RefreshedLanesGet(e.vehicles, e.time, e.activeDirection);
    var p := Processed(e);
    assert p.crossingVehicles[..|e.crossingVehicles|] == e.crossingVehicles;
  }

  /** Queues are first come, first served: when the active approach had a
      vehicle waiting, the vehicle served on this tick is the one at the head
      of that queue, recorded with the active direction, service starting now
      and its whole time in the queue as its wait. */
  lemma ServesQueueHead(e: Engine, draws: Draws)
    requires Inv(e) && e.vehicles.Get(e.activeDirection) != []
    ensures var r := Stepped(e, draws);
      var head := e.vehicles.Get(e.activeDirection)[0];
      var n := |e.crossingVehicles|;
      && |r.crossingVehicles| == n + 1
      && r.crossingVehicles[..n] == e.crossingVehicles
      && r.crossingVehicles[n].vehicle.id == head.id
      && r.crossingVehicles[n].direction == e.activeDirection
      && r.crossingVehicles[n].startServiceTime == e.time + 1
      && r.crossingVehicles[n].vehicle.waitingTime == e.time + 1 - head.arrivalTime
  {
    var arrived := WithArrivals(Clocked(e), draws);
    ArrivalsKeep(e, draws);
    ArrivalsKeepHead(e.vehicles, draws, e.vehicleIdCounter, e.time + 1, QueueCap, e.activeDirection);
    ServedHead(arrived);
    SignalOnly(Processed(arrived));
    MetricsOnly(Signalled(Processed(arrived)));
    assert Stepped(e, draws) == MetricsUpdated(Signalled(Processed(arrived)));
  }

  /** Arrivals and service move the clock and nothing of the signal. */
  lemma ArrivedFrame(e: Engine, draws: Draws)
    ensures var p := Processed(WithArrivals(Clocked(e), draws));
      && p.time == e.time + 1 && p.algorithmType == e.algorithmType
      && p.activeDirection == e.activeDirection && p.timeRemaining == e.timeRemaining
      && p.directionSwitches == e.directionSwitches
      && p.totalVehiclesGenerated == e.totalVehiclesGenerated + SpawnsAmong(draws, 4)
      && p.vehicleIdCounter == e.vehicleIdCounter + SpawnsAmong(draws, 4)
  {
  }

  /** A tick generates one vehicle per spawning draw, each taking the next
      identifier, and counts a switch exactly when the green changes hands. */
  lemma StepCounts(e: Engine, draws: Draws)
    ensures var r := Stepped(e, draws);
      && r.totalVehiclesGenerated == e.totalVehiclesGenerated + SpawnsAmong(draws, 4)
      && r.vehicleIdCounter == e.vehicleIdCounter + SpawnsAmong(draws, 4)
      && r.directionSwitches == e.directionSwitches + (if r.activeDirection != e.activeDirection then 1 else 0)
  {
    var served := Processed(WithArrivals(Clocked(e), draws));
    ArrivedFrame(e, draws);
    SignalOnly(served);
    SignalCounts(served);
    MetricsOnly(Signalled(served));
    assert Stepped(e, draws) == MetricsUpdated(Signalled(served));
  }

  /** Under a fixed policy the rest of the tick moves the signal only at the
      end of a 10-tick slice, to the policy's choice, and a fresh slice starts
      exactly then. */
  lemma FixedSignal(p: Engine)
    requires Served(p) && p.algorithmType != Hybrid
    ensures var r := MetricsUpdated(Signalled(p));
      && r.vehicles == p.vehicles
      && r.timeRemaining == TimeSlice - p.time % TimeSlice
      && r.activeDirection == if p.time % TimeSlice == 0
                              then FixedPolicyChoice(p.algorithmType, p.activeDirection, p.vehicles)
                              else p.activeDirection
  {
    assert p.time >= 1 && p.timeSlice == TimeSlice && p.timeRemaining == TimeSlice - (p.time - 1) % TimeSlice;
    FixedCountdown(p);
    SignalOnly(p);
    MetricsOnly(Signalled(p));
  }

  /** The countdown of a fixed policy on cadence ends its slice exactly on a
      multiple of 10 ticks and then hands the green to the policy's choice. */
  lemma FixedCountdown(p: Engine)
    requires p.algorithmType != Hybrid && p.time >= 1 && p.timeSlice == TimeSlice
    requires p.timeRemaining == TimeSlice - (p.time - 1) % TimeSlice
    ensures var s := Signalled(p);
      && s.timeRemaining == TimeSlice - p.time % TimeSlice
      && s.activeDirection == if p.time % TimeSlice == 0
                              then FixedPolicyChoice(p.algorithmType, p.activeDirection, p.vehicles)
                              else p.activeDirection
  {
    CadenceAdvances(p.time - 1, p.timeRemaining);
  }

  /** Under the fixed policies the signal changes only when a 10-tick slice
      ends, and then goes to the policy's choice over the queues as they are
      after the tick's service. */
  lemma FixedPolicyCadence(e: Engine, draws: Draws)
    requires Inv(e) && e.algorithmType != Hybrid
    ensures var r := Stepped(e, draws);
      && r.timeRemaining == TimeSlice - (e.time + 1) % TimeSlice
      && r.activeDirection == if (e.time + 1) % TimeSlice == 0
                              then FixedPolicyChoice(e.algorithmType, e.activeDirection, r.vehicles)
                              else e.activeDirection
  {
    var arrived := WithArrivals(Clocked(e), draws);
    ArrivalsKeep(e, draws);
    ProcessedKeeps(arrived);
    ArrivedFrame(e, draws);
    FixedSignal(Processed(arrived));
    assert Stepped(e, draws) == MetricsUpdated(Signalled(Processed(arrived)));
  }

  /** When a fixed policy switches, the new green is the policy's choice in
      its own terms: the next approach clockwise, the longest queue (ties to
      the earliest in N, E, S, W), or the queue with the smallest total
      crossing time among the non-empty ones. */
  lemma FixedPolicyChoosesByRule(e: Engine, draws: Draws)
    requires Inv(e) && e.algorithmType != Hybrid && (e.time + 1) % TimeSlice == 0
    ensures var r := Stepped(e, draws);
      IsPolicyChoice(e.algorithmType, e.activeDirection, r.vehicles, r.activeDirection)
  {
    FixedPolicyCadence(e, draws);
    StepKeepsInv(e, draws);
    var r := Stepped(e, draws);
    WellFormedPositive(r.vehicles, r.time);
    FixedPolicyChoiceMeaning(e.algorithmType, e.activeDirection, r.vehicles);
  }

  /** Under the hybrid policy the signal goes to the first approach (N, S,
      E, W) holding an emergency vehicle, if any; with none, it rests on an
      empty approach only when every approach is empty. */
  lemma HybridSignal(e: Engine)
    requires Served(e) && e.algorithmType == Hybrid
    ensures var s := Signalled(e);
      match FirstEmergency(ArrivalOrder, e.vehicles)
      case Some(d) => s.activeDirection == d
      case None => e.vehicles.Get(s.activeDirection) == [] ==> forall d :: e.vehicles.Get(d) == []
  {
  }

  /** Under the hybrid policy, after every tick the green is on the first
      approach (in the order N, S, E, W) holding an emergency vehicle, if any;
      and with no emergency vehicle queued, the green is on an empty approach
      only when every approach is empty. */
  lemma HybridServesDemand(e: Engine, draws: Draws)
    requires Inv(e) && e.algorithmType == Hybrid
    ensures var r := Stepped(e, draws);
      match FirstEmergency(ArrivalOrder, r.vehicles)
      case Some(d) => r.activeDirection == d
      case None => r.vehicles.Get(r.activeDirection) == [] ==> forall d :: r.vehicles.Get(d) == []
  {
    var arrived := WithArrivals(Clocked(e), draws);
    var served := Processed(arrived);
    ArrivalsKeep(e, draws);
    ProcessedKeeps(arrived);
    var s := Signalled(served);
    HybridSignal(served);
    SignalOnly(served);
    var r := MetricsUpdated(s);
    MetricsOnly(s);
    assert Stepped(e, draws) == r;
    assert r.vehicles == served.vehicles && r.activeDirection == s.activeDirection;
  }

  /** The figures the invariant keeps are within their natural ranges: at
      most one vehicle per tick, utilization a percentage, the average
      response equal to the average wait, averages of waits between 0 and the
      longest wait, and turnaround 2 to 4 ticks longer than the wait on average. */
  lemma MetricsInRange(e: Engine)
    requires Inv(e)
    ensures 0.0 <= e.metrics.throughput <= 60.0
    ensures 0.0 <= e.metrics.utilization <= 100.0
    ensures e.metrics.avgResponseTime == e.metrics.avgWaitingTime
    ensures 0.0 <= e.metrics.avgWaitingTime <= e.metrics.maxWaitingTime as real
    ensures 0.0 <= e.metrics.emergencyDelay <= e.metrics.maxWaitingTime as real
    ensures e.waitingTimes != [] ==>
      e.metrics.avgWaitingTime + 2.0 <= e.metrics.avgTurnaroundTime <= e.metrics.avgWaitingTime + 4.0
  {
    ThroughputBounded(Total(e.processedVehicles), e.time);
    UtilizationBounded(e.time, e.totalIdleTime);
    var waits, cs := e.waitingTimes, e.crossingVehicles;
    if |waits| > 0 {
      var m := Max(waits);
      assert forall i :: 0 <= i < |waits| ==> 0 <= waits[i] <= m;
      MeanNonNegative(waits);
      MeanAtMostMax(waits);
      MeanShifted(waits, e.turnaroundTimes, 2, 4);
      EmergencyWaitsWithin(cs, 0, m);
      var ew := e.emergencyWaitingTimes;
      if |ew| > 0 {
        SumAtMost(ew, m);
        RatioAtMost(Sum(ew), |ew|, m);
        MeanNonNegative(ew);
      }
    }
  }

  class TrafficSimulation {
    const algorithmType: Algorithm
    var time: nat
    var activeDirection: Direction
    var timeRemaining: int
    var timeSlice: int
    var vehicles: Lanes
    var processedVehicles: PerDirection<nat>
    var metrics: Metrics
    var crossingVehicles: seq<TimedCrossing>
    var waitingTimes: seq<int>
    var emergencyWaitingTimes: seq<int>
    var turnaroundTimes: seq<int>
    var responseTimes: seq<int>
    var totalVehiclesGenerated: nat
    var lastRoundRobinDirection: Direction
    var realtimeMetrics: seq<Snapshot>
    var directionSwitches: nat
    var totalIdleTime: nat
    var vehicleIdCounter: nat

    /** The simulation's fields as one value. */
    ghost function State(): Engine
      reads this
    {
      Engine(algorithmType, time, activeDirection, timeRemaining, timeSlice, vehicles, processedVehicles,
             metrics, crossingVehicles, waitingTimes, emergencyWaitingTimes, turnaroundTimes, responseTimes,
             totalVehiclesGenerated, lastRoundRobinDirection, realtimeMetrics, directionSwitches,
             totalIdleTime, vehicleIdCounter)
    }

    ghost predicate Valid()
      reads this
    {
      Inv(State())
    }

    constructor (algorithmType: Algorithm)
      ensures State() == ResetState(algorithmType) && Valid()
    {
      this.algorithmType := algorithmType;
      new;
      Reset();
      InitialInv(algorithmType);
    }

    /** Back to time 0 with empty queues, records and metrics. */
    method Reset()
      modifies this
      ensures State() == ResetState(algorithmType)
    {
      ResetClock();
      ResetQueues();
      ResetRecords();
    }

    /** The part of the reset that concerns the clock and the signal. */
    method ResetClock()
      modifies this`time, this`activeDirection, this`timeRemaining, this`timeSlice,
               this`lastRoundRobinDirection, this`directionSwitches, this`totalIdleTime
      ensures time == 0 && activeDirection == North && timeRemaining == TimeSlice && timeSlice == TimeSlice
      ensures lastRoundRobinDirection == West && directionSwitches == 0 && totalIdleTime == 0
    {
      time := 0;
      activeDirection := North;
      timeRemaining := 10;
      timeSlice := 10;
      lastRoundRobinDirection := West;
      directionSwitches := 0;
      totalIdleTime := 0;
    }

    /** The part of the reset that concerns the queues and their counters. */
    method ResetQueues()
      modifies this`vehicles, this`processedVehicles, this`totalVehiclesGenerated, this`vehicleIdCounter
      ensures vehicles == NoVehicles && processedVehicles == PerDirection(0, 0, 0, 0)
      ensures totalVehiclesGenerated == 0 && vehicleIdCounter == 0
    {
      vehicles := NoVehicles;
      processedVehicles := PerDirection(0, 0, 0, 0);
      totalVehiclesGenerated := 0;
      vehicleIdCounter := 0;
    }

    /** The part of the reset that concerns the samples and the metrics. */
    method ResetRecords()
      modifies this`metrics, this`crossingVehicles, this`waitingTimes, this`emergencyWaitingTimes,
               this`turnaroundTimes, this`responseTimes, this`realtimeMetrics
      ensures metrics == ZeroMetrics && realtimeMetrics == []
      ensures crossingVehicles == [] && waitingTimes == [] && emergencyWaitingTimes == []
      ensures turnaroundTimes == [] && responseTimes == []
    {
      metrics := ZeroMetrics;
      crossingVehicles := [];
      waitingTimes := [];
      emergencyWaitingTimes := [];
      turnaroundTimes := [];
      responseTimes := [];
      realtimeMetrics := [];
    }

    /** Builds the next vehicle: it arrives now with nothing waited yet, crosses
        in 2 to 4 ticks, and takes the next identifier. */
    method GenerateVehicle(draw: Draw) returns (vehicle: Vehicle)
      modifies this`vehicleIdCounter, this`totalVehiclesGenerated
      ensures vehicle == NewVehicle(old(vehicleIdCounter), draw, time)
      ensures vehicle.id == old(vehicleIdCounter) && vehicle.arrivalTime == time && vehicle.waitingTime == 0
      ensures 2 <= vehicle.crossingTime <= 4
      ensures vehicle.kind == Emergency <==> draw.emergency
      ensures vehicleIdCounter == old(vehicleIdCounter) + 1
      ensures totalVehiclesGenerated == old(totalVehiclesGenerated) + 1
    {
      vehicle := Vehicle(vehicleIdCounter, if draw.emergency then Emergency else Regular,
                         time, draw.roll + 2, 0);
      vehicleIdCounter := vehicleIdCounter + 1;
      totalVehiclesGenerated := totalVehiclesGenerated + 1;
    }

    /** The arrival trial for one approach: a spawned vehicle joins the tail,
        and a queue longer than 15 loses its tail. */
    method ArriveAt(direction: Direction, draw: Draw)
      modifies this`vehicles, this`vehicleIdCounter, this`totalVehiclesGenerated
      ensures vehicles == old(vehicles).Set(direction,
        Truncated(Enqueued(old(vehicles.Get(direction)), draw, old(vehicleIdCounter), time), QueueCap))
      ensures vehicleIdCounter == old(vehicleIdCounter) + if draw.spawn then 1 else 0
      ensures totalVehiclesGenerated == old(totalVehiclesGenerated) + if draw.spawn then 1 else 0
    {
      var queue := vehicles.Get(direction);
      if draw.spawn {
        var vehicle := GenerateVehicle(draw);
        queue := queue + [vehicle];
      }
      if |queue| > QueueCap {
        queue := queue[..QueueCap];
      }
      vehicles := vehicles.Set(direction, queue);
    }

    /** One arrival trial per approach in the order N, S, E, W. */
    method AddVehicles(draws: Draws)
      modifies this`vehicles, this`vehicleIdCounter, this`totalVehiclesGenerated
      ensures State() == WithArrivals(old(State()), draws)
    {
      for i := 0 to 4
        invariant vehicles == ArrivalsAmong(old(vehicles), draws, old(vehicleIdCounter), time, QueueCap, i)
        invariant vehicleIdCounter == old(vehicleIdCounter) + SpawnsAmong(draws, i)
        invariant totalVehiclesGenerated == old(totalVehiclesGenerated) + SpawnsAmong(draws, i)
      {
        var direction := ArrivalOrder[i];
        ArriveAt(direction, draws.Get(direction));
      }
    }

    /** Refreshes the waiting times, then serves the head of the active queue
        when it is non-empty and the slice is not used up; a tick with an
        empty active queue is idle. */
    method ProcessVehicles()
      modifies this`vehicles, this`responseTimes, this`turnaroundTimes, this`crossingVehicles,
               this`processedVehicles, this`waitingTimes, this`emergencyWaitingTimes, this`totalIdleTime
      ensures State() == Processed(old(State()))
    {
      vehicles := RefreshLanes(vehicles, time);
      var queue := vehicles.Get(activeDirection);
      if |queue| > 0 && timeRemaining > 0 {
        ServeHead();
      } else if |queue| == 0 {
        totalIdleTime := totalIdleTime + 1;
      }
    }

    /** Serving the head of the active queue: it leaves the queue with service
        starting now, and its wait, response and turnaround are recorded. */
    method ServeHead()
      requires vehicles.Get(activeDirection) != []
      modifies this`vehicles, this`responseTimes, this`turnaroundTimes, this`crossingVehicles,
               this`processedVehicles, this`waitingTimes, this`emergencyWaitingTimes
      ensures State() == HeadServed(old(State()))
    {
      var vehicle := Dequeue();
      RecordService(ServiceOf(vehicle, activeDirection, time));
    }

    /** Takes the head off the active queue and counts it as served. */
    method Dequeue() returns (vehicle: Vehicle)
      requires vehicles.Get(activeDirection) != []
      modifies this`vehicles, this`processedVehicles
      ensures vehicle == old(vehicles.Get(activeDirection))[0]
      ensures State() == Dequeued(old(State()))
    {
      var queue := vehicles.Get(activeDirection);
      vehicle := queue[0];
      vehicles := vehicles.Set(activeDirection, queue[1..]);
      processedVehicles := processedVehicles.Set(activeDirection, processedVehicles.Get(activeDirection) + 1);
    }

    /** Records the crossing of a served vehicle and its samples. */
    method RecordService(served: TimedCrossing)
      modifies this`responseTimes, this`turnaroundTimes, this`crossingVehicles,
               this`waitingTimes, this`emergencyWaitingTimes
      ensures State() == Recorded(old(State()), served)
    {
      RecordTimes(served);
      RecordCrossing(served);
    }

    /** Appends the served vehicle's response and turnaround times. */
    method RecordTimes(served: TimedCrossing)
      modifies this`responseTimes, this`turnaroundTimes
      ensures responseTimes == old(responseTimes) + [served.startServiceTime - served.vehicle.arrivalTime]
      ensures turnaroundTimes == old(turnaroundTimes) + [served.completionTime - served.vehicle.arrivalTime]
    {
      responseTimes := responseTimes + [served.startServiceTime - served.vehicle.arrivalTime];
      turnaroundTimes := turnaroundTimes + [served.completionTime - served.vehicle.arrivalTime];
    }

    /** Appends the crossing record and the wait, and the wait once more for
        an emergency vehicle. */
    method RecordCrossing(served: TimedCrossing)
      modifies this`crossingVehicles, this`waitingTimes, this`emergencyWaitingTimes
      ensures crossingVehicles == old(crossingVehicles) + [served]
      ensures waitingTimes == old(waitingTimes) + [served.vehicle.waitingTime]
      ensures emergencyWaitingTimes
           == old(emergencyWaitingTimes) + if served.vehicle.kind == Emergency then [served.vehicle.waitingTime] else []
    {
      crossingVehicles := crossingVehicles + [served];
      waitingTimes := waitingTimes + [served.vehicle.waitingTime];
      if served.vehicle.kind == Emergency {
        emergencyWaitingTimes := emergencyWaitingTimes + [served.vehicle.waitingTime];
      }
    }

    /** Recomputes the averages that have samples, the maximum wait, the
        throughput and the utilization, and records a snapshot every 5 ticks. */
    method UpdateMetrics()
      modifies this`metrics, this`realtimeMetrics
      ensures State() == MetricsUpdated(old(State()))
    {
      var avgWaitingTime, maxWaitingTime := metrics.avgWaitingTime, metrics.maxWaitingTime;
      var emergencyDelay, avgTurnaroundTime, avgResponseTime :=
        metrics.emergencyDelay, metrics.avgTurnaroundTime, metrics.avgResponseTime;
      if |waitingTimes| > 0 {
        avgWaitingTime, maxWaitingTime := Mean(waitingTimes), Max(waitingTimes);
      }
      if |emergencyWaitingTimes| > 0 {
        emergencyDelay := Mean(emergencyWaitingTimes);
      }
      if |turnaroundTimes| > 0 {
        avgTurnaroundTime := Mean(turnaroundTimes);
      }
      if |responseTimes| > 0 {
        avgResponseTime := Mean(responseTimes);
      }
      metrics := Metrics(avgWaitingTime, maxWaitingTime, Throughput(Total(processedVehicles), time), emergencyDelay,
                         avgTurnaroundTime, avgResponseTime, Utilization(time, totalIdleTime));
      if time % SampleEvery == 0 {
        realtimeMetrics := realtimeMetrics + [Snapshot(time, metrics.throughput, metrics.avgWaitingTime,
          metrics.avgTurnaroundTime, metrics.avgResponseTime, metrics.utilization,
          TotalQueued(vehicles), QueuedEmergencies(vehicles))];
      }
    }

    /** The first approach, in the order N, S, E, W, with an emergency vehicle waiting. */
    function HasEmergencyVehicles(): (r: Option<Direction>)
      reads this
      ensures r.None? <==> forall d :: !HasEmergency(vehicles.Get(d))
      ensures r.Some? ==> HasEmergency(vehicles.Get(r.value))
      ensures r.Some? ==> forall d :: ArrivalRank(d) < ArrivalRank(r.value) ==> !HasEmergency(vehicles.Get(d))
    {
      FirstEmergencyInArrivalOrder(vehicles);
      FirstEmergency(ArrivalOrder, vehicles)
    }

    /** The hybrid policy's round robin: the first non-empty approach after the
        last one it chose, or its plain successor when every queue is empty. */
    method GetNextRoundRobinDirection() returns (d: Direction)
      modifies this`lastRoundRobinDirection
      ensures d == SkipEmptySuccessor(old(lastRoundRobinDirection), vehicles)
      ensures lastRoundRobinDirection == d
    {
      d := SkipEmptyScan(lastRoundRobinDirection, vehicles);
      lastRoundRobinDirection := d;
    }

    /** The direction the configured policy picks at a switch. */
    method GetNextDirection() returns (d: Direction)
      modifies this`lastRoundRobinDirection
      ensures Choice(d, lastRoundRobinDirection)
           == NextDirection(algorithmType, activeDirection, vehicles, old(lastRoundRobinDirection))
    {
      match algorithmType
      case RoundRobin =>
        var currentIndex := Position(activeDirection);
        d := SchedulingOrder[(currentIndex + 1) % 4];
      case PriorityScheduling =>
        var emergency := FirstEmergencyScan(vehicles);
        if emergency.Some? {
          d := emergency.value;
        } else {
          d := MostVehicles(vehicles);
        }
      case ShortestJobNext =>
        d := ShortestJobScan(vehicles);
      case Hybrid =>
        var emergency := HasEmergencyVehicles();
        if emergency.Some? {
          d := emergency.value;
        } else {
          d := GetNextRoundRobinDirection();
        }
      case Unrecognized =>
        d := activeDirection;
    }

    /** `step`: one tick of the simulation, which keeps the invariant. */
    method Step(draws: Draws)
      requires Valid()
      modifies this
      ensures State() == Stepped(old(State()), draws)
      ensures Valid()
    {
      ghost var before := State();
      Tick(draws);
      StepKeepsInv(before, draws);
    }

    /** The body of `step`: arrivals, service, the hybrid emergency
        preemption, the slice countdown and the switch, then the metrics. */
    method Tick(draws: Draws)
      modifies this
      ensures State() == Stepped(old(State()), draws)
    {
      Arrive(draws);
      SwitchSignal();
      UpdateMetrics();
    }

    /** The first part of a tick: the clock advances, vehicles arrive and the
        active queue is served. */
    method Arrive(draws: Draws)
      modifies this`time, this`vehicles, this`vehicleIdCounter, this`totalVehiclesGenerated,
               this`responseTimes, this`turnaroundTimes, this`crossingVehicles,
               this`processedVehicles, this`waitingTimes, this`emergencyWaitingTimes, this`totalIdleTime
      ensures State() == Processed(WithArrivals(Clocked(old(State())), draws))
    {
      time := time + 1;
      AddVehicles(draws);
      ProcessVehicles();
    }

    /** The signal part of a tick: under the hybrid policy an emergency
        vehicle on another approach takes the green at once with a fresh
        slice; otherwise the slice counts down and may end in a switch. */
    method SwitchSignal()
      modifies this`timeRemaining, this`activeDirection, this`directionSwitches, this`lastRoundRobinDirection
      ensures State() == Signalled(old(State()))
    {
      if algorithmType == Hybrid && timeRemaining > 0 {
        var emergencyDirection := HasEmergencyVehicles();
        if emergencyDirection.Some? && emergencyDirection.value != activeDirection {
          Preempt(emergencyDirection.value);
          return;
        }
      }
      CountDown();
    }

    /** The green goes to `d` at once with a fresh slice, counted as a switch. */
    method Preempt(d: Direction)
      modifies this`timeRemaining, this`activeDirection, this`directionSwitches
      ensures State() == Preempted(old(State()), d)
    {
      activeDirection := d;
      timeRemaining := timeSlice;
      directionSwitches := directionSwitches + 1;
    }

    /** The slice counts down; when it runs out (or, under the hybrid policy,
        the active queue is empty) the policy picks the next direction. */
    method CountDown()
      modifies this`timeRemaining, this`activeDirection, this`directionSwitches, this`lastRoundRobinDirection
      ensures State() == CountedDown(old(State()))
    {
      timeRemaining := timeRemaining - 1;
      if timeRemaining <= 0 || (algorithmType == Hybrid && |vehicles.Get(activeDirection)| == 0) {
        HandOver();
      }
    }

    /** The green goes to the policy's pick with a fresh slice, a change of
        direction counting as a switch. */
    method HandOver()
      modifies this`timeRemaining, this`activeDirection, this`directionSwitches, this`lastRoundRobinDirection
      ensures State() == HandedOver(old(State()),
                 NextDirection(algorithmType, old(activeDirection), vehicles, old(lastRoundRobinDirection)))
    {
      var oldDirection := activeDirection;
      SwitchToNext();
      CountSwitch(oldDirection);
    }

    /** A green that moved away from `from` counts as one more switch. */
    method CountSwitch(from: Direction)
      modifies this`directionSwitches
      ensures directionSwitches == old(directionSwitches) + if from != activeDirection then 1 else 0
    {
      if from != activeDirection {
        directionSwitches := directionSwitches + 1;
      }
    }

    /** The green goes to the policy's pick with a fresh slice; under the
        priority policy the pick is taken twice over, the second time when
        the first is not an emergency on another approach. */
    method SwitchToNext()
      modifies this`timeRemaining, this`activeDirection, this`lastRoundRobinDirection
      ensures Choice(activeDirection, lastRoundRobinDirection)
           == NextDirection(algorithmType, old(activeDirection), vehicles, old(lastRoundRobinDirection))
      ensures timeRemaining == timeSlice
    {
      if algorithmType == PriorityScheduling {
        var emergencyDirection := GetNextDirection();
        if emergencyDirection != activeDirection && HasEmergency(vehicles.Get(emergencyDirection)) {
          activeDirection := emergencyDirection;
          timeRemaining := timeSlice;
        } else {
          // the policy argument of this call is ignored: it repeats the priority choice
          activeDirection := GetNextDirection();
          timeRemaining := timeSlice;
        }
      } else {
        activeDirection := GetNextDirection();
        timeRemaining := timeSlice;
      }
    }

    /** The summary of the last 20 snapshots (all of them while fewer were taken). */
    function GetRealtimeMetrics(): (r: seq<Snapshot>)
      reads this
      ensures |r| == if |realtimeMetrics| < HistoryWindow then |realtimeMetrics| else HistoryWindow
      ensures forall i :: 0 <= i < |r| ==> r[i] == realtimeMetrics[|realtimeMetrics| - |r| + i]
    {
      if |realtimeMetrics| <= HistoryWindow then realtimeMetrics
      else realtimeMetrics[|realtimeMetrics| - HistoryWindow..]
    }

    /** Totals over the queues and counters, with the current metrics. */
    function GetStatistics(): (s: Statistics)
      requires Valid()
      reads this
      ensures s.totalProcessed == Total(processedVehicles) && s.totalGenerated == totalVehiclesGenerated
      ensures s.totalWaiting == TotalQueued(vehicles)
      ensures s.emergencyCount == QueuedEmergencies(vehicles) <= s.totalWaiting
      ensures s.totalProcessed + s.totalWaiting <= s.totalGenerated
      ensures s.efficiency == Efficiency(s.totalProcessed, s.totalGenerated)
      ensures 0.0 <= s.efficiency <= 100.0
      ensures s.totalGenerated == 0 ==> s.efficiency == 0.0
      ensures s.directionSwitches == directionSwitches && s.metrics == metrics
    {
      EfficiencyBounded(Total(processedVehicles), totalVehiclesGenerated);
      Statistics(Total(processedVehicles), TotalQueued(vehicles), QueuedEmergencies(vehicles), totalVehiclesGenerated,
                 Efficiency(Total(processedVehicles), totalVehiclesGenerated), directionSwitches, metrics)
    }
  }
}
