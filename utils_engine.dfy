/** The engine of src/utils/TrafficSimulation.js: three policies chosen per
    call of `step`, queues capped at 15 vehicles, and a count of the vehicles
    generated. Its tick is the one SliceEngine specifies, with the cap. */
module UtilsEngine {
  import opened Intersection
  import opened Scheduling
  import opened Measures
  import opened SliceEngine

  /** The record returned by `getStatistics`, the metrics spread into it. */
  datatype Statistics = Statistics(
    totalProcessed: nat, totalWaiting: nat, emergencyCount: nat, totalGenerated: nat,
    efficiency: real, metrics: WaitMetrics)

  class TrafficSimulation {
    var time: nat
    var activeDirection: Direction
    var timeRemaining: int
    var timeSlice: int
    var vehicles: Lanes
    var processedVehicles: PerDirection<nat>
    var metrics: WaitMetrics
    var crossingVehicles: seq<Crossing>
    var waitingTimes: seq<int>
    var emergencyWaitingTimes: seq<int>
    var totalVehiclesGenerated: nat

    /** The fields of the tick as one value. */
    ghost function State(): Engine
      reads this
    {
      Engine(time, activeDirection, timeRemaining, timeSlice, vehicles, processedVehicles, metrics,
             crossingVehicles, waitingTimes, emergencyWaitingTimes)
    }

    /** The tick's invariant with the cap, and no more vehicles served or
        queued than were generated (the cap discards the rest). */
    ghost predicate Valid()
      reads this
    {
      && Inv(State(), true)
      && Total(processedVehicles) + TotalQueued(vehicles) <= totalVehiclesGenerated
    }

    constructor ()
      ensures State() == ResetState && totalVehiclesGenerated == 0 && Valid()
    {
      new;
      Reset();
      InitialInv(true);
    }

    /** Back to time 0 with empty queues, records and metrics. */
    method Reset()
      modifies this
      ensures State() == ResetState && totalVehiclesGenerated == 0
    {
      time := 0;
      activeDirection := North;
      timeRemaining := 10;
      timeSlice := 10;
      vehicles := NoVehicles;
      processedVehicles := PerDirection(0, 0, 0, 0);
      metrics := ZeroWaitMetrics;
      crossingVehicles := [];
      waitingTimes := [];
      emergencyWaitingTimes := [];
      totalVehiclesGenerated := 0;
    }

    /** Builds a vehicle that arrives now with nothing waited yet, crosses in
        2 to 4 ticks, has priority 1 exactly when it is an emergency vehicle,
        and is counted as generated. */
    method GenerateVehicle(draw: Draw) returns (vehicle: Vehicle)
      modifies this`totalVehiclesGenerated
      ensures vehicle.id == draw.stamp && vehicle.arrivalTime == time && vehicle.waitingTime == 0
      ensures 2 <= vehicle.crossingTime <= 4
      ensures vehicle.kind == Emergency <==> draw.emergency
      ensures vehicle.Priority() == 1 <==> draw.emergency
      ensures vehicle == NewVehicle(draw.stamp, draw, time)
      ensures totalVehiclesGenerated == old(totalVehiclesGenerated) + 1
    {
      vehicle := Vehicle(draw.stamp, if draw.emergency then Emergency else Regular, time, draw.roll + 2, 0);
      totalVehiclesGenerated := totalVehiclesGenerated + 1;
    }

    /** One arrival trial per approach in the order N, S, E, W: a spawned
        vehicle joins the tail and a queue longer than 15 loses its tail. */
    method AddVehicles(draws: Draws)
      modifies this`vehicles, this`totalVehiclesGenerated
      ensures vehicles == ArrivedLanes(old(vehicles), draws, time, true)
      ensures totalVehiclesGenerated == old(totalVehiclesGenerated) + SpawnsAmong(draws, 4)
    {
      for i := 0 to 4
        invariant forall d ::
          vehicles.Get(d)
            == if ArrivalRank(d) < i then Arrival(old(vehicles.Get(d)), draws.Get(d), time, true) else old(vehicles.Get(d))
        invariant totalVehiclesGenerated == old(totalVehiclesGenerated) + SpawnsAmong(draws, i)
      {
        var direction := ArrivalOrder[i];
        RankOfArrivalOrder(i);
        ArriveAt(direction, draws.Get(direction));
      }
      ArrivedLanesByDirection(old(vehicles), vehicles, draws, time, true);
    }

    /** The arrival trial for one approach: a spawned vehicle joins the tail,
        and a queue longer than 15 loses its tail. */
    method ArriveAt(direction: Direction, draw: Draw)
      modifies this`vehicles, this`totalVehiclesGenerated
      ensures vehicles == old(vehicles).Set(direction, Arrival(old(vehicles.Get(direction)), draw, time, true))
      ensures totalVehiclesGenerated == old(totalVehiclesGenerated) + if draw.spawn then 1 else 0
    {
      var queue := vehicles.Get(direction);
      if draw.spawn {
        var vehicle := GenerateVehicle(draw);
        queue := queue + [vehicle];
      }
      if |queue| > QueueCap {
        queue := queue[..QueueCap];
      }
      vehicles := vehicles.Set(direction, queue);
    }

    /** Refreshes the waiting times, then serves the head of the active queue
        when there is one. */
    method ProcessVehicles()
      modifies this`vehicles, this`crossingVehicles, this`processedVehicles, this`waitingTimes,
               this`emergencyWaitingTimes
      ensures State() == Processed(old(State()))
    {
      vehicles := RefreshLanes(vehicles, time);
      if |vehicles.Get(activeDirection)| > 0 {
        var vehicle := Dequeue();
        RecordCrossing(Crossing(vehicle, activeDirection, time));
      }
    }

    /** Takes the head off the active queue and counts it as served. */
    method Dequeue() returns (vehicle: Vehicle)
      requires vehicles.Get(activeDirection) != []
      modifies this`vehicles, this`processedVehicles
      ensures vehicle == old(vehicles.Get(activeDirection))[0]
      ensures State() == Dequeued(old(State()))
    {
      var queue := vehicles.Get(activeDirection);
      vehicle := queue[0];
      vehicles := vehicles.Set(activeDirection, queue[1..]);
      processedVehicles := processedVehicles.Set(activeDirection, processedVehicles.Get(activeDirection) + 1);
    }

    /** Records the crossing of a served vehicle and its wait samples. */
    method RecordCrossing(crossing: Crossing)
      modifies this`crossingVehicles, this`waitingTimes, this`emergencyWaitingTimes
      ensures State() == Recorded(old(State()), crossing)
    {
      crossingVehicles := crossingVehicles + [crossing];
      waitingTimes := waitingTimes + [crossing.vehicle.waitingTime];
      if crossing.vehicle.kind == Emergency {
        emergencyWaitingTimes := emergencyWaitingTimes + [crossing.vehicle.waitingTime];
      }
    }

    /** Recomputes the average and the maximum wait and the emergency delay
        when they have samples, and the throughput. */
    method UpdateMetrics()
      modifies this`metrics
      ensures State() == MetricsUpdated(old(State()))
    {
      var avgWaitingTime, maxWaitingTime, emergencyDelay :=
        metrics.avgWaitingTime, metrics.maxWaitingTime, metrics.emergencyDelay;
      if |waitingTimes| > 0 {
        avgWaitingTime := Mean(waitingTimes);
        maxWaitingTime := Max(waitingTimes);
      }
      if |emergencyWaitingTimes| > 0 {
        emergencyDelay := Mean(emergencyWaitingTimes);
      }
      metrics := WaitMetrics(avgWaitingTime, maxWaitingTime, Throughput(Total(processedVehicles), time), emergencyDelay);
    }

    /** The direction `algorithm` picks: the cyclic successor, the first
        emergency else the longest queue, the smallest total crossing time,
        or the active direction for any other algorithm. */
    method GetNextDirection(algorithm: Algorithm) returns (d: Direction)
      ensures d == FixedPolicyChoice(algorithm, activeDirection, vehicles)
    {
      match algorithm
      case RoundRobin =>
        var currentIndex := Position(activeDirection);
        d := SchedulingOrder[(currentIndex + 1) % 4];
      case PriorityScheduling =>
        var emergency := FirstEmergencyScan(vehicles);
        if emergency.Some? {
          d := emergency.value;
        } else {
          d := MostVehicles(vehicles);
        }
      case ShortestJobNext =>
        d := ShortestJobScan(vehicles);
      case _ =>
        d := activeDirection;
    }

    /** `step`: one tick of the simulation, which keeps the invariant and
        counts one generated vehicle per spawn. */
    method Step(algorithm: Algorithm, draws: Draws)
      requires Valid()
      modifies this
      ensures State() == Stepped(old(State()), algorithm, draws, true)
      ensures totalVehiclesGenerated == old(totalVehiclesGenerated) + SpawnsAmong(draws, 4)
      ensures Valid()
    {
      ghost var before := State();
      Tick(algorithm, draws);
      StepKeepsInv(before, algorithm, draws, true);
      StepConserves(before, algorithm, draws, true);
    }

    /** The body of `step`: arrivals and the countdown, the service, the
        switch, then the metrics. */
    method Tick(algorithm: Algorithm, draws: Draws)
      modifies this
      ensures State() == Stepped(old(State()), algorithm, draws, true)
      ensures totalVehiclesGenerated == old(totalVehiclesGenerated) + SpawnsAmong(draws, 4)
    {
      Arrive(draws);
      Complete(algorithm);
    }

    /** The rest of a tick: the service, the switch and the metrics. */
    method Complete(algorithm: Algorithm)
      modifies this`vehicles, this`crossingVehicles, this`processedVehicles, this`waitingTimes,
               this`emergencyWaitingTimes, this`activeDirection, this`timeRemaining, this`metrics
      ensures State() == MetricsUpdated(Switched(Granted(old(State())), algorithm))
    {
      Serve();
      Switch(algorithm);
      UpdateMetrics();
    }

    /** The start of a tick: the clock advances, vehicles arrive and the slice
        is decremented. */
    method Arrive(draws: Draws)
      modifies this`time, this`vehicles, this`totalVehiclesGenerated, this`timeRemaining
      ensures State() == Decremented(WithArrivals(Clocked(old(State())), draws, true))
      ensures totalVehiclesGenerated == old(totalVehiclesGenerated) + SpawnsAmong(draws, 4)
    {
      time := time + 1;
      AddVehicles(draws);
      timeRemaining := timeRemaining - 1;
    }

    /** Serves the active queue while time is left in the slice and a vehicle waits. */
    method Serve()
      modifies this`vehicles, this`crossingVehicles, this`processedVehicles, this`waitingTimes,
               this`emergencyWaitingTimes
      ensures State() == Granted(old(State()))
    {
      if timeRemaining > 0 && |vehicles.Get(activeDirection)| > 0 {
        ProcessVehicles();
      }
    }

    /** Passes the green on, with a fresh slice, when the slice is used up or
        the active queue is empty. */
    method Switch(algorithm: Algorithm)
      modifies this`activeDirection, this`timeRemaining
      ensures State() == Switched(old(State()), algorithm)
    {
      if timeRemaining <= 0 || |vehicles.Get(activeDirection)| == 0 {
        activeDirection := GetNextDirection(algorithm);
        timeRemaining := timeSlice;
      }
    }

    /** Totals over the queues and counters, with the current metrics. */
    function GetStatistics(): (s: Statistics)
      requires Valid()
      reads this
      ensures s.totalProcessed == Total(processedVehicles) && s.totalGenerated == totalVehiclesGenerated
      ensures s.totalWaiting == TotalQueued(vehicles)
      ensures s.emergencyCount == QueuedEmergencies(vehicles) <= s.totalWaiting
      ensures s.totalProcessed + s.totalWaiting <= s.totalGenerated
      ensures s.efficiency == Efficiency(s.totalProcessed, s.totalGenerated)
      ensures 0.0 <= s.efficiency <= 100.0
      ensures s.totalGenerated == 0 ==> s.efficiency == 0.0
      ensures s.metrics == metrics
    {
      EfficiencyBounded(Total(processedVehicles), totalVehiclesGenerated);
      Statistics(Total(processedVehicles), TotalQueued(vehicles), QueuedEmergencies(vehicles), totalVehiclesGenerated,
                 Efficiency(Total(processedVehicles), totalVehiclesGenerated), metrics)
    }
  }
}
