/** The earliest engine, the `TrafficSimulation` class of App.jsx: the same
    tick as src/utils (SliceEngine), but queues grow without a cap, nothing
    counts the vehicles generated, and its density tiers differ. */
module RootAppEngine {
  import opened Intersection
  import opened Scheduling
  import opened Measures
  import opened SliceEngine

  /** The density tiers of `addVehicles`: low 0.3, medium 0.6, anything else 0.9. */
  function TierFactor(density: string): (f: real)
    ensures f == 0.3 || f == 0.6 || f == 0.9
    ensures density == "low" <==> f == 0.3
    ensures density == "medium" <==> f == 0.6
    ensures density != "low" && density != "medium" <==> f == 0.9
  {
    if density == "low" then 0.3 else if density == "medium" then 0.6 else 0.9
  }

  class TrafficSimulation {
    var time: nat
    var activeDirection: Direction
    var timeRemaining: int
    var timeSlice: int
    var vehicles: Lanes
    var processedVehicles: PerDirection<nat>
    var metrics: WaitMetrics
    var crossingVehicles: seq<Crossing>
    var waitingTimes: seq<int>
    var emergencyWaitingTimes: seq<int>
    /** The number of vehicles ever appended to a queue since the last reset
        (the engine itself keeps no such count). */
    ghost var appended: nat

    /** The fields of the tick as one value. */
    ghost function State(): Engine
      reads this
    {
      Engine(time, activeDirection, timeRemaining, timeSlice, vehicles, processedVehicles, metrics,
             crossingVehicles, waitingTimes, emergencyWaitingTimes)
    }

    /** The tick's invariant without the cap, and every vehicle ever appended
        is either still queued or served: nothing is dropped. */
    ghost predicate Valid()
      reads this
    {
      && Inv(State(), false)
      && Total(processedVehicles) + TotalQueued(vehicles) == appended
    }

    constructor ()
      ensures State() == ResetState && appended == 0 && Valid()
    {
      new;
      Reset();
      InitialInv(false);
    }

    /** Back to time 0 with empty queues, records and metrics. */
    method Reset()
      modifies this
      ensures State() == ResetState && appended == 0
    {
      time := 0;
      activeDirection := North;
      timeRemaining := 10;
      timeSlice := 10;
      vehicles := NoVehicles;
      processedVehicles := PerDirection(0, 0, 0, 0);
      metrics := ZeroWaitMetrics;
      crossingVehicles := [];
      waitingTimes := [];
      emergencyWaitingTimes := [];
      appended := 0;
    }

    /** A vehicle that arrives now with nothing waited yet and crosses in 2
        to 4 ticks; building it changes nothing. */
    function GenerateVehicle(draw: Draw): (vehicle: Vehicle)
      reads this
      ensures vehicle.id == draw.stamp && vehicle.arrivalTime == time && vehicle.waitingTime == 0
      ensures 2 <= vehicle.crossingTime <= 4
      ensures vehicle.kind == Emergency <==> draw.emergency
    {
      NewVehicle(draw.stamp, draw, time)
    }

    /** One arrival trial per approach in the order N, S, E, W: a spawned
        vehicle joins the tail, and no queue is ever cut. */
    method AddVehicles(draws: Draws)
      modifies this`vehicles, this`appended
      ensures vehicles == ArrivedLanes(old(vehicles), draws, time, false)
      ensures appended == old(appended) + SpawnsAmong(draws, 4)
    {
      for i := 0 to 4
        invariant forall d ::
          vehicles.Get(d)
            == if ArrivalRank(d) < i then Arrival(old(vehicles.Get(d)), draws.Get(d), time, false) else old(vehicles.Get(d))
        invariant appended == old(appended) + SpawnsAmong(draws, i)
      {
        var direction := ArrivalOrder[i];
        RankOfArrivalOrder(i);
        ArriveAt(direction, draws.Get(direction));
      }
      ArrivedLanesByDirection(old(vehicles), vehicles, draws, time, false);
    }

    /** The arrival trial for one approach: a spawned vehicle joins the tail. */
    method ArriveAt(direction: Direction, draw: Draw)
      modifies this`vehicles, this`appended
      ensures vehicles == old(vehicles).Set(direction, Arrival(old(vehicles.Get(direction)), draw, time, false))
      ensures appended == old(appended) + if draw.spawn then 1 else 0
    {
      if draw.spawn {
        vehicles := vehicles.Set(direction, vehicles.Get(direction) + [GenerateVehicle(draw)]);
        appended := appended + 1;
      }
    }

    /** Refreshes the waiting times, then serves the head of the active queue
        when there is one. */
    method ProcessVehicles()
      modifies this`vehicles, this`crossingVehicles, this`processedVehicles, this`waitingTimes,
               this`emergencyWaitingTimes
      ensures State() == Processed(old(State()))
    {
      vehicles := RefreshLanes(vehicles, time);
      if |vehicles.Get(activeDirection)| > 0 {
        var vehicle := Dequeue();
        RecordCrossing(Crossing(vehicle, activeDirection, time));
      }
    }

    /** Takes the head off the active queue and counts it as served. */
    method Dequeue() returns (vehicle: Vehicle)
      requires vehicles.Get(activeDirection) != []
      modifies this`vehicles, this`processedVehicles
      ensures vehicle == old(vehicles.Get(activeDirection))[0]
      ensures State() == Dequeued(old(State()))
    {
      var queue := vehicles.Get(activeDirection);
      vehicle := queue[0];
      vehicles := vehicles.Set(activeDirection, queue[1..]);
      processedVehicles := processedVehicles.Set(activeDirection, processedVehicles.Get(activeDirection) + 1);
    }

    /** Records the crossing of a served vehicle and its wait samples. */
    method RecordCrossing(crossing: Crossing)
      modifies this`crossingVehicles, this`waitingTimes, this`emergencyWaitingTimes
      ensures State() == Recorded(old(State()), crossing)
    {
      crossingVehicles := crossingVehicles + [crossing];
      waitingTimes := waitingTimes + [crossing.vehicle.waitingTime];
      if crossing.vehicle.kind == Emergency {
        emergencyWaitingTimes := emergencyWaitingTimes + [crossing.vehicle.waitingTime];
      }
    }

    /** Recomputes the average and the maximum wait and the emergency delay
        when they have samples, and the throughput. */
    method UpdateMetrics()
      modifies this`metrics
      ensures State() == MetricsUpdated(old(State()))
    {
      var avgWaitingTime, maxWaitingTime, emergencyDelay :=
        metrics.avgWaitingTime, metrics.maxWaitingTime, metrics.emergencyDelay;
      if |waitingTimes| > 0 {
        avgWaitingTime := Mean(waitingTimes);
        maxWaitingTime := Max(waitingTimes);
      }
      if |emergencyWaitingTimes| > 0 {
        emergencyDelay := Mean(emergencyWaitingTimes);
      }
      metrics := WaitMetrics(avgWaitingTime, maxWaitingTime, Throughput(Total(processedVehicles), time), emergencyDelay);
    }

    /** The direction `algorithm` picks: the cyclic successor, the first
        emergency else the longest queue, the shortest-job reduce, or the
        active direction for any other algorithm. */
    method GetNextDirection(algorithm: Algorithm) returns (d: Direction)
      ensures d == FixedPolicyChoice(algorithm, activeDirection, vehicles)
    {
      match algorithm
      case RoundRobin =>
        var currentIndex := Position(activeDirection);
        d := SchedulingOrder[(currentIndex + 1) % 4];
      case PriorityScheduling =>
        var emergency := FirstEmergencyScan(vehicles);
        if emergency.Some? {
          d := emergency.value;
        } else {
          d := MostVehicles(vehicles);
        }
      case ShortestJobNext =>
        d := ShortestJob(vehicles);
      case _ =>
        d := activeDirection;
    }

    /** `step`: one tick of the simulation, which keeps the invariant and
        accounts for every vehicle appended on the tick. */
    method Step(algorithm: Algorithm, draws: Draws)
      requires Valid()
      modifies this
      ensures State() == Stepped(old(State()), algorithm, draws, false)
      ensures appended == old(appended) + SpawnsAmong(draws, 4)
      ensures Valid()
    {
      ghost var before := State();
      Tick(algorithm, draws);
      StepKeepsInv(before, algorithm, draws, false);
      StepConserves(before, algorithm, draws, false);
    }

    /** The body of `step`: arrivals and the countdown, then the rest. */
    method Tick(algorithm: Algorithm, draws: Draws)
      modifies this
      ensures State() == Stepped(old(State()), algorithm, draws, false)
      ensures appended == old(appended) + SpawnsAmong(draws, 4)
    {
      Arrive(draws);
      Complete(algorithm);
    }

    /** The start of a tick: the clock advances, vehicles arrive and the slice
        is decremented. */
    method Arrive(draws: Draws)
      modifies this`time, this`vehicles, this`appended, this`timeRemaining
      ensures State() == Decremented(WithArrivals(Clocked(old(State())), draws, false))
      ensures appended == old(appended) + SpawnsAmong(draws, 4)
    {
      time := time + 1;
      AddVehicles(draws);
      timeRemaining := timeRemaining - 1;
    }

    /** The rest of a tick: the service, the switch and the metrics. */
    method Complete(algorithm: Algorithm)
      modifies this`vehicles, this`crossingVehicles, this`processedVehicles, this`waitingTimes,
               this`emergencyWaitingTimes, this`activeDirection, this`timeRemaining, this`metrics
      ensures State() == MetricsUpdated(Switched(Granted(old(State())), algorithm))
    {
      Serve();
      Switch(algorithm);
      UpdateMetrics();
    }

    /** Serves the active queue while time is left in the slice and a vehicle waits. */
    method Serve()
      modifies this`vehicles, this`crossingVehicles, this`processedVehicles, this`waitingTimes,
               this`emergencyWaitingTimes
      ensures State() == Granted(old(State()))
    {
      if timeRemaining > 0 && |vehicles.Get(activeDirection)| > 0 {
        ProcessVehicles();
      }
    }

    /** Passes the green on, with a fresh slice, when the slice is used up or
        the active queue is empty. */
    method Switch(algorithm: Algorithm)
      modifies this`activeDirection, this`timeRemaining
      ensures State() == Switched(old(State()), algorithm)
    {
      if timeRemaining <= 0 || |vehicles.Get(activeDirection)| == 0 {
        activeDirection := GetNextDirection(algorithm);
        timeRemaining := timeSlice;
      }
    }
  }
}
