/** The tick shared by the engine of src/utils/TrafficSimulation.js and the
    earlier one of App.jsx: the clock advances, vehicles arrive, the slice is
    decremented, the head of the active queue is served when time is left and
    a vehicle waits, and the green passes on when the slice is used up or the
    active queue is empty. The two differ in the queue cap (15 vehicles in
    src/utils, none in App.jsx), which `capped` selects, and in counters that
    their own modules add. */
module SliceEngine {
  import opened Intersection
  import opened Scheduling
  import opened Measures

  /** The fields the two engines share, as their classes hold them. */
  datatype Engine = Engine(
    time: nat, activeDirection: Direction, timeRemaining: int, timeSlice: int,
    vehicles: Lanes, processedVehicles: PerDirection<nat>, metrics: WaitMetrics,
    crossingVehicles: seq<Crossing>, waitingTimes: seq<int>, emergencyWaitingTimes: seq<int>)

  /** The state `reset` establishes: time 0, north has the green with a full
      slice of 10 ticks, nothing queued, served or measured. */
  const ResetState: Engine :=
    Engine(0, North, TimeSlice, TimeSlice, NoVehicles, PerDirection(0, 0, 0, 0), ZeroWaitMetrics, [], [], [])

  /** One approach's arrival trial: a spawned vehicle, identified by its
      stamp, joins the tail; with the cap, a queue longer than 15 loses its tail. */
  function Arrival(q: seq<Vehicle>, draw: Draw, now: int, capped: bool): seq<Vehicle>
  {
    if capped then Truncated(Enqueued(q, draw, draw.stamp, now), QueueCap)
    else Enqueued(q, draw, draw.stamp, now)
  }

  /** Every approach after its arrival trial. The trials touch one queue each,
      so their order N, S, E, W does not matter. */
  function ArrivedLanes(lanes: Lanes, draws: Draws, now: int, capped: bool): Lanes
  {
    PerDirection(Arrival(lanes.north, draws.north, now, capped), Arrival(lanes.south, draws.south, now, capped),
                 Arrival(lanes.east, draws.east, now, capped), Arrival(lanes.west, draws.west, now, capped))
  }

  lemma ArrivedLanesGet(lanes: Lanes, draws: Draws, now: int, capped: bool, d: Direction)
    ensures ArrivedLanes(lanes, draws, now, capped).Get(d) == Arrival(lanes.Get(d), draws.Get(d), now, capped)
  {
  }

  /** Lanes whose every queue went through its own arrival trial are the
      arrived lanes. */
  lemma ArrivedLanesByDirection(before: Lanes, after: Lanes, draws: Draws, now: int, capped: bool)
    requires forall d :: after.Get(d) == Arrival(before.Get(d), draws.Get(d), now, capped)
    ensures after == ArrivedLanes(before, draws, now, capped)
  {
    forall j | 0 <= j < 4
      ensures after.Get(ArrivalOrder[j]) == ArrivedLanes(before, draws, now, capped).Get(ArrivalOrder[j])
    {
      ArrivedLanesGet(before, draws, now, capped, ArrivalOrder[j]);
    }
    PerDirectionExt(after, ArrivedLanes(before, draws, now, capped));
  }

  /** `addVehicles`. */
  function WithArrivals(e: Engine, draws: Draws, capped: bool): Engine
  {
    e.(vehicles := ArrivedLanes(e.vehicles, draws, e.time, capped))
  }

  /** The clock advancing by one tick. */
  function Clocked(e: Engine): Engine
  {
    e.(time := e.time + 1)
  }

  /** One tick less left in the current slice. */
  function Decremented(e: Engine): Engine
  {
    e.(timeRemaining := e.timeRemaining - 1)
  }

  /** Every queued vehicle's wait becomes the time since its arrival. */
  function WaitsRefreshed(e: Engine): Engine
  {
    e.(vehicles := RefreshedLanes(e.vehicles, e.time))
  }

  /** The `shift` of the active queue, counted as one more vehicle served. */
  function Dequeued(e: Engine): Engine
    requires e.vehicles.Get(e.activeDirection) != []
  {
    e.(vehicles := e.vehicles.Set(e.activeDirection, e.vehicles.Get(e.activeDirection)[1..]),
       processedVehicles := e.processedVehicles.Set(e.activeDirection, e.processedVehicles.Get(e.activeDirection) + 1))
  }

  /** The crossing record and the samples of a served vehicle: its wait, and
      for an emergency vehicle the wait once more. */
  function Recorded(e: Engine, c: Crossing): Engine
  {
    e.(crossingVehicles := e.crossingVehicles + [c],
       waitingTimes := e.waitingTimes + [c.vehicle.waitingTime],
       emergencyWaitingTimes := e.emergencyWaitingTimes + if c.vehicle.kind == Emergency then [c.vehicle.waitingTime] else [])
  }

  /** The head of the active queue leaves it and starts crossing now. */
  function HeadServed(e: Engine): Engine
    requires e.vehicles.Get(e.activeDirection) != []
  {
    Recorded(Dequeued(e), Crossing(e.vehicles.Get(e.activeDirection)[0], e.activeDirection, e.time))
  }

  /** The active queue's head is served when there is one. */
  function Serving(e: Engine): Engine
  {
    if e.vehicles.Get(e.activeDirection) != [] then HeadServed(e) else e
  }

  /** `processVehicles`: the waits are refreshed, then the head of the active
      queue, if any, is served. */
  function Processed(e: Engine): Engine
  {
    Serving(WaitsRefreshed(e))
  }

  /** The guarded call of `processVehicles` in `step`: only while time is
      left in the slice and a vehicle waits on the active approach. */
  function Granted(e: Engine): Engine
  {
    if e.timeRemaining > 0 && e.vehicles.Get(e.activeDirection) != [] then Processed(e) else e
  }

  /** The switch of `step`: when the slice is used up or the active queue is
      empty, the policy picks the next direction and a fresh slice starts. */
  function Switched(e: Engine, algorithm: Algorithm): Engine
  {
    if e.timeRemaining <= 0 || e.vehicles.Get(e.activeDirection) == [] then
      e.(activeDirection := FixedPolicyChoice(algorithm, e.activeDirection, e.vehicles), timeRemaining := e.timeSlice)
    else e
  }

  /** The figures `updateMetrics` computes: the average and the maximum wait
      and the emergency delay when they have samples (else unchanged), and the
      throughput. */
  function Remeasured(e: Engine): WaitMetrics
  {
    WaitMetrics(
      if |e.waitingTimes| > 0 then Mean(e.waitingTimes) else e.metrics.avgWaitingTime,
      if |e.waitingTimes| > 0 then Max(e.waitingTimes) else e.metrics.maxWaitingTime,
      Throughput(Total(e.processedVehicles), e.time),
      if |e.emergencyWaitingTimes| > 0 then Mean(e.emergencyWaitingTimes) else e.metrics.emergencyDelay)
  }

  /** `updateMetrics`. */
  function MetricsUpdated(e: Engine): Engine
  {
    e.(metrics := Remeasured(e))
  }

  /** What `updateMetrics` promises: the maximum wait is the largest sample
      and bounds the average; figures without samples keep their previous
      values; throughput is 0 at time 0 and otherwise counts vehicles served
      per simulated minute; nothing but the metrics changes. */
  lemma MetricsUpdatedMeaning(e: Engine)
    ensures var m := MetricsUpdated(e).metrics;
      && (e.waitingTimes != [] ==>
            && m.maxWaitingTime in e.waitingTimes
            && (forall i :: 0 <= i < |e.waitingTimes| ==> e.waitingTimes[i] <= m.maxWaitingTime)
            && m.avgWaitingTime <= m.maxWaitingTime as real)
      && (e.waitingTimes == [] ==>
            m.avgWaitingTime == e.metrics.avgWaitingTime && m.maxWaitingTime == e.metrics.maxWaitingTime)
      && (e.emergencyWaitingTimes == [] ==> m.emergencyDelay == e.metrics.emergencyDelay)
      && (e.time == 0 ==> m.throughput == 0.0)
      && (e.time > 0 ==> m.throughput * e.time as real == 60.0 * Total(e.processedVehicles) as real)
    ensures MetricsUpdated(e).(metrics := e.metrics) == e
  {
    if e.waitingTimes != [] {
      MeanAtMostMax(e.waitingTimes);
    }
  }

  /** The start of `step`: the clock advances, vehicles arrive and the slice
      is decremented. */
  function Arrived(e: Engine, draws: Draws, capped: bool): Engine
  {
    Decremented(WithArrivals(Clocked(e), draws, capped))
  }

  /** `step(algorithm, density)`, with the density's effect carried by the draws. */
  function Stepped(e: Engine, algorithm: Algorithm, draws: Draws, capped: bool): (r: Engine)
    ensures r.time == e.time + 1
  {
    MetricsUpdated(Switched(Granted(Decremented(WithArrivals(Clocked(e), draws, capped))), algorithm))
  }

  // ---------------------------------------------------------------------
  // The invariant every reachable state satisfies.

  /** The waiting times of the emergency vehicles among the records, in service order. */
  function EmergencyWaits(cs: seq<Crossing>): (w: seq<int>)
    ensures |w| <= |cs|
  {
    if cs == [] then []
    else
      EmergencyWaits(cs[..|cs| - 1])
        + (if cs[|cs| - 1].vehicle.kind == Emergency then [cs[|cs| - 1].vehicle.waitingTime] else [])
  }

  lemma EmergencyWaitsAppend(cs: seq<Crossing>, c: Crossing)
    ensures EmergencyWaits(cs + [c])
         == EmergencyWaits(cs) + (if c.vehicle.kind == Emergency then [c.vehicle.waitingTime] else [])
  {
    assert (cs + [c])[..|cs|] == cs;
  }

  /** Every emergency wait is the wait of some served vehicle, so bounds on
      the latter carry over. */
  lemma {:induction false} EmergencyWaitsWithin(cs: seq<Crossing>, lo: int, hi: int)
    requires forall i :: 0 <= i < |cs| ==> lo <= cs[i].vehicle.waitingTime <= hi
    ensures forall j :: 0 <= j < |EmergencyWaits(cs)| ==> lo <= EmergencyWaits(cs)[j] <= hi
  {
    if cs != [] {
      var init := cs[..|cs| - 1];
      assert forall i :: 0 <= i < |init| ==> init[i] == cs[i];
      EmergencyWaitsWithin(init, lo, hi);
    }
  }

  /** A consistent crossing record: the vehicle started crossing no earlier
      than it arrived, its recorded wait is the time in between, and its
      crossing time is 2 to 4 ticks. */
  ghost predicate CrossingRecord(c: Crossing)
  {
    && 0 <= c.vehicle.arrivalTime <= c.crossingStartTime
    && c.vehicle.waitingTime == c.crossingStartTime - c.vehicle.arrivalTime
    && 2 <= c.vehicle.crossingTime <= 4
  }

  /** The samples line up with the crossing records: one crossing and one
      wait per served vehicle, and the emergency waits are those of the
      emergency vehicles. */
  ghost predicate ServiceLogged(e: Engine)
  {
    && |e.crossingVehicles| == Total(e.processedVehicles)
    && |e.waitingTimes| == |e.crossingVehicles|
    && e.emergencyWaitingTimes == EmergencyWaits(e.crossingVehicles)
    && forall i :: 0 <= i < |e.crossingVehicles| ==>
         CrossingRecord(e.crossingVehicles[i]) && e.waitingTimes[i] == e.crossingVehicles[i].vehicle.waitingTime
  }

  /** Queues well formed and, with the cap, at most 15 long. */
  ghost predicate QueuesWellFormed(e: Engine, capped: bool)
  {
    LanesWellFormed(e.vehicles, e.time) && (capped ==> LanesWithin(e.vehicles, QueueCap))
  }

  /** What holds at every point of a tick. */
  ghost predicate Consistent(e: Engine, capped: bool)
  {
    e.timeSlice == TimeSlice && QueuesWellFormed(e, capped) && ServiceLogged(e)
  }

  /** The metrics describe the samples recorded so far. */
  ghost predicate MetricsCurrent(e: Engine)
  {
    && e.metrics.avgWaitingTime == MeanOrZero(e.waitingTimes)
    && e.metrics.maxWaitingTime == (if |e.waitingTimes| > 0 then Max(e.waitingTimes) else 0)
    && e.metrics.emergencyDelay == MeanOrZero(e.emergencyWaitingTimes)
    && e.metrics.throughput == Throughput(Total(e.processedVehicles), e.time)
  }

  /** What the metrics update needs: the figures without samples are still 0. */
  ghost predicate MetricsReady(e: Engine)
  {
    && (|e.waitingTimes| == 0 ==> e.metrics.avgWaitingTime == 0.0 && e.metrics.maxWaitingTime == 0)
    && (|e.emergencyWaitingTimes| == 0 ==> e.metrics.emergencyDelay == 0.0)
  }

  /** The invariant between ticks: a slice of 1 to 10 ticks, consistent
      queues and records, at most one vehicle served per tick, current metrics. */
  ghost predicate Inv(e: Engine, capped: bool)
  {
    && Consistent(e, capped) && 1 <= e.timeRemaining <= e.timeSlice
    && Total(e.processedVehicles) <= e.time && MetricsCurrent(e)
  }

  /** After the clock, the arrivals and the decrement of a tick. */
  ghost predicate Pending(e: Engine, capped: bool)
  {
    && Consistent(e, capped) && 0 <= e.timeRemaining < e.timeSlice
    && e.time >= 1 && Total(e.processedVehicles) <= e.time - 1 && MetricsReady(e)
  }

  /** After the service of a tick. */
  ghost predicate Served(e: Engine, capped: bool)
  {
    && Consistent(e, capped) && 0 <= e.timeRemaining < e.timeSlice
    && Total(e.processedVehicles) <= e.time && MetricsReady(e)
  }

  lemma InitialInv(capped: bool)
    ensures Inv(ResetState, capped)
  {
  }

  /** An arrival trial keeps a queue well formed (and within the cap). */
  lemma ArrivalKeeps(q: seq<Vehicle>, draw: Draw, now: int, capped: bool)
    requires now >= 0 && QueueWellFormed(q, now)
    ensures QueueWellFormed(Arrival(q, draw, now, capped), now)
    ensures capped ==> |Arrival(q, draw, now, capped)| <= QueueCap
  {
    ArrivalKeepsWellFormed(q, draw, draw.stamp, now, QueueCap);
    assert QueueWellFormed(Enqueued(q, draw, draw.stamp, now), now);
  }

  /** An arrival trial adds at most one vehicle, at the tail: a queue is
      non-empty afterwards exactly when it was before or the trial spawned a
      vehicle, keeps its head, and grows by one per spawn unless the cap drops it. */
  lemma ArrivalShape(q: seq<Vehicle>, draw: Draw, now: int, capped: bool)
    ensures Arrival(q, draw, now, capped) != [] <==> q != [] || draw.spawn
    ensures q != [] ==> Arrival(q, draw, now, capped)[0] == q[0]
    ensures |Arrival(q, draw, now, capped)| <= |q| + (if draw.spawn then 1 else 0)
    ensures !capped ==> |Arrival(q, draw, now, capped)| == |q| + (if draw.spawn then 1 else 0)
  {
  }

  lemma ArrivedLanesKeep(lanes: Lanes, draws: Draws, now: int, capped: bool)
    requires now >= 0 && LanesWellFormed(lanes, now)
    ensures LanesWellFormed(ArrivedLanes(lanes, draws, now, capped), now)
    ensures capped ==> LanesWithin(ArrivedLanes(lanes, draws, now, capped), QueueCap)
  {
    ArrivalKeeps(lanes.north, draws.north, now, capped);
    ArrivalKeeps(lanes.south, draws.south, now, capped);
    ArrivalKeeps(lanes.east, draws.east, now, capped);
    ArrivalKeeps(lanes.west, draws.west, now, capped);
  }

  /** The start of a tick keeps everything but the slice bound and the metrics. */
  lemma ArrivalsKeep(e: Engine, draws: Draws, capped: bool)
    requires Inv(e, capped)
    ensures Pending(Decremented(WithArrivals(Clocked(e), draws, capped)), capped)
  {
    var a := Decremented(WithArrivals(Clocked(e), draws, capped));
    WellFormedLater(e.vehicles, e.time, e.time + 1);
    ArrivedLanesKeep(e.vehicles, draws, e.time + 1, capped);
    assert a.vehicles == ArrivedLanes(e.vehicles, draws, e.time + 1, capped) && a.time == e.time + 1;
    LogCarried(e, a);
  }

  /** The service log and the metrics only depend on the records and the counts. */
  lemma LogCarried(e: Engine, a: Engine)
    requires ServiceLogged(e) && MetricsCurrent(e)
    requires a.crossingVehicles == e.crossingVehicles && a.waitingTimes == e.waitingTimes
    requires a.emergencyWaitingTimes == e.emergencyWaitingTimes && a.processedVehicles == e.processedVehicles
    requires a.metrics == e.metrics
    ensures ServiceLogged(a) && MetricsReady(a)
  {
  }

  /** Serving the head of a refreshed queue keeps the queues and the service
      log consistent and counts one vehicle. */
  lemma HeadServedConsistent(r: Engine, capped: bool)
    requires Consistent(r, capped) && LanesRefreshed(r.vehicles, r.time)
    requires r.vehicles.Get(r.activeDirection) != []
    ensures Consistent(HeadServed(r), capped)
    ensures Total(HeadServed(r).processedVehicles) == Total(r.processedVehicles) + 1
  {
    var d := r.activeDirection;
    var q := r.vehicles.Get(d);
    var c := Crossing(q[0], d, r.time);
    WellFormedGet(r.vehicles, r.time, d);
    RefreshedGet(r.vehicles, r.time, d);
    TailWellFormed(q, r.time);
    WellFormedSet(r.vehicles, r.time, d, q[1..]);
    if capped {
      WithinSet(r.vehicles, QueueCap, d, q[1..]);
    }
    TotalSet(r.processedVehicles, d, r.processedVehicles.Get(d) + 1);
    EmergencyWaitsAppend(r.crossingVehicles, c);
    assert CrossingRecord(c);
  }

  /** The refresh keeps the queues consistent, their lengths, and leaves
      every wait current. */
  lemma RefreshKeepsQueues(e: Engine, capped: bool)
    requires QueuesWellFormed(e, capped)
    ensures QueuesWellFormed(WaitsRefreshed(e), capped) && LanesRefreshed(WaitsRefreshed(e).vehicles, e.time)
  {
    RefreshKeepsWellFormed(e.vehicles.north, e.time);
    RefreshKeepsWellFormed(e.vehicles.south, e.time);
    RefreshKeepsWellFormed(e.vehicles.east, e.time);
    RefreshKeepsWellFormed(e.vehicles.west, e.time);
  }

  /** The guarded service keeps the tick consistent, and serves one vehicle
      exactly when time is left and a vehicle waits on the active approach. */
  lemma GrantedKeeps(e: Engine, capped: bool)
    requires Pending(e, capped)
    ensures Served(Granted(e), capped)
    ensures Total(Granted(e).processedVehicles)
         == Total(e.processedVehicles) + (if e.timeRemaining > 0 && e.vehicles.Get(e.activeDirection) != [] then 1 else 0)
  {
    if e.timeRemaining > 0 && e.vehicles.Get(e.activeDirection) != [] {
      var r := WaitsRefreshed(e);
      RefreshKeepsQueues(e, capped);
      RefreshedLanesGet(e.vehicles, e.time, e.activeDirection);
      HeadServedConsistent(r, capped);
      assert Granted(e) == HeadServed(r);
    }
  }

  /** The switch and the metrics update restore the invariant. */
  lemma SwitchedKeeps(e: Engine, algorithm: Algorithm, capped: bool)
    requires Served(e, capped)
    ensures Inv(MetricsUpdated(Switched(e, algorithm)), capped)
  {
  }

  /** Every step keeps the invariant. */
  lemma StepKeepsInv(e: Engine, algorithm: Algorithm, draws: Draws, capped: bool)
    requires Inv(e, capped)
    ensures Inv(Stepped(e, algorithm, draws, capped), capped)
  {
    var pending := Decremented(WithArrivals(Clocked(e), draws, capped));
    ArrivalsKeep(e, draws, capped);
    GrantedKeeps(pending, capped);
    SwitchedKeeps(Granted(pending), algorithm, capped);
  }

  // ---------------------------------------------------------------------
  // What a step does, stated on the state value.

  /** The switch and the metrics update leave the queues, the counters and
      the records alone. */
  lemma SwitchOnly(e: Engine, algorithm: Algorithm)
    ensures var r := MetricsUpdated(Switched(e, algorithm));
      && r.time == e.time && r.vehicles == e.vehicles && r.processedVehicles == e.processedVehicles
      && r.crossingVehicles == e.crossingVehicles && r.waitingTimes == e.waitingTimes
  {
  }

  lemma ArrivedFrame(e: Engine, draws: Draws, capped: bool)
    ensures var a := Arrived(e, draws, capped);
      && a.time == e.time + 1 && a.activeDirection == e.activeDirection
      && a.timeRemaining == e.timeRemaining - 1 && a.vehicles == ArrivedLanes(e.vehicles, draws, e.time + 1, capped)
      && a.processedVehicles == e.processedVehicles && a.crossingVehicles == e.crossingVehicles
  {
  }

  /** Whether the tick serves a vehicle: at least two ticks were left in the
      slice, and a vehicle waited on the active approach or arrived there. */
  predicate Serves(e: Engine, draws: Draws)
  {
    e.timeRemaining >= 2 && (e.vehicles.Get(e.activeDirection) != [] || draws.Get(e.activeDirection).spawn)
  }

  /** The queues after the service of a tick, in terms of the arrived ones:
      when a vehicle is served, every wait is refreshed and the active queue
      loses its head; otherwise the queues are the arrived ones as they are. */
  lemma GrantedQueues(a: Engine, capped: bool)
    requires Consistent(a, capped)
    ensures var g := Granted(a);
      var serving := a.timeRemaining > 0 && a.vehicles.Get(a.activeDirection) != [];
      forall d :: g.vehicles.Get(d)
        == if !serving then a.vehicles.Get(d)
           else if d == a.activeDirection then Refreshed(a.vehicles.Get(d), a.time)[1..]
           else Refreshed(a.vehicles.Get(d), a.time)
  {
    forall d {
      RefreshedLanesGet(a.vehicles, a.time, d);
    }
  }

  /** A tick serves exactly one vehicle when `Serves` holds and none
      otherwise; every queue then holds its arrived vehicles, with every wait
      refreshed and the active queue's head gone when one was served. */
  lemma StepServes(e: Engine, algorithm: Algorithm, draws: Draws, capped: bool)
    requires Inv(e, capped)
    ensures var r := Stepped(e, algorithm, draws, capped);
      && Total(r.processedVehicles) == Total(e.processedVehicles) + (if Serves(e, draws) then 1 else 0)
      && forall d :: r.vehicles.Get(d)
           == var arrived := Arrival(e.vehicles.Get(d), draws.Get(d), e.time + 1, capped);
              if !Serves(e, draws) then arrived
              else if d == e.activeDirection then Refreshed(arrived, e.time + 1)[1..]
              else Refreshed(arrived, e.time + 1)
  {
    var a := Arrived(e, draws, capped);
    ArrivalsKeep(e, draws, capped);
    ArrivedFrame(e, draws, capped);
    ArrivalShape(e.vehicles.Get(e.activeDirection), draws.Get(e.activeDirection), e.time + 1, capped);
    ArrivedLanesGet(e.vehicles, draws, e.time + 1, capped, e.activeDirection);
    assert (a.timeRemaining > 0 && a.vehicles.Get(a.activeDirection) != []) == Serves(e, draws);
    GrantedKeeps(a, capped);
    GrantedQueues(a, capped);
    forall d {
      ArrivedLanesGet(e.vehicles, draws, e.time + 1, capped, d);
    }
    SwitchOnly(Granted(a), algorithm);
    assert Stepped(e, algorithm, draws, capped) == MetricsUpdated(Switched(Granted(a), algorithm));
  }

  /** The record the guarded service appends: the refreshed head of the
      active queue, crossing from now on. */
  lemma GrantedRecord(a: Engine)
    ensures var g := Granted(a);
      var q := a.vehicles.Get(a.activeDirection);
      if a.timeRemaining > 0 && q != [] then
        && g.crossingVehicles
           == a.crossingVehicles + [Crossing(q[0].(waitingTime := a.time - q[0].arrivalTime), a.activeDirection, a.time)]
        && g.waitingTimes == a.waitingTimes + [a.time - q[0].arrivalTime]
      else
        g.crossingVehicles == a.crossingVehicles && g.waitingTimes == a.waitingTimes
  {
    RefreshedLanesGet(a.vehicles, a.time, a.activeDirection);
  }

  /** Queues are first come, first served: a tick that serves takes the head
      of the active queue as it stood after the arrivals (the old head when
      there was one), records it as crossing from the active approach from
      now on, and samples its whole time in the queue as its wait; a tick
      that does not serve records nothing. */
  lemma ServesQueueHead(e: Engine, algorithm: Algorithm, draws: Draws, capped: bool)
    ensures var r := Stepped(e, algorithm, draws, capped);
      var q := Arrival(e.vehicles.Get(e.activeDirection), draws.Get(e.activeDirection), e.time + 1, capped);
      if Serves(e, draws) then
        && q != []
        && (e.vehicles.Get(e.activeDirection) != [] ==> q[0] == e.vehicles.Get(e.activeDirection)[0])
        && r.crossingVehicles
           == e.crossingVehicles + [Crossing(q[0].(waitingTime := e.time + 1 - q[0].arrivalTime), e.activeDirection, e.time + 1)]
        && r.waitingTimes == e.waitingTimes + [e.time + 1 - q[0].arrivalTime]
      else
        r.crossingVehicles == e.crossingVehicles && r.waitingTimes == e.waitingTimes
  {
    var a := Arrived(e, draws, capped);
    ArrivedFrame(e, draws, capped);
    ArrivalShape(e.vehicles.Get(e.activeDirection), draws.Get(e.activeDirection), e.time + 1, capped);
    ArrivedLanesGet(e.vehicles, draws, e.time + 1, capped, e.activeDirection);
    assert (a.timeRemaining > 0 && a.vehicles.Get(a.activeDirection) != []) == Serves(e, draws);
    GrantedRecord(a);
    SwitchOnly(Granted(a), algorithm);
    assert Stepped(e, algorithm, draws, capped) == MetricsUpdated(Switched(Granted(a), algorithm));
  }

  /** The signal after a tick: the green passes on exactly when the slice had
      at most one tick left or the active queue is empty after the service;
      it then goes to the policy's choice over the queues as they stand, with
      a fresh slice of 10, and otherwise stays with one tick less. */
  lemma StepSignal(e: Engine, algorithm: Algorithm, draws: Draws, capped: bool)
    requires Inv(e, capped)
    ensures var r := Stepped(e, algorithm, draws, capped);
      var switched := e.timeRemaining <= 1 || r.vehicles.Get(e.activeDirection) == [];
      && r.timeRemaining == (if switched then TimeSlice else e.timeRemaining - 1)
      && r.activeDirection == if switched then FixedPolicyChoice(algorithm, e.activeDirection, r.vehicles)
                              else e.activeDirection
  {
    var a := Arrived(e, draws, capped);
    ArrivedFrame(e, draws, capped);
    var g := Granted(a);
    assert g.activeDirection == e.activeDirection && g.timeRemaining == e.timeRemaining - 1 && g.timeSlice == TimeSlice;
    SwitchOnly(g, algorithm);
    assert Stepped(e, algorithm, draws, capped) == MetricsUpdated(Switched(g, algorithm));
  }

  /** When the green passes on, the new direction is the policy's choice in
      its own terms (the next approach clockwise, the first emergency or the
      longest queue, the smallest total crossing time), or the same direction
      for an algorithm the engine does not know. */
  lemma SwitchChoosesByRule(e: Engine, algorithm: Algorithm, draws: Draws, capped: bool)
    requires Inv(e, capped)
    requires var r := Stepped(e, algorithm, draws, capped);
      e.timeRemaining <= 1 || r.vehicles.Get(e.activeDirection) == []
    ensures var r := Stepped(e, algorithm, draws, capped);
      IsPolicyChoice(algorithm, e.activeDirection, r.vehicles, r.activeDirection)
  {
    StepSignal(e, algorithm, draws, capped);
    StepKeepsInv(e, algorithm, draws, capped);
    var r := Stepped(e, algorithm, draws, capped);
    WellFormedPositive(r.vehicles, r.time);
    FixedPolicyChoiceMeaning(algorithm, e.activeDirection, r.vehicles);
  }

  /** Arrivals add one vehicle per spawn, less what the cap drops. */
  lemma ArrivedTotal(lanes: Lanes, draws: Draws, now: int, capped: bool)
    ensures capped ==> TotalQueued(ArrivedLanes(lanes, draws, now, capped)) <= TotalQueued(lanes) + SpawnsAmong(draws, 4)
    ensures !capped ==> TotalQueued(ArrivedLanes(lanes, draws, now, capped)) == TotalQueued(lanes) + SpawnsAmong(draws, 4)
  {
    ArrivalShape(lanes.north, draws.north, now, capped);
    ArrivalShape(lanes.south, draws.south, now, capped);
    ArrivalShape(lanes.east, draws.east, now, capped);
    ArrivalShape(lanes.west, draws.west, now, capped);
    SpawnsOfAll(draws);
  }

  /** The spawns of a tick, approach by approach. */
  lemma SpawnsOfAll(draws: Draws)
    ensures SpawnsAmong(draws, 4) == (if draws.north.spawn then 1 else 0) + (if draws.south.spawn then 1 else 0)
                                   + (if draws.east.spawn then 1 else 0) + (if draws.west.spawn then 1 else 0)
  {
    assert SpawnsAmong(draws, 1) == if draws.north.spawn then 1 else 0;
    assert SpawnsAmong(draws, 3) == SpawnsAmong(draws, 2) + if draws.east.spawn then 1 else 0;
  }

  /** No vehicle is lost: what was queued or served before, plus the spawns
      of the tick, is what is queued or served after, less what the cap
      drops (nothing without the cap). */
  lemma StepConserves(e: Engine, algorithm: Algorithm, draws: Draws, capped: bool)
    requires Inv(e, capped)
    ensures var r := Stepped(e, algorithm, draws, capped);
      var before := Total(e.processedVehicles) + TotalQueued(e.vehicles) + SpawnsAmong(draws, 4);
      && (capped ==> Total(r.processedVehicles) + TotalQueued(r.vehicles) <= before)
      && (!capped ==> Total(r.processedVehicles) + TotalQueued(r.vehicles) == before)
  {
    var a := Arrived(e, draws, capped);
    ArrivedFrame(e, draws, capped);
    ArrivedTotal(e.vehicles, draws, e.time + 1, capped);
    var g := Granted(a);
    if a.timeRemaining > 0 && a.vehicles.Get(a.activeDirection) != [] {
      var d := a.activeDirection;
      var rl := RefreshedLanes(a.vehicles, a.time);
      RefreshedLanesGet(a.vehicles, a.time, d);
      assert TotalQueued(rl) == TotalQueued(a.vehicles);
      TotalQueuedSet(rl, d, rl.Get(d)[1..]);
      TotalSet(a.processedVehicles, d, a.processedVehicles.Get(d) + 1);
      assert g == HeadServed(WaitsRefreshed(a));
    }
    SwitchOnly(g, algorithm);
    assert Stepped(e, algorithm, draws, capped) == MetricsUpdated(Switched(g, algorithm));
  }

  /** The state after a run of ticks under one algorithm. */
  function Run(e: Engine, algorithm: Algorithm, ds: seq<Draws>, capped: bool): (r: Engine)
    ensures r.time == e.time + |ds|
    decreases |ds|
  {
    if ds == [] then e else Run(Stepped(e, algorithm, ds[0], capped), algorithm, ds[1..], capped)
  }

  /** No tick of the run starts a fresh slice: each takes one tick off the current one. */
  predicate WithinOneGrant(e: Engine, algorithm: Algorithm, ds: seq<Draws>, capped: bool)
    decreases |ds|
  {
    ds != [] ==>
      && Stepped(e, algorithm, ds[0], capped).timeRemaining == e.timeRemaining - 1
      && WithinOneGrant(Stepped(e, algorithm, ds[0], capped), algorithm, ds[1..], capped)
  }

  /** One grant of the green serves at most timeSlice - 1 = 9 vehicles: a run
      of ticks that never starts a fresh slice keeps the green on one
      approach, is shorter than the time that was left, and serves at most
      one vehicle per tick. */
  lemma {:induction false} GrantServesAtMostNine(e: Engine, algorithm: Algorithm, ds: seq<Draws>, capped: bool)
    requires Inv(e, capped) && WithinOneGrant(e, algorithm, ds, capped)
    ensures var r := Run(e, algorithm, ds, capped);
      && |ds| <= e.timeRemaining - 1 <= TimeSlice - 1
      && r.activeDirection == e.activeDirection
      && r.timeRemaining == e.timeRemaining - |ds|
      && Total(r.processedVehicles) <= Total(e.processedVehicles) + |ds|
      && Inv(r, capped)
    decreases |ds|
  {
    if ds != [] {
      var n := Stepped(e, algorithm, ds[0], capped);
      StepKeepsInv(e, algorithm, ds[0], capped);
      StepSignal(e, algorithm, ds[0], capped);
      StepServes(e, algorithm, ds[0], capped);
      GrantServesAtMostNine(n, algorithm, ds[1..], capped);
    }
  }

  /** A whole grant, the tick that closes it included, serves at most
      timeRemaining - 1 vehicles, so at most 9 from a fresh slice: the ticks
      within the grant serve at most one each, and the closing tick (which
      may serve the last vehicle of the queue and then switch) serves only
      when at least 2 ticks were still left. */
  lemma ClosedGrantServesAtMostNine(e: Engine, algorithm: Algorithm, ds: seq<Draws>, last: Draws, capped: bool)
    requires Inv(e, capped) && WithinOneGrant(e, algorithm, ds, capped)
    ensures var f := Stepped(Run(e, algorithm, ds, capped), algorithm, last, capped);
      && Total(f.processedVehicles) <= Total(e.processedVehicles) + e.timeRemaining - 1
      && Total(f.processedVehicles) <= Total(e.processedVehicles) + TimeSlice - 1
  {
    var r := Run(e, algorithm, ds, capped);
    GrantServesAtMostNine(e, algorithm, ds, capped);
    StepServes(r, algorithm, last, capped);
  }

  /** The figures the invariant keeps are within their natural ranges: at
      most one vehicle per tick, and averages of waits between 0 and the
      longest wait. */
  lemma MetricsInRange(e: Engine, capped: bool)
    requires Inv(e, capped)
    ensures 0.0 <= e.metrics.throughput <= 60.0
    ensures 0.0 <= e.metrics.avgWaitingTime <= e.metrics.maxWaitingTime as real
    ensures 0.0 <= e.metrics.emergencyDelay <= e.metrics.maxWaitingTime as real
  {
    ThroughputBounded(Total(e.processedVehicles), e.time);
    var waits, cs := e.waitingTimes, e.crossingVehicles;
    if |waits| > 0 {
      var m := Max(waits);
      assert forall i :: 0 <= i < |waits| ==> 0 <= waits[i] <= m;
      MeanNonNegative(waits);
      MeanAtMostMax(waits);
      EmergencyWaitsWithin(cs, 0, m);
      var ew := e.emergencyWaitingTimes;
      if |ew| > 0 {
        SumAtMost(ew, m);
        RatioAtMost(Sum(ew), |ew|, m);
        MeanNonNegative(ew);
      }
    }
  }
}
