/** Vocabulary shared by the three engine variants: compass directions, the two
    scan orders, vehicles, per-direction records and the random draws that the
    engines consume on every tick. */
module Intersection {

  datatype Option<T> = None | Some(value: T)

  /** One approach of the four-way intersection. */
  datatype Direction = North | South | East | West

  /** Ticks of green in one grant (`timeSlice`), the same in every engine. */
  const TimeSlice: int := 10

  /** The longest a queue may grow in the engines that cap it. */
  const QueueCap: nat := 15

  /** Order of the scheduling scans and of the round-robin cycle. */
  const SchedulingOrder: seq<Direction> := [North, East, South, West]

  /** Order in which arrivals, the waiting-time refresh and the hybrid
      emergency check visit the approaches. */
  const ArrivalOrder: seq<Direction> := [North, South, East, West]

  /** Index of d in SchedulingOrder. */
  function Position(d: Direction): (k: nat)
    ensures k < 4 && SchedulingOrder[k] == d
  {
    match d
    case North => 0
    case East => 1
    case South => 2
    case West => 3
  }

  /** Index of d in ArrivalOrder. */
  function ArrivalRank(d: Direction): (k: nat)
    ensures k < 4 && ArrivalOrder[k] == d
  {
    match d
    case North => 0
    case South => 1
    case East => 2
    case West => 3
  }

  lemma RankOfArrivalOrder(i: nat)
    requires i < 4
    ensures ArrivalRank(ArrivalOrder[i]) == i
  {
  }

  /** The direction `offset` places after d in the cycle N, E, S, W. */
  function Advance(d: Direction, offset: nat): (r: Direction)
    ensures Position(r) == (Position(d) + offset) % 4
  {
    SchedulingOrder[(Position(d) + offset) % 4]
  }

  /** The plain round-robin successor: the next direction in N, E, S, W, wrapping. */
  function Successor(d: Direction): Direction
  {
    Advance(d, 1)
  }

  /** One value per approach, as the engines' `{north, south, east, west}` objects. */
  datatype PerDirection<T> = PerDirection(north: T, south: T, east: T, west: T)
  {
    function Get(d: Direction): T
    {
      match d
      case North => north
      case South => south
      case East => east
      case West => west
    }

    function Set(d: Direction, x: T): (r: PerDirection<T>)
      ensures r.Get(d) == x
      ensures forall e :: e != d ==> r.Get(e) == Get(e)
    {
      match d
      case North => this.(north := x)
      case South => this.(south := x)
      case East => this.(east := x)
      case West => this.(west := x)
    }
  }

  /** Two per-direction records that agree on every direction of ArrivalOrder are equal. */
  lemma PerDirectionExt<T>(a: PerDirection<T>, b: PerDirection<T>)
    requires forall j :: 0 <= j < 4 ==> a.Get(ArrivalOrder[j]) == b.Get(ArrivalOrder[j])
    ensures a == b
  {
    assert a.Get(ArrivalOrder[0]) == b.Get(ArrivalOrder[0]);
    assert a.Get(ArrivalOrder[1]) == b.Get(ArrivalOrder[1]);
    assert a.Get(ArrivalOrder[2]) == b.Get(ArrivalOrder[2]);
    assert a.Get(ArrivalOrder[3]) == b.Get(ArrivalOrder[3]);
  }

  function Total(c: PerDirection<nat>): nat
  {
    c.north + c.south + c.east + c.west
  }

  lemma TotalSet(c: PerDirection<nat>, d: Direction, x: nat)
    ensures Total(c.Set(d, x)) == Total(c) - c.Get(d) + x
  {
  }

  datatype VehicleKind = Regular | Emergency

  /** A queued vehicle. `waitingTime` is refreshed by the engines while it waits. */
  datatype Vehicle = Vehicle(id: nat, kind: VehicleKind, arrivalTime: int, crossingTime: int, waitingTime: int)
  {
    /** The `priority` field written by the generators: lower is more urgent. */
    function Priority(): int
    {
      if kind == Emergency then 1 else 2
    }
  }

  type Lanes = PerDirection<seq<Vehicle>>

  const NoVehicles: Lanes := PerDirection([], [], [], [])

  function TotalQueued(lanes: Lanes): nat
  {
    |lanes.north| + |lanes.south| + |lanes.east| + |lanes.west|
  }

  lemma TotalQueuedSet(lanes: Lanes, d: Direction, q: seq<Vehicle>)
    ensures TotalQueued(lanes.Set(d, q)) == TotalQueued(lanes) - |lanes.Get(d)| + |q|
  {
  }

  /** The `densityFactors[density] || 0.45` lookup of app/page.tsx and
      src/utils/TrafficSimulation.js that weights the spawn trial. */
  function DensityFactor(density: string): (f: real)
    ensures f == 0.25 || f == 0.45 || f == 0.7
    ensures density == "low" <==> f == 0.25
    ensures density == "high" <==> f == 0.7
    ensures density != "low" && density != "high" ==> f == 0.45
  {
    if density == "low" then 0.25 else if density == "high" then 0.7 else 0.45
  }

  /** The crossing-time draw: a whole number from 0 to 2. */
  type Roll = r: int | 0 <= r < 3

  /** The outcomes of the random trials made for one approach on one tick:
      whether a vehicle arrives, whether it is an emergency vehicle, its
      crossing-time draw, and the opaque part of its identifier. */
  datatype Draw = Draw(spawn: bool, emergency: bool, roll: Roll, stamp: nat)

  type Draws = PerDirection<Draw>

  /** The vehicle record built by `generateVehicle` from the draws. */
  function NewVehicle(id: nat, draw: Draw, now: int): (v: Vehicle)
    ensures 2 <= v.crossingTime <= 4
    ensures v.arrivalTime == now && v.waitingTime == 0 && v.id == id
    ensures v.kind == Emergency <==> draw.emergency
    ensures v.Priority() == 1 <==> draw.emergency
  {
    Vehicle(id, if draw.emergency then Emergency else Regular, now, draw.roll + 2, 0)
  }

  /** `q.slice(0, cap)` when the queue is longer than cap. */
  function Truncated(q: seq<Vehicle>, cap: nat): (r: seq<Vehicle>)
    ensures |r| <= cap && |r| <= |q|
    ensures |q| <= cap ==> r == q
    ensures r == q[..|r|]
    ensures |q| > cap ==> |r| == cap
  {
    if |q| > cap then q[..cap] else q
  }

  /** A queue after the arrival trial of one tick: the new vehicle goes to the tail. */
  function Enqueued(q: seq<Vehicle>, draw: Draw, id: nat, now: int): seq<Vehicle>
  {
    if draw.spawn then q + [NewVehicle(id, draw, now)] else q
  }

  /** Number of spawning draws among the first n directions of ArrivalOrder. */
  function SpawnsAmong(draws: Draws, n: nat): nat
    requires n <= 4
  {
    if n == 0 then 0
    else SpawnsAmong(draws, n - 1) + (if draws.Get(ArrivalOrder[n - 1]).spawn then 1 else 0)
  }

  /** The queues after the arrival trials of the first n directions of
      ArrivalOrder, each queue truncated to cap; identifiers are handed out
      from firstId in trial order. */
  function ArrivalsAmong(lanes: Lanes, draws: Draws, firstId: nat, now: int, cap: nat, n: nat): Lanes
    requires n <= 4
  {
    if n == 0 then lanes
    else
      var d := ArrivalOrder[n - 1];
      var prev := ArrivalsAmong(lanes, draws, firstId, now, cap, n - 1);
      prev.Set(d, Truncated(Enqueued(prev.Get(d), draws.Get(d), firstId + SpawnsAmong(draws, n - 1), now), cap))
  }

  /** After n trials, the queues of the directions already visited have received
      their own arrival, and the others are untouched. */
  lemma {:induction false} ArrivalsAmongGet(lanes: Lanes, draws: Draws, firstId: nat, now: int, cap: nat, n: nat, d: Direction)
    requires n <= 4
    ensures ArrivalsAmong(lanes, draws, firstId, now, cap, n).Get(d)
         == if ArrivalRank(d) < n
            then Truncated(Enqueued(lanes.Get(d), draws.Get(d), firstId + SpawnsAmong(draws, ArrivalRank(d)), now), cap)
            else lanes.Get(d)
  {
    if n > 0 {
      ArrivalsAmongGet(lanes, draws, firstId, now, cap, n - 1, d);
      if ArrivalOrder[n - 1] == d {
        assert ArrivalRank(d) == n - 1;
      } else {
        assert ArrivalRank(d) != n - 1;
      }
    }
  }

  /** Arrivals join at the tail: a non-empty queue keeps its head. */
  lemma ArrivalsKeepHead(lanes: Lanes, draws: Draws, firstId: nat, now: int, cap: nat, d: Direction)
    requires lanes.Get(d) != [] && cap > 0
    ensures ArrivalsAmong(lanes, draws, firstId, now, cap, 4).Get(d) != []
    ensures ArrivalsAmong(lanes, draws, firstId, now, cap, 4).Get(d)[0] == lanes.Get(d)[0]
  {
    ArrivalsAmongGet(lanes, draws, firstId, now, cap, 4, d);
  }

  /** Every vehicle of q is well formed at time now: it arrived no later than
      now, its crossing time is 2, 3 or 4, and its waiting time lies between 0
      and the time elapsed since it arrived. */
  ghost predicate QueueWellFormed(q: seq<Vehicle>, now: int)
  {
    forall i :: 0 <= i < |q| ==>
      && 0 <= q[i].arrivalTime <= now
      && 2 <= q[i].crossingTime <= 4
      && 0 <= q[i].waitingTime <= now - q[i].arrivalTime
  }

  /** Every queue is well formed at time now (one conjunct per approach). */
  ghost predicate LanesWellFormed(lanes: Lanes, now: int)
  {
    && QueueWellFormed(lanes.north, now) && QueueWellFormed(lanes.south, now)
    && QueueWellFormed(lanes.east, now) && QueueWellFormed(lanes.west, now)
  }

  /** No queue holds more than cap vehicles. */
  predicate LanesWithin(lanes: Lanes, cap: nat)
  {
    |lanes.north| <= cap && |lanes.south| <= cap && |lanes.east| <= cap && |lanes.west| <= cap
  }

  /** Every vehicle of q has `waitingTime == now - arrivalTime`. */
  ghost predicate QueueRefreshed(q: seq<Vehicle>, now: int)
  {
    forall i :: 0 <= i < |q| ==> q[i].waitingTime == now - q[i].arrivalTime
  }

  ghost predicate LanesRefreshed(lanes: Lanes, now: int)
  {
    && QueueRefreshed(lanes.north, now) && QueueRefreshed(lanes.south, now)
    && QueueRefreshed(lanes.east, now) && QueueRefreshed(lanes.west, now)
  }

  lemma WellFormedGet(lanes: Lanes, now: int, d: Direction)
    requires LanesWellFormed(lanes, now)
    ensures QueueWellFormed(lanes.Get(d), now)
  {
  }

  lemma RefreshedGet(lanes: Lanes, now: int, d: Direction)
    requires LanesRefreshed(lanes, now)
    ensures QueueRefreshed(lanes.Get(d), now)
  {
  }

  /** Replacing one queue by a well-formed one keeps the lanes well formed. */
  lemma WellFormedSet(lanes: Lanes, now: int, d: Direction, q: seq<Vehicle>)
    requires LanesWellFormed(lanes, now) && QueueWellFormed(q, now)
    ensures LanesWellFormed(lanes.Set(d, q), now)
  {
  }

  lemma RefreshedSet(lanes: Lanes, now: int, d: Direction, q: seq<Vehicle>)
    requires LanesRefreshed(lanes, now) && QueueRefreshed(q, now)
    ensures LanesRefreshed(lanes.Set(d, q), now)
  {
  }

  lemma WithinSet(lanes: Lanes, cap: nat, d: Direction, q: seq<Vehicle>)
    requires LanesWithin(lanes, cap) && |q| <= cap
    ensures LanesWithin(lanes.Set(d, q), cap)
  {
  }

  /** The queue after `vehicle.waitingTime = time - vehicle.arrivalTime` on each element. */
  function Refreshed(q: seq<Vehicle>, now: int): (r: seq<Vehicle>)
    ensures |r| == |q|
    ensures forall i :: 0 <= i < |q| ==> r[i] == q[i].(waitingTime := now - q[i].arrivalTime)
  {
    if q == [] then []
    else
      var rest := Refreshed(q[1..], now);
      assert forall i :: 1 <= i < |q| ==> q[1..][i - 1] == q[i];
      [q[0].(waitingTime := now - q[0].arrivalTime)] + rest
  }

  function RefreshedLanes(lanes: Lanes, now: int): Lanes
  {
    PerDirection(Refreshed(lanes.north, now), Refreshed(lanes.south, now),
                 Refreshed(lanes.east, now), Refreshed(lanes.west, now))
  }

  lemma RefreshedLanesGet(lanes: Lanes, now: int, d: Direction)
    ensures RefreshedLanes(lanes, now).Get(d) == Refreshed(lanes.Get(d), now)
  {
  }

  /** The `forEach` that refreshes the waiting time of every vehicle of one queue. */
  method RefreshQueue(q: seq<Vehicle>, now: int) returns (r: seq<Vehicle>)
    ensures |r| == |q|
    ensures QueueRefreshed(r, now)
    ensures forall i :: 0 <= i < |q| ==> r[i].(waitingTime := q[i].waitingTime) == q[i]
  {
    r := q;
    var i := 0;
    while i < |r|
      invariant 0 <= i <= |r| == |q|
      invariant forall j :: 0 <= j < i ==> r[j] == q[j].(waitingTime := now - q[j].arrivalTime)
      invariant forall j :: i <= j < |q| ==> r[j] == q[j]
    {
      r := r[i := r[i].(waitingTime := now - r[i].arrivalTime)];
      i := i + 1;
    }
  }

  /** The nested `forEach` that refreshes the waiting time of every queued
      vehicle, approach by approach in the order N, S, E, W. */
  method RefreshLanes(lanes: Lanes, now: int) returns (r: Lanes)
    ensures r == RefreshedLanes(lanes, now)
  {
    r := lanes;
    for i := 0 to 4
      invariant forall j :: 0 <= j < 4 ==>
        r.Get(ArrivalOrder[j]) == if j < i then Refreshed(lanes.Get(ArrivalOrder[j]), now) else lanes.Get(ArrivalOrder[j])
    {
      var direction := ArrivalOrder[i];
      var queue := RefreshQueue(r.Get(direction), now);
      assert queue == Refreshed(r.Get(direction), now);
      r := r.Set(direction, queue);
    }
    forall j | 0 <= j < 4
      ensures r.Get(ArrivalOrder[j]) == RefreshedLanes(lanes, now).Get(ArrivalOrder[j])
    {
      RefreshedLanesGet(lanes, now, ArrivalOrder[j]);
    }
    PerDirectionExt(r, RefreshedLanes(lanes, now));
  }

  /** Lanes well formed at one time are well formed at any later time. */
  lemma WellFormedLater(lanes: Lanes, now: int, later: int)
    requires LanesWellFormed(lanes, now) && now <= later
    ensures LanesWellFormed(lanes, later)
  {
  }

  /** The refresh changes no queue length. */
  lemma RefreshedTotal(lanes: Lanes, now: int)
    ensures TotalQueued(RefreshedLanes(lanes, now)) == TotalQueued(lanes)
  {
  }

  /** Arrival keeps a queue well formed: the new vehicle arrives now, and truncation only drops vehicles. */
  lemma ArrivalKeepsWellFormed(q: seq<Vehicle>, draw: Draw, id: nat, now: int, cap: nat)
    requires now >= 0 && QueueWellFormed(q, now)
    ensures QueueWellFormed(Truncated(Enqueued(q, draw, id, now), cap), now)
    ensures Truncated(Enqueued(q, draw, id, now), cap) != [] <==> cap > 0 && (q != [] || draw.spawn)
  {
    var e := Enqueued(q, draw, id, now);
    assert QueueWellFormed(e, now);
  }

  /** Removing the head keeps a queue well formed and refreshed. */
  lemma TailWellFormed(q: seq<Vehicle>, now: int)
    requires q != [] && QueueWellFormed(q, now) && QueueRefreshed(q, now)
    ensures QueueWellFormed(q[1..], now) && QueueRefreshed(q[1..], now)
  {
    assert forall i :: 0 <= i < |q[1..]| ==> q[1..][i] == q[i + 1];
  }

  /** The refresh keeps a queue well formed and leaves every waiting time current. */
  lemma RefreshKeepsWellFormed(q: seq<Vehicle>, now: int)
    requires QueueWellFormed(q, now)
    ensures QueueWellFormed(Refreshed(q, now), now) && QueueRefreshed(Refreshed(q, now), now)
  {
  }

  /** The refresh of all four queues keeps them well formed, refreshes every
      waiting time and changes no length. */
  lemma RefreshKeepsLanes(lanes: Lanes, now: int, cap: nat)
    requires LanesWellFormed(lanes, now)
    requires LanesWithin(lanes, cap)
    ensures LanesWellFormed(RefreshedLanes(lanes, now), now) && LanesRefreshed(RefreshedLanes(lanes, now), now)
    ensures LanesWithin(RefreshedLanes(lanes, now), cap)
    ensures TotalQueued(RefreshedLanes(lanes, now)) == TotalQueued(lanes)
  {
    RefreshKeepsWellFormed(lanes.north, now);
    RefreshKeepsWellFormed(lanes.south, now);
    RefreshKeepsWellFormed(lanes.east, now);
    RefreshKeepsWellFormed(lanes.west, now);
  }

  /** Whether the queue holds at least one emergency vehicle. */
  predicate HasEmergency(q: seq<Vehicle>)
  {
    exists i :: 0 <= i < |q| && q[i].kind == Emergency
  }

  /** The number of emergency vehicles in the queue. */
  function EmergencyCount(q: seq<Vehicle>): (n: nat)
    ensures n <= |q|
    ensures n > 0 <==> HasEmergency(q)
  {
    if q == [] then 0
    else
      var rest := EmergencyCount(q[1..]);
      assert HasEmergency(q[1..]) ==> HasEmergency(q) by {
        if HasEmergency(q[1..]) {
          var i :| 0 <= i < |q[1..]| && q[1..][i].kind == Emergency;
          assert q[i + 1].kind == Emergency;
        }
      }
      assert HasEmergency(q) && q[0].kind != Emergency ==> HasEmergency(q[1..]) by {
        if HasEmergency(q) && q[0].kind != Emergency {
          var i :| 0 <= i < |q| && q[i].kind == Emergency;
          assert q[1..][i - 1].kind == Emergency;
        }
      }
      (if q[0].kind == Emergency then 1 else 0) + rest
  }

  /** Number of emergency vehicles waiting in all four queues. */
  function QueuedEmergencies(lanes: Lanes): (n: nat)
    ensures n <= TotalQueued(lanes)
  {
    EmergencyCount(lanes.north) + EmergencyCount(lanes.south) + EmergencyCount(lanes.east) + EmergencyCount(lanes.west)
  }

  /** The total crossing time of the vehicles in the queue. */
  function CrossingSum(q: seq<Vehicle>): int
  {
    if q == [] then 0 else q[0].crossingTime + CrossingSum(q[1..])
  }

  /** Every queued vehicle has a positive crossing time. */
  ghost predicate PositiveCrossingTimes(lanes: Lanes)
  {
    forall d, i :: 0 <= i < |lanes.Get(d)| ==> lanes.Get(d)[i].crossingTime > 0
  }

  /** Well-formed queues hold only vehicles with positive crossing times. */
  lemma WellFormedPositive(lanes: Lanes, now: int)
    requires LanesWellFormed(lanes, now)
    ensures PositiveCrossingTimes(lanes)
  {
    forall d, i | 0 <= i < |lanes.Get(d)| ensures lanes.Get(d)[i].crossingTime > 0 {
      WellFormedGet(lanes, now, d);
    }
  }

  /** A queue of vehicles with positive crossing times has a positive sum exactly when it is non-empty. */
  lemma {:induction false} CrossingSumSign(q: seq<Vehicle>)
    requires forall i :: 0 <= i < |q| ==> q[i].crossingTime > 0
    ensures CrossingSum(q) >= 0
    ensures CrossingSum(q) == 0 <==> q == []
  {
    if q != [] {
      assert forall i :: 0 <= i < |q[1..]| ==> q[1..][i].crossingTime > 0 by {
        forall i | 0 <= i < |q[1..]| ensures q[1..][i].crossingTime > 0 {
          assert q[1..][i] == q[i + 1];
        }
      }
      CrossingSumSign(q[1..]);
    }
  }

  /** A vehicle that has left its queue and is crossing (no timed removal). */
  datatype Crossing = Crossing(vehicle: Vehicle, direction: Direction, crossingStartTime: int)
}
