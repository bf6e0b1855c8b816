/** The direction-selection policies of the engines, as functions of the queues,
    together with predicates that say what each choice means and lemmas that
    tie the two. */
module Scheduling {
  import opened Intersection

  /** The policy names the engines switch on; any other string is Unrecognized. */
  datatype Algorithm = RoundRobin | PriorityScheduling | ShortestJobNext | Hybrid | Unrecognized

  /** The first direction of `order` whose queue holds an emergency vehicle
      (the `for ... of` scan with early return); None when there is none. */
  function FirstEmergency(order: seq<Direction>, lanes: Lanes): (r: Option<Direction>)
    ensures r.None? <==> forall j :: 0 <= j < |order| ==> !HasEmergency(lanes.Get(order[j]))
    ensures r.Some? ==> exists k :: 0 <= k < |order| && order[k] == r.value
                                   && HasEmergency(lanes.Get(order[k]))
                                   && forall j :: 0 <= j < k ==> !HasEmergency(lanes.Get(order[j]))
  {
    if order == [] then None
    else if HasEmergency(lanes.Get(order[0])) then Some(order[0])
    else
      var r := FirstEmergency(order[1..], lanes);
      assert forall j :: 1 <= j < |order| ==> order[j] == order[1..][j - 1];
      r
  }

  /** The `for (const direction of directions)` loop of priority scheduling,
      which returns the first direction of N, E, S, W holding an emergency vehicle. */
  method FirstEmergencyScan(lanes: Lanes) returns (r: Option<Direction>)
    ensures r == FirstEmergency(SchedulingOrder, lanes)
  {
    for i := 0 to 4
      invariant forall j :: 0 <= j < i ==> !HasEmergency(lanes.Get(SchedulingOrder[j]))
    {
      var direction := SchedulingOrder[i];
      if HasEmergency(lanes.Get(direction)) {
        ghost var f := FirstEmergency(SchedulingOrder, lanes);
        ghost var k :| 0 <= k < 4 && SchedulingOrder[k] == f.value && HasEmergency(lanes.Get(SchedulingOrder[k]))
                      && forall j :: 0 <= j < k ==> !HasEmergency(lanes.Get(SchedulingOrder[j]));
        assert k == i;
        return Some(direction);
      }
    }
    return None;
  }

  /** The scan over ArrivalOrder, restated per direction by its rank. */
  lemma FirstEmergencyInArrivalOrder(lanes: Lanes)
    ensures FirstEmergency(ArrivalOrder, lanes).None? <==> forall d :: !HasEmergency(lanes.Get(d))
    ensures FirstEmergency(ArrivalOrder, lanes).Some? ==>
      var e := FirstEmergency(ArrivalOrder, lanes).value;
      && HasEmergency(lanes.Get(e))
      && forall d :: ArrivalRank(d) < ArrivalRank(e) ==> !HasEmergency(lanes.Get(d))
  {
    var r := FirstEmergency(ArrivalOrder, lanes);
    if r.None? {
      forall d ensures !HasEmergency(lanes.Get(d)) {
        assert ArrivalOrder[ArrivalRank(d)] == d;
      }
    } else {
      var k :| 0 <= k < 4 && ArrivalOrder[k] == r.value && HasEmergency(lanes.Get(ArrivalOrder[k]))
               && forall j :: 0 <= j < k ==> !HasEmergency(lanes.Get(ArrivalOrder[j]));
      assert ArrivalRank(r.value) == k;
      forall d | ArrivalRank(d) < ArrivalRank(r.value) ensures !HasEmergency(lanes.Get(d)) {
        assert ArrivalOrder[ArrivalRank(d)] == d;
      }
    }
  }

  /** d holds an emergency vehicle and no direction scanned before it in
      SchedulingOrder does. */
  ghost predicate IsFirstEmergency(lanes: Lanes, d: Direction)
  {
    && HasEmergency(lanes.Get(d))
    && forall e :: Position(e) < Position(d) ==> !HasEmergency(lanes.Get(e))
  }

  /** d has a longest queue, and every direction before it in SchedulingOrder
      has a strictly shorter one (the earliest wins ties). */
  ghost predicate IsLongestQueue(lanes: Lanes, d: Direction)
  {
    && (forall e :: |lanes.Get(e)| <= |lanes.Get(d)|)
    && (forall e :: Position(e) < Position(d) ==> |lanes.Get(e)| < |lanes.Get(d)|)
  }

  /** The longest queue among the first n directions of SchedulingOrder,
      a later queue replacing the one kept only when strictly longer. */
  function MostVehiclesAmong(lanes: Lanes, n: nat): (r: Direction)
    requires 1 <= n <= 4
    ensures Position(r) < n
    ensures forall k :: 0 <= k < n ==> |lanes.Get(SchedulingOrder[k])| <= |lanes.Get(r)|
    ensures forall k :: 0 <= k < Position(r) ==> |lanes.Get(SchedulingOrder[k])| < |lanes.Get(r)|
  {
    if n == 1 then North
    else
      var best := MostVehiclesAmong(lanes, n - 1);
      var dir := SchedulingOrder[n - 1];
      if |lanes.Get(dir)| > |lanes.Get(best)| then dir else best
  }

  function MostVehicles(lanes: Lanes): Direction
  {
    MostVehiclesAmong(lanes, 4)
  }

  lemma MostVehiclesIsLongest(lanes: Lanes)
    ensures IsLongestQueue(lanes, MostVehicles(lanes))
  {
    var r := MostVehicles(lanes);
    forall e ensures |lanes.Get(e)| <= |lanes.Get(r)| {
      assert SchedulingOrder[Position(e)] == e;
    }
    forall e | Position(e) < Position(r) ensures |lanes.Get(e)| < |lanes.Get(r)| {
      assert SchedulingOrder[Position(e)] == e;
    }
  }

  /** The longest-queue condition singles out one direction. */
  lemma LongestQueueUnique(lanes: Lanes, d1: Direction, d2: Direction)
    requires IsLongestQueue(lanes, d1) && IsLongestQueue(lanes, d2)
    ensures d1 == d2
  {
    assert Position(d1) == Position(d2);
  }

  /** The priority-scheduling choice: the first emergency direction in
      N, E, S, W order, else the longest queue. */
  function PriorityChoice(lanes: Lanes): Direction
  {
    match FirstEmergency(SchedulingOrder, lanes)
    case Some(d) => d
    case None => MostVehicles(lanes)
  }

  ghost predicate IsPriorityChoice(lanes: Lanes, d: Direction)
  {
    if exists e :: HasEmergency(lanes.Get(e)) then IsFirstEmergency(lanes, d)
    else IsLongestQueue(lanes, d)
  }

  /** While any queue holds an emergency vehicle, priority scheduling picks the
      first such direction in N, E, S, W order; otherwise the longest queue,
      earliest on ties. */
  lemma PriorityChoiceMeaning(lanes: Lanes)
    ensures IsPriorityChoice(lanes, PriorityChoice(lanes))
  {
    var d := PriorityChoice(lanes);
    if exists e :: HasEmergency(lanes.Get(e)) {
      var e :| HasEmergency(lanes.Get(e));
      assert SchedulingOrder[Position(e)] == e;
      var f := FirstEmergency(SchedulingOrder, lanes);
      var k :| 0 <= k < 4 && SchedulingOrder[k] == f.value
               && HasEmergency(lanes.Get(SchedulingOrder[k]))
               && forall j :: 0 <= j < k ==> !HasEmergency(lanes.Get(SchedulingOrder[j]));
      assert k == Position(d);
      forall e' | Position(e') < Position(d) ensures !HasEmergency(lanes.Get(e')) {
        assert SchedulingOrder[Position(e')] == e';
      }
    } else {
      MostVehiclesIsLongest(lanes);
    }
  }

  lemma PriorityChoiceUnique(lanes: Lanes, d1: Direction, d2: Direction)
    requires IsPriorityChoice(lanes, d1) && IsPriorityChoice(lanes, d2)
    ensures d1 == d2
  {
    if exists e :: HasEmergency(lanes.Get(e)) {
      assert Position(d1) == Position(d2);
    } else {
      LongestQueueUnique(lanes, d1, d2);
    }
  }

  /** The shortest-job-next reduce over the first n directions of
      SchedulingOrder: start from north with north's crossing-time sum and move
      to a later direction only when its queue is non-empty and its sum is
      strictly smaller. */
  function ShortestJobAmong(lanes: Lanes, n: nat): (r: Direction)
    requires 1 <= n <= 4
    ensures Position(r) < n
    ensures r == North || lanes.Get(r) != []
    ensures r != North ==> CrossingSum(lanes.Get(r)) < CrossingSum(lanes.north)
    ensures forall k :: 0 <= k < n && lanes.Get(SchedulingOrder[k]) != [] ==>
              CrossingSum(lanes.Get(r)) <= CrossingSum(lanes.Get(SchedulingOrder[k]))
    ensures forall k :: 0 < k < Position(r) && lanes.Get(SchedulingOrder[k]) != [] ==>
              CrossingSum(lanes.Get(r)) < CrossingSum(lanes.Get(SchedulingOrder[k]))
  {
    if n == 1 then North
    else
      var shortest := ShortestJobAmong(lanes, n - 1);
      var dir := SchedulingOrder[n - 1];
      if CrossingSum(lanes.Get(dir)) < CrossingSum(lanes.Get(shortest)) && |lanes.Get(dir)| > 0 then dir
      else shortest
  }

  function ShortestJob(lanes: Lanes): Direction
  {
    ShortestJobAmong(lanes, 4)
  }

  /** North whenever north's queue is empty; otherwise a non-empty direction
      whose crossing-time sum is at most every other non-empty direction's,
      earliest on ties. */
  ghost predicate IsShortestJob(lanes: Lanes, d: Direction)
  {
    if lanes.north == [] then d == North
    else
      && lanes.Get(d) != []
      && (forall e :: lanes.Get(e) != [] ==> CrossingSum(lanes.Get(d)) <= CrossingSum(lanes.Get(e)))
      && (forall e :: lanes.Get(e) != [] && Position(e) < Position(d) ==>
            CrossingSum(lanes.Get(d)) < CrossingSum(lanes.Get(e)))
  }

  lemma ShortestJobMeaning(lanes: Lanes)
    requires PositiveCrossingTimes(lanes)
    ensures IsShortestJob(lanes, ShortestJob(lanes))
  {
    var r := ShortestJob(lanes);
    if lanes.north == [] {
      if r != North {
        CrossingSumSign(lanes.Get(r));
        assert false;
      }
    } else {
      forall e | lanes.Get(e) != [] ensures CrossingSum(lanes.Get(r)) <= CrossingSum(lanes.Get(e)) {
        assert SchedulingOrder[Position(e)] == e;
      }
      forall e | lanes.Get(e) != [] && Position(e) < Position(r)
        ensures CrossingSum(lanes.Get(r)) < CrossingSum(lanes.Get(e))
      {
        assert SchedulingOrder[Position(e)] == e;
      }
    }
  }

  lemma ShortestJobUnique(lanes: Lanes, d1: Direction, d2: Direction)
    requires IsShortestJob(lanes, d1) && IsShortestJob(lanes, d2)
    ensures d1 == d2
  {
    if lanes.north != [] {
      assert Position(d1) == Position(d2);
    }
  }

  /** The shortest-job-next `for` loop of the engines, which keeps the running
      minimum in a variable instead of recomputing it; it picks the same
      direction as the reduce. */
  method ShortestJobScan(lanes: Lanes) returns (d: Direction)
    ensures d == ShortestJob(lanes)
  {
    d := SchedulingOrder[0];
    var shortestTime := CrossingSum(lanes.Get(d));
    for i := 1 to 4
      invariant d == ShortestJobAmong(lanes, i)
      invariant shortestTime == CrossingSum(lanes.Get(d))
    {
      var direction := SchedulingOrder[i];
      var totalTime := CrossingSum(lanes.Get(direction));
      if totalTime < shortestTime && |lanes.Get(direction)| > 0 {
        shortestTime := totalTime;
        d := direction;
      }
    }
  }

  /** The number of places, 1 to 4, from `from` forward to `to` in the cycle. */
  function Gap(from: Direction, to: Direction): nat
  {
    if Position(from) < Position(to) then Position(to) - Position(from) else Position(to) - Position(from) + 4
  }

  lemma GapAdvance(from: Direction, k: nat)
    requires 1 <= k <= 4
    ensures Gap(from, Advance(from, k)) == k
  {
    var p := Position(from);
    assert Position(Advance(from, k)) == if p + k < 4 then p + k else p + k - 4;
  }

  lemma AdvanceGap(from: Direction, to: Direction)
    ensures 1 <= Gap(from, to) <= 4 && Advance(from, Gap(from, to)) == to
  {
    var p, q := Position(from), Position(to);
    assert (p + Gap(from, to)) % 4 == q;
  }

  /** The skip-empty round robin scanned from `offset` places after `last`:
      the first non-empty queue at offsets offset..4, else the plain successor. */
  function NextOccupied(last: Direction, lanes: Lanes, offset: nat): (r: Direction)
    requires 1 <= offset <= 5
    ensures (forall k :: offset <= k <= 4 ==> lanes.Get(Advance(last, k)) == []) ==> r == Successor(last)
    ensures (exists k :: offset <= k <= 4 && lanes.Get(Advance(last, k)) != []) ==>
              && lanes.Get(r) != []
              && offset <= Gap(last, r)
              && forall k :: offset <= k < Gap(last, r) ==> lanes.Get(Advance(last, k)) == []
    decreases 5 - offset
  {
    if offset == 5 then Successor(last)
    else if |lanes.Get(Advance(last, offset))| > 0 then
      GapAdvance(last, offset);
      Advance(last, offset)
    else NextOccupied(last, lanes, offset + 1)
  }

  /** `getNextRoundRobinDirection`'s result: the first non-empty queue after
      `last` in the cycle, checking `last` itself last; the plain successor when
      every queue is empty. */
  function SkipEmptySuccessor(last: Direction, lanes: Lanes): (r: Direction)
    ensures (forall e :: lanes.Get(e) == []) ==> r == Successor(last)
    ensures (exists e :: lanes.Get(e) != []) ==>
              && lanes.Get(r) != []
              && forall k :: 1 <= k < Gap(last, r) ==> lanes.Get(Advance(last, k)) == []
  {
    OccupiedOffset(last, lanes);
    NextOccupied(last, lanes, 1)
  }

  /** The loop of `getNextRoundRobinDirection`: the offsets 1 to 4 after
      `last` in N, E, S, W, the first with a waiting vehicle winning, and the
      plain successor when there is none. */
  method SkipEmptyScan(last: Direction, lanes: Lanes) returns (d: Direction)
    ensures d == SkipEmptySuccessor(last, lanes)
  {
    var currentIndex := Position(last);
    var i := 1;
    while i <= 4
      invariant 1 <= i <= 5
      invariant NextOccupied(last, lanes, i) == SkipEmptySuccessor(last, lanes)
    {
      var nextDirection := SchedulingOrder[(currentIndex + i) % 4];
      NextOccupiedUnfold(last, lanes, i);
      if |lanes.Get(nextDirection)| > 0 {
        return nextDirection;
      }
      i := i + 1;
    }
    d := SchedulingOrder[(currentIndex + 1) % 4];
  }

  /** One step of the offset scan. */
  lemma NextOccupiedUnfold(last: Direction, lanes: Lanes, offset: nat)
    requires 1 <= offset <= 4
    ensures SchedulingOrder[(Position(last) + offset) % 4] == Advance(last, offset)
    ensures NextOccupied(last, lanes, offset)
         == if |lanes.Get(Advance(last, offset))| > 0 then Advance(last, offset)
            else NextOccupied(last, lanes, offset + 1)
  {
  }

  /** A non-empty queue somewhere is a non-empty queue at some offset 1..4 after last. */
  lemma OccupiedOffset(last: Direction, lanes: Lanes)
    ensures (exists e :: lanes.Get(e) != []) ==> exists k :: 1 <= k <= 4 && lanes.Get(Advance(last, k)) != []
  {
    if exists e :: lanes.Get(e) != [] {
      var e :| lanes.Get(e) != [];
      AdvanceGap(last, e);
    }
  }

  /** `getNextDirection` for the fixed policies: round robin takes the cyclic
      successor, priority scheduling and shortest-job-next their choices, and
      any other algorithm keeps the active direction. */
  function FixedPolicyChoice(algorithm: Algorithm, active: Direction, lanes: Lanes): Direction
  {
    match algorithm
    case RoundRobin => Successor(active)
    case PriorityScheduling => PriorityChoice(lanes)
    case ShortestJobNext => ShortestJob(lanes)
    case _ => active
  }

  ghost predicate IsPolicyChoice(algorithm: Algorithm, active: Direction, lanes: Lanes, d: Direction)
  {
    match algorithm
    case RoundRobin => Position(d) == (Position(active) + 1) % 4
    case PriorityScheduling => IsPriorityChoice(lanes, d)
    case ShortestJobNext => IsShortestJob(lanes, d)
    case _ => d == active
  }

  lemma FixedPolicyChoiceMeaning(algorithm: Algorithm, active: Direction, lanes: Lanes)
    requires PositiveCrossingTimes(lanes)
    ensures IsPolicyChoice(algorithm, active, lanes, FixedPolicyChoice(algorithm, active, lanes))
  {
    match algorithm
    case PriorityScheduling => PriorityChoiceMeaning(lanes);
    case ShortestJobNext => ShortestJobMeaning(lanes);
    case _ =>
  }
}
