/** The arithmetic behind the engines' metrics: sums, maxima and means of the
    recorded samples, and the per-tick rates. JavaScript numbers are modelled
    as exact reals (every value involved is a ratio of small integers). */
module Measures {

  /** The sum of the samples, 0 for none. */
  function Sum(s: seq<int>): int
  {
    if s == [] then 0 else Sum(s[..|s| - 1]) + s[|s| - 1]
  }

  /** The largest of a non-empty list of samples. */
  function Max(s: seq<int>): (m: int)
    requires |s| > 0
    ensures m in s
    ensures forall i :: 0 <= i < |s| ==> s[i] <= m
  {
    if |s| == 1 then s[0]
    else
      var rest := Max(s[..|s| - 1]);
      assert forall i :: 0 <= i < |s| - 1 ==> s[i] == s[..|s| - 1][i];
      if s[|s| - 1] > rest then s[|s| - 1] else rest
  }

  /** Sum divided by length, as the engines' averages. */
  function Mean(s: seq<int>): real
    requires |s| > 0
  {
    Sum(s) as real / |s| as real
  }

  lemma {:induction false} SumAtMost(s: seq<int>, m: int)
    requires forall i :: 0 <= i < |s| ==> s[i] <= m
    ensures Sum(s) <= |s| * m
  {
    if s != [] {
      assert forall i :: 0 <= i < |s| - 1 ==> s[..|s| - 1][i] == s[i];
      SumAtMost(s[..|s| - 1], m);
    }
  }

  lemma {:induction false} SumAtLeast(s: seq<int>, m: int)
    requires forall i :: 0 <= i < |s| ==> m <= s[i]
    ensures |s| * m <= Sum(s)
  {
    if s != [] {
      assert forall i :: 0 <= i < |s| - 1 ==> s[..|s| - 1][i] == s[i];
      SumAtLeast(s[..|s| - 1], m);
    }
  }

  /** An average never exceeds the maximum of the same samples. */
  lemma MeanAtMostMax(s: seq<int>)
    requires |s| > 0
    ensures Mean(s) <= Max(s) as real
  {
    SumAtMost(s, Max(s));
    RatioAtMost(Sum(s), |s|, Max(s));
  }

  lemma RatioAtMost(total: int, n: int, m: int)
    requires n > 0 && total <= n * m
    ensures total as real / n as real <= m as real
  {
    CastProduct(n, m);
    QuotientAtMost(total as real, n as real, m as real);
  }

  lemma CastProduct(n: int, m: int)
    ensures (n * m) as real == n as real * m as real
  {
  }

  lemma QuotientAtMost(a: real, n: real, m: real)
    requires n > 0.0 && a <= n * m
    ensures a / n <= m
  {
    var q := a / n;
    assert q * n == a;
    if q > m {
      assert q * n > m * n;
    }
  }

  /** Samples each between lo and hi above their partners sum to between lo
      and hi times their number above the partners' sum. */
  lemma {:induction false} SumShifted(a: seq<int>, b: seq<int>, lo: int, hi: int)
    requires |a| == |b|
    requires forall i :: 0 <= i < |a| ==> a[i] + lo <= b[i] <= a[i] + hi
    ensures Sum(a) + |a| * lo <= Sum(b) <= Sum(a) + |a| * hi
  {
    if a != [] {
      var n := |a| - 1;
      assert forall i :: 0 <= i < n ==> a[..n][i] == a[i] && b[..n][i] == b[i];
      SumShifted(a[..n], b[..n], lo, hi);
      assert Sum(a) == Sum(a[..n]) + a[n] && Sum(b) == Sum(b[..n]) + b[n];
      MulSucc(n, lo);
      MulSucc(n, hi);
    }
  }

  lemma MulSucc(n: int, x: int)
    ensures (n + 1) * x == n * x + x
  {
  }

  /** ... and then their average is between lo and hi above the partners' average. */
  lemma MeanShifted(a: seq<int>, b: seq<int>, lo: int, hi: int)
    requires 0 < |a| == |b|
    requires forall i :: 0 <= i < |a| ==> a[i] + lo <= b[i] <= a[i] + hi
    ensures Mean(a) + lo as real <= Mean(b) <= Mean(a) + hi as real
  {
    SumShifted(a, b, lo, hi);
    MeanGap(a, b);
    ScaledBetween(Sum(b) - Sum(a), Mean(b) - Mean(a), |a|, lo, hi);
  }

  /** A real that is an integer d divided by n lies between lo and hi when
      d lies between n times lo and n times hi. */
  lemma ScaledBetween(d: int, x: real, n: int, lo: int, hi: int)
    requires n > 0 && x * n as real == d as real && n * lo <= d <= n * hi
    ensures lo as real <= x <= hi as real
  {
    CastProduct(n, lo);
    CastProduct(n, hi);
    FactorBetween(x, n as real, lo as real, hi as real);
  }

  lemma MeanGap(a: seq<int>, b: seq<int>)
    requires 0 < |a| == |b|
    ensures (Mean(b) - Mean(a)) * |a| as real == (Sum(b) - Sum(a)) as real
  {
    var n := |a| as real;
    assert Mean(a) * n == Sum(a) as real;
    assert Mean(b) * n == Sum(b) as real;
  }

  lemma FactorBetween(x: real, n: real, lo: real, hi: real)
    requires n > 0.0 && lo * n <= x * n <= hi * n
    ensures lo <= x <= hi
  {
  }

  /** Non-negative samples have a non-negative average. */
  lemma MeanNonNegative(s: seq<int>)
    requires |s| > 0
    requires forall i :: 0 <= i < |s| ==> s[i] >= 0
    ensures Mean(s) >= 0.0
  {
    SumAtLeast(s, 0);
  }

  /** An average that stays 0 while no sample is recorded. */
  function MeanOrZero(s: seq<int>): real
  {
    if |s| > 0 then Mean(s) else 0.0
  }

  /** Vehicles per simulated minute: `(processed / time) * 60`, 0 at time 0. */
  function Throughput(processed: nat, time: int): real
  {
    if time > 0 then (processed as real / time as real) * 60.0 else 0.0
  }

  /** At most one vehicle per tick keeps throughput within 0..60 per minute. */
  lemma ThroughputBounded(processed: nat, time: int)
    requires processed <= time
    ensures 0.0 <= Throughput(processed, time) <= 60.0
  {
    if time > 0 {
      var r := processed as real / time as real;
      assert r * time as real == processed as real;
      assert r <= 1.0;
    }
  }

  /** Percentage of ticks that served a vehicle: `((time - idle) / time) * 100`, 0 at time 0. */
  function Utilization(time: int, idle: nat): real
  {
    if time > 0 then ((time - idle) as real / time as real) * 100.0 else 0.0
  }

  lemma UtilizationBounded(time: int, idle: nat)
    requires idle <= time
    ensures 0.0 <= Utilization(time, idle) <= 100.0
  {
    if time > 0 {
      var r := (time - idle) as real / time as real;
      assert r * time as real == (time - idle) as real;
      assert r <= 1.0;
    }
  }

  /** Percentage of generated vehicles already served, 0 before any is generated. */
  function Efficiency(processed: nat, generated: nat): (r: real)
    ensures generated > 0 ==> r * generated as real == 100.0 * processed as real
    ensures generated == 0 ==> r == 0.0
  {
    if generated > 0 then (processed as real / generated as real) * 100.0 else 0.0
  }

  lemma EfficiencyBounded(processed: nat, generated: nat)
    requires processed <= generated
    ensures 0.0 <= Efficiency(processed, generated) <= 100.0
  {
    if generated > 0 {
      var r := processed as real / generated as real;
      assert r * generated as real == processed as real;
      assert r <= 1.0;
    }
  }

  /** The metrics kept by the src/utils and App.jsx engines. */
  datatype WaitMetrics = WaitMetrics(avgWaitingTime: real, maxWaitingTime: int, throughput: real, emergencyDelay: real)

  const ZeroWaitMetrics := WaitMetrics(0.0, 0, 0.0, 0.0)
}
