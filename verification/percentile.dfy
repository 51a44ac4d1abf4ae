/**
 Nearest-rank percentiles and the latency statistics made of them (dashboard/src/data/mockLogs.js:138-163),
 over exact numbers: counts, ranks, the average and the largest.
 */
module Percentile {
  import opened Arithmetic
  import opened Incidents
  import opened StableSort

  function Negated(x: real): real { -x }

  /** Smallest first. */
  function Ascending(values: seq<real>): seq<real> { Sorted(values, Negated) }

  function Ceil(x: real): int { -((-x).Floor) }

  function Rank(p: real, n: nat): int { Ceil(p / 100.0 * n as real) }

  function RankIndex(p: real, n: nat): (i: nat)
    requires n > 0
    ensures i < n
  {
    var k := Rank(p, n) - 1;
    if k < 0 then 0 else if k > n - 1 then n - 1 else k
  }

  function PercentileOf(values: seq<real>, p: real): real {
    if values == [] then 0.0 else Ascending(values)[RankIndex(p, |values|)]
  }

  function AtMost(values: seq<real>, x: real): nat {
    if values == [] then 0
    else AtMost(values[..|values| - 1], x) + if values[|values| - 1] <= x then 1 else 0
  }

  // ---- Counting does not see the order ----

  lemma {:induction false} AtMostAppend(a: seq<real>, b: seq<real>, x: real)
    ensures AtMost(a + b, x) == AtMost(a, x) + AtMost(b, x)
  {
    if b == [] {
      assert a + b == a;
    } else {
      var last := |b| - 1;
      AtMostAppend(a, b[..last], x);
      assert (a + b)[..|a + b| - 1] == a + b[..last];
    }
  }

  lemma {:induction false} AtMostPermuted(a: seq<real>, b: seq<real>, x: real)
    requires multiset(a) == multiset(b)
    ensures AtMost(a, x) == AtMost(b, x)
    decreases |a|
  {
    assert |multiset(a)| == |a| && |multiset(b)| == |b|;
    if a != [] {
      var front, y := a[..|a| - 1], a[|a| - 1];
      assert a == front + [y];
      assert y in multiset(b);
      var j :| 0 <= j < |b| && b[j] == y;
      var rest := b[..j] + b[j + 1..];
      AtMostRemoved(b, j, x);
      CancelOne(multiset(front), multiset(rest), y);
      AtMostPermuted(front, rest, x);
    }
  }

  /** Taking one value out takes it out of the multiset and out of the count. */
  lemma AtMostRemoved(b: seq<real>, j: nat, x: real)
    requires j < |b|
    ensures var rest := b[..j] + b[j + 1..];
            && multiset(b) == multiset(rest) + multiset{b[j]}
            && AtMost(b, x) == AtMost(rest, x) + if b[j] <= x then 1 else 0
  {
    var low, y, high := b[..j], [b[j]], b[j + 1..];
    assert b == low + (y + high);
    AtMostAppend(low, y + high, x);
    AtMostAppend(y, high, x);
    AtMostAppend(low, high, x);
    assert y[..0] == [];
  }

  lemma CancelOne(m: multiset<real>, n: multiset<real>, e: real)
    requires m + multiset{e} == n + multiset{e}
    ensures m == n
  {
    forall x ensures m[x] == n[x] {
      assert (m + multiset{e})[x] == (n + multiset{e})[x];
    }
  }

  predicate Rises(s: seq<real>) { forall i, j :: 0 <= i < j < |s| ==> s[i] <= s[j] }

  lemma AscendingRises(values: seq<real>)
    ensures Rises(Ascending(values)) && multiset(Ascending(values)) == multiset(values)
  {
    SortedDescends(values, Negated);
    var s := Ascending(values);
    forall i, j | 0 <= i < j < |s| ensures s[i] <= s[j] {
      assert Negated(s[i]) >= Negated(s[j]);
    }
  }

  /** In a rising sequence the element at `k` has more than `k` elements at most it, and no smaller one has. */
  lemma {:induction false} RankInOrder(s: seq<real>, k: nat, x: real)
    requires Rises(s) && k < |s|
    ensures x >= s[k] ==> AtMost(s, x) > k
    ensures x < s[k] ==> AtMost(s, x) <= k
  {
    var last := |s| - 1;
    if k < last {
      RankInOrder(s[..last], k, x);
      assert s[k] <= s[last];
    } else {
      if x >= s[k] { AllAtMost(s, x); }
      AtMostBound(s[..last], x);
    }
  }

  lemma {:induction false} AtMostBound(s: seq<real>, x: real)
    ensures AtMost(s, x) <= |s|
  {
    if s != [] { AtMostBound(s[..|s| - 1], x); }
  }

  lemma {:induction false} AllAtMost(s: seq<real>, x: real)
    requires forall i :: 0 <= i < |s| ==> s[i] <= x
    ensures AtMost(s, x) == |s|
  {
    if s != [] { AllAtMost(s[..|s| - 1], x); }
  }

  // ---- What a percentile is ----

  ghost predicate IsRanked(values: seq<real>, k: int, v: real) {
    v in values && AtMost(values, v) >= k && forall w :: w in values && w < v ==> AtMost(values, w) < k
  }

  /** At least `p` percent of the values are not above `x`. */
  predicate Covers(values: seq<real>, p: real, x: real) {
    AtMost(values, x) as real * 100.0 >= p * |values| as real
  }

  /** `v` is the smallest of the values with at least `p` percent of them not above it. */
  ghost predicate IsNearestRank(values: seq<real>, p: real, v: real) {
    v in values && Covers(values, p, v) && forall w :: w in values && w < v ==> !Covers(values, p, w)
  }

  /** A count reaches the rank exactly when it reaches the share itself. */
  lemma RankIsShare(p: real, n: nat, count: int)
    ensures count >= Rank(p, n) <==> count as real * 100.0 >= p * n as real
  {
    var x := p / 100.0 * n as real;
    assert x * 100.0 == p * n as real;
    assert (-x).Floor as real <= -x < (-x).Floor as real + 1.0;
  }

  lemma RankInRange(p: real, n: nat)
    requires 0.0 < p <= 100.0 && n > 0
    ensures 1 <= Rank(p, n) <= n && RankIndex(p, n) == Rank(p, n) - 1
  {
    var x := p / 100.0 * n as real;
    assert 0.0 < p / 100.0 <= 1.0;
    RealScaled(0.0, p / 100.0, n as real);
    RealScaled(p / 100.0, 1.0, n as real);
    assert (-x).Floor as real <= -x < (-x).Floor as real + 1.0;
  }

  lemma RankedByCount(values: seq<real>, p: real)
    requires values != [] && 0.0 < p <= 100.0
    ensures IsRanked(values, Rank(p, |values|), PercentileOf(values, p))
  {
    var s, k := Ascending(values), RankIndex(p, |values|);
    AscendingRises(values);
    RankInRange(p, |values|);
    assert s[k] in multiset(values);
    RankInOrder(s, k, s[k]);
    AtMostPermuted(values, s, s[k]);
    forall w | w in values && w < s[k] ensures AtMost(values, w) < Rank(p, |values|) {
      RankInOrder(s, k, w);
      AtMostPermuted(values, s, w);
    }
  }

  /** For 0 < p <= 100 the result is the smallest value with at least p percent of the values not above it. */
  lemma NearestRank(values: seq<real>, p: real)
    requires values != [] && 0.0 < p <= 100.0
    ensures IsNearestRank(values, p, PercentileOf(values, p))
  {
    RankedByCount(values, p);
    CountCovers(values, p, PercentileOf(values, p));
    forall w | w in values ensures AtMost(values, w) >= Rank(p, |values|) <==> Covers(values, p, w) {
      CountCovers(values, p, w);
    }
  }

  lemma CountCovers(values: seq<real>, p: real, w: real)
    ensures AtMost(values, w) >= Rank(p, |values|) <==> Covers(values, p, w)
  {
    RankIsShare(p, |values|, AtMost(values, w));
  }

  predicate IsLeast(values: seq<real>, v: real) { v in values && forall w :: w in values ==> v <= w }

  predicate IsGreatest(values: seq<real>, v: real) { v in values && forall w :: w in values ==> v >= w }

  /** Outside that range the index is clamped: the smallest value below, the largest above. */
  lemma ClampedRank(values: seq<real>, p: real)
    requires values != []
    ensures p <= 0.0 ==> IsLeast(values, PercentileOf(values, p))
    ensures p >= 100.0 ==> IsGreatest(values, PercentileOf(values, p))
  {
    var s, n := Ascending(values), |values|;
    AscendingRises(values);
    assert s[RankIndex(p, n)] in multiset(values);
    RankSign(p, n);
    forall w | w in values ensures (p <= 0.0 ==> s[RankIndex(p, n)] <= w) && (p >= 100.0 ==> s[RankIndex(p, n)] >= w) {
      assert w in multiset(s);
      var j :| 0 <= j < |s| && s[j] == w;
    }
  }

  lemma RankSign(p: real, n: nat)
    requires n > 0
    ensures p <= 0.0 ==> RankIndex(p, n) == 0
    ensures p >= 100.0 ==> RankIndex(p, n) == n - 1
  {
    var x := p / 100.0 * n as real;
    assert (-x).Floor as real <= -x < (-x).Floor as real + 1.0;
    RealScaled(p / 100.0, 0.0, n as real);
    RealScaled(1.0, p / 100.0, n as real);
  }

  lemma RankPermuted(a: seq<real>, b: seq<real>, p: real)
    requires multiset(a) == multiset(b) && a != [] && b != [] && 0.0 < p <= 100.0
    ensures PercentileOf(a, p) == PercentileOf(b, p)
  {
    assert |multiset(a)| == |a| && |multiset(b)| == |b|;
    RankedByCount(a, p);
    RankedByCount(b, p);
    SameRanked(a, b, Rank(p, |a|), PercentileOf(a, p), PercentileOf(b, p));
  }

  lemma SameRanked(a: seq<real>, b: seq<real>, k: int, v: real, w: real)
    requires multiset(a) == multiset(b) && IsRanked(a, k, v) && IsRanked(b, k, w)
    ensures v == w
  {
    assert v in multiset(b) && w in multiset(a);
    AtMostPermuted(a, b, v);
    AtMostPermuted(a, b, w);
  }

  lemma ExtremeIsOne(a: seq<real>, b: seq<real>, v: real, w: real)
    requires multiset(a) == multiset(b)
    requires (IsLeast(a, v) && IsLeast(b, w)) || (IsGreatest(a, v) && IsGreatest(b, w))
    ensures v == w
  {
    assert v in multiset(a) && w in multiset(b);
    assert v in b && w in a;
  }

  lemma ExtremePermuted(a: seq<real>, b: seq<real>, p: real)
    requires multiset(a) == multiset(b) && a != [] && b != [] && (p <= 0.0 || p >= 100.0)
    ensures PercentileOf(a, p) == PercentileOf(b, p)
  {
    ClampedRank(a, p);
    ClampedRank(b, p);
    ExtremeIsOne(a, b, PercentileOf(a, p), PercentileOf(b, p));
  }

  /** The order of the values does not matter. */
  lemma PermutationInvariant(a: seq<real>, b: seq<real>, p: real)
    requires multiset(a) == multiset(b)
    ensures PercentileOf(a, p) == PercentileOf(b, p)
  {
    assert |multiset(a)| == |a| && |multiset(b)| == |b|;
    if a != [] {
      if 0.0 < p <= 100.0 { RankPermuted(a, b, p); } else { ExtremePermuted(a, b, p); }
    }
  }

  lemma FloorMonotone(x: real, y: real)
    requires x <= y
    ensures x.Floor <= y.Floor
  {
  }

  lemma RankMonotone(p: real, q: real, n: nat)
    requires p <= q && n > 0
    ensures RankIndex(p, n) <= RankIndex(q, n)
  {
    var x, y := p / 100.0 * n as real, q / 100.0 * n as real;
    RealScaled(p / 100.0, q / 100.0, n as real);
    FloorMonotone(-y, -x);
  }

  /** A higher percentile is never smaller. */
  lemma MonotoneInP(values: seq<real>, p: real, q: real)
    requires p <= q
    ensures PercentileOf(values, p) <= PercentileOf(values, q)
  {
    if values != [] {
      AscendingRises(values);
      RankMonotone(p, q, |values|);
    }
  }

  // ---- Latency statistics ----

  datatype Stats = Stats(count: nat, avg: int, max: real, p50: real, p90: real, p99: real)

  /** The durations that are numbers. */
  function Numbers(durations: seq<Option<real>>): seq<real> {
    if durations == [] then []
    else Numbers(durations[..|durations| - 1])
         + if durations[|durations| - 1].Some? then [durations[|durations| - 1].value] else []
  }

  function Sum(values: seq<real>): real {
    if values == [] then 0.0 else Sum(values[..|values| - 1]) + values[|values| - 1]
  }

  function Largest(values: seq<real>): (m: real)
    requires values != []
    ensures m in values && forall x :: x in values ==> x <= m
  {
    if |values| == 1 then values[0]
    else
      var last := |values| - 1;
      var m := Largest(values[..last]);
      assert forall x :: x in values ==> x in values[..last] || x == values[last];
      if values[last] > m then values[last] else m
  }

  function Mean(values: seq<real>): real
    requires values != []
  {
    Sum(values) / |values| as real
  }

  /** `Math.round`: halves go up. */
  function Rounded(x: real): int { (x + 0.5).Floor }

  function LatencyStatsFor(durations: seq<Option<real>>): Option<Stats> {
    var values := Numbers(durations);
    if values == [] then None
    else Some(Stats(|values|, Rounded(Mean(values)), Largest(values),
                    PercentileOf(values, 50.0), PercentileOf(values, 90.0), PercentileOf(values, 99.0)))
  }

  /** There are statistics exactly when there is a number, and they are in order. */
  lemma StatsInOrder(durations: seq<Option<real>>)
    ensures LatencyStatsFor(durations).None? <==> forall d :: d in durations ==> d.None?
    ensures var s := LatencyStatsFor(durations);
            s.Some? ==> s.value.p50 <= s.value.p90 <= s.value.p99 <= s.value.max
  {
    var values := Numbers(durations);
    NumbersEmpty(durations);
    if values != [] {
      MonotoneInP(values, 50.0, 90.0);
      MonotoneInP(values, 90.0, 99.0);
      NearestRank(values, 99.0);
    }
  }

  lemma {:induction false} NumbersEmpty(durations: seq<Option<real>>)
    ensures Numbers(durations) == [] <==> forall d :: d in durations ==> d.None?
  {
    if durations != [] {
      var last := |durations| - 1;
      NumbersEmpty(durations[..last]);
      assert durations[last] in durations;
      assert forall d :: d in durations <==> d in durations[..last] || d == durations[last];
    }
  }

  lemma OneMore<T>(s: seq<T>, x: T)
    requires s != []
    ensures multiset(s)[x] == multiset(s[..|s| - 1])[x] + if s[|s| - 1] == x then 1 else 0
  {
    assert s == s[..|s| - 1] + [s[|s| - 1]];
  }

  lemma {:induction false} NumbersCount(durations: seq<Option<real>>, x: real)
    ensures multiset(Numbers(durations))[x] == multiset(durations)[Some(x)]
  {
    if durations != [] {
      var last := |durations| - 1;
      NumbersCount(durations[..last], x);
      OneMore(durations, Some(x));
    }
  }

  lemma {:induction false} NumbersSize(durations: seq<Option<real>>)
    ensures |Numbers(durations)| == |durations| - multiset(durations)[None]
  {
    if durations != [] {
      var last := |durations| - 1;
      NumbersSize(durations[..last]);
      OneMore(durations, None);
    }
  }

  /** Every number is taken as often as it occurs, and nothing else. */
  lemma NumbersTold(durations: seq<Option<real>>)
    ensures forall x: real :: multiset(Numbers(durations))[x] == multiset(durations)[Some(x)]
    ensures |Numbers(durations)| == |durations| - multiset(durations)[None]
  {
    NumbersSize(durations);
    forall x: real ensures multiset(Numbers(durations))[x] == multiset(durations)[Some(x)] {
      NumbersCount(durations, x);
    }
  }

  /** The statistics are of the numbers alone: how many there are, the largest, and the three percentiles. */
  lemma StatsTold(durations: seq<Option<real>>)
    requires LatencyStatsFor(durations).Some?
    ensures var s, values := LatencyStatsFor(durations).value, Numbers(durations);
            && s.count == |durations| - multiset(durations)[None]
            && (forall x :: x in values <==> Some(x) in durations) && IsGreatest(values, s.max)
            && IsNearestRank(values, 50.0, s.p50) && IsNearestRank(values, 90.0, s.p90)
            && IsNearestRank(values, 99.0, s.p99)
  {
    var values := Numbers(durations);
    NumbersTold(durations);
    assert forall x :: x in values <==> multiset(values)[x] > 0;
    NearestRank(values, 50.0);
    NearestRank(values, 90.0);
    NearestRank(values, 99.0);
  }

  lemma {:induction false} SumBounded(values: seq<real>, high: real)
    requires forall x :: x in values ==> x <= high
    ensures Sum(values) <= high * |values| as real
  {
    if values != [] {
      var last := |values| - 1;
      assert forall x :: x in values[..last] ==> x in values;
      SumBounded(values[..last], high);
      assert values[last] in values;
      assert high * |values| as real == high * last as real + high;
    }
  }

  /** `sums` are the running sums of the values. */
  predicate RunsUp(sums: seq<real>, values: seq<real>) {
    |sums| == |values| + 1 && sums[0] == 0.0 && forall i :: 0 <= i < |values| ==> sums[i + 1] == sums[i] + values[i]
  }

  lemma {:induction false} SumRunsUp(values: seq<real>) returns (sums: seq<real>)
    ensures RunsUp(sums, values) && sums[|values|] == Sum(values)
  {
    if values == [] {
      sums := [0.0];
    } else {
      var last := |values| - 1;
      sums := SumRunsUp(values[..last]);
      sums := sums + [sums[last] + values[last]];
    }
  }

  /** `mean` times the count is the last running sum. */
  ghost predicate IsMean(mean: real, values: seq<real>) {
    exists sums :: RunsUp(sums, values) && sums[|values|] == mean * |values| as real
  }

  lemma MeanIsOne(values: seq<real>)
    requires values != []
    ensures IsMean(Mean(values), values)
  {
    var sums := SumRunsUp(values);
    assert Mean(values) * |values| as real == Sum(values);
  }

  /** The average is the mean to the nearest integer, halves up; the mean never exceeds the maximum. */
  lemma AverageIsCentral(durations: seq<Option<real>>)
    requires LatencyStatsFor(durations).Some?
    ensures var values, s := Numbers(durations), LatencyStatsFor(durations).value;
            var mean := Mean(values);
            IsMean(mean, values) && mean - 0.5 < s.avg as real <= mean + 0.5 && mean <= s.max
  {
    var values := Numbers(durations);
    MeanBounded(values);
    RoundedNear(Mean(values));
    MeanIsOne(values);
  }

  lemma MeanBounded(values: seq<real>)
    requires values != []
    ensures Mean(values) <= Largest(values)
  {
    SumBounded(values, Largest(values));
    RealQuotient(Sum(values), |values| as real, Largest(values));
  }

  lemma RoundedNear(x: real)
    ensures x - 0.5 < Rounded(x) as real <= x + 0.5
  {
  }
}
