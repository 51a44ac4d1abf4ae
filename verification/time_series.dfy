/**
 Log volume buckets (dashboard/src/data/timeSeries.js:57-82): evenly spaced buckets over a look-back
 window and the per-level counts of the events that fall into them, none lost and none counted twice.
 */
module TimeSeries {
  import opened Arithmetic

  /** Times in milliseconds; the label of a bucket is locale text and left out. */
  datatype LogEvent = LogEvent(at: int, level: string)

  datatype Bucket = Bucket(ts: int, counts: map<string, nat>)

  datatype Preset = Preset(lookbackMs: int, bucketMs: int)

  function StartOf(p: Preset, now: int): int { now - p.lookbackMs }

  /** The number of buckets; a negative look-back has none. */
  function Size(p: Preset): nat
    requires p.bucketMs > 0
  {
    if p.lookbackMs < 0 then 0 else p.lookbackMs / p.bucketMs + 1
  }

  function EmptyBuckets(p: Preset, now: int, n: nat): (r: seq<Bucket>)
    ensures |r| == n
  {
    if n == 0 then [] else EmptyBuckets(p, now, n - 1) + [Bucket(StartOf(p, now) + (n - 1) * p.bucketMs, map[])]
  }

  method BuildBuckets(p: Preset, now: int) returns (buckets: seq<Bucket>)
    requires p.bucketMs > 0
    ensures buckets == EmptyBuckets(p, now, Size(p))
  {
    buckets := [];
    var start := StartOf(p, now);
    var ts := start;
    ghost var n := 0;
    while ts <= now
      invariant n >= 0 && ts == start + n * p.bucketMs
      invariant buckets == EmptyBuckets(p, now, n)
      invariant n > 0 ==> start + (n - 1) * p.bucketMs <= now
      decreases now - ts
    {
      buckets := buckets + [Bucket(ts, map[])];
      ts := ts + p.bucketMs;
      n := n + 1;
      assert (n - 1) * p.bucketMs + p.bucketMs == n * p.bucketMs;
    }
    SizeReached(p, n);
  }

  /** The loop stops after the last multiple of the bucket width within the window. */
  lemma SizeReached(p: Preset, n: nat)
    requires p.bucketMs > 0 && n * p.bucketMs > p.lookbackMs && (n > 0 ==> (n - 1) * p.bucketMs <= p.lookbackMs)
    ensures n == Size(p)
  {
    if p.lookbackMs >= 0 {
      IntQuotient(p.lookbackMs, p.bucketMs, n - 1);
    } else {
      IntScaled(-1, n - 1, p.bucketMs);
    }
  }

  // ---- Counting ----

  predicate InRange(p: Preset, now: int, e: LogEvent) { StartOf(p, now) <= e.at <= now }

  function IndexOf(p: Preset, now: int, e: LogEvent): int
    requires p.bucketMs > 0
  {
    (e.at - StartOf(p, now)) / p.bucketMs
  }

  function CountOf(b: Bucket, level: string): nat {
    if level in b.counts then b.counts[level] else 0
  }

  function Counted(p: Preset, now: int, buckets: seq<Bucket>, e: LogEvent): (r: seq<Bucket>)
    requires p.bucketMs > 0
    ensures |r| == |buckets|
  {
    var i := IndexOf(p, now, e);
    if !InRange(p, now, e) || !(0 <= i < |buckets|) then buckets
    else buckets[i := buckets[i].(counts := buckets[i].counts[e.level := CountOf(buckets[i], e.level) + 1])]
  }

  function Tally(p: Preset, now: int, events: seq<LogEvent>): (r: seq<Bucket>)
    requires p.bucketMs > 0
    ensures |r| == Size(p)
  {
    if events == [] then EmptyBuckets(p, now, Size(p))
    else Counted(p, now, Tally(p, now, events[..|events| - 1]), events[|events| - 1])
  }

  /** The index is always that of a bucket, so no event in range is dropped for want of one. */
  lemma IndexInBounds(p: Preset, now: int, e: LogEvent)
    requires p.bucketMs > 0 && InRange(p, now, e)
    ensures 0 <= IndexOf(p, now, e) < Size(p)
    ensures StartOf(p, now) + IndexOf(p, now, e) * p.bucketMs <= e.at
    ensures e.at < StartOf(p, now) + (IndexOf(p, now, e) + 1) * p.bucketMs
  {
    var a, b := e.at - StartOf(p, now), p.bucketMs;
    assert a == (a / b) * b + a % b;
    assert (a / b + 1) * b == (a / b) * b + b;
    var d := p.lookbackMs / b;
    assert p.lookbackMs == d * b + p.lookbackMs % b;
    IntScaled(d, a / b, b);
    assert (d + 1) * b == d * b + b;
    IntScaled(a / b, 0, b);
  }

  method BucketEvents(events: seq<LogEvent>, p: Preset, now: int) returns (buckets: seq<Bucket>)
    requires p.bucketMs > 0
    ensures buckets == Tally(p, now, events)
  {
    buckets := BuildBuckets(p, now);
    var start := StartOf(p, now);
    for n := 0 to |events|
      invariant buckets == Tally(p, now, events[..n])
    {
      var e := events[n];
      assert events[..n + 1][..n] == events[..n];
      if start <= e.at <= now {
        IndexInBounds(p, now, e);
        var i := (e.at - start) / p.bucketMs;
        var bucket := buckets[i];
        var before := if e.level in bucket.counts then bucket.counts[e.level] else 0;
        buckets := buckets[i := bucket.(counts := bucket.counts[e.level := before + 1])];
      }
    }
    assert events[..|events|] == events;
  }

  // ---- What the buckets mean ----

  /** The events of a level within the window and within [low, high). */
  function Hits(p: Preset, now: int, events: seq<LogEvent>, low: int, high: int, level: string): nat {
    if events == [] then 0
    else
      var e := events[|events| - 1];
      Hits(p, now, events[..|events| - 1], low, high, level)
      + if now - p.lookbackMs <= e.at <= now && low <= e.at < high && e.level == level then 1 else 0
  }

  lemma {:induction false} EmptyAt(p: Preset, now: int, n: nat, i: nat)
    requires i < n
    ensures EmptyBuckets(p, now, n)[i] == Bucket(StartOf(p, now) + i * p.bucketMs, map[])
  {
    if i < n - 1 { EmptyAt(p, now, n - 1, i); }
  }

  /** An event in range falls into exactly one bucket interval. */
  lemma OneInterval(p: Preset, now: int, e: LogEvent, i: nat)
    requires p.bucketMs > 0 && InRange(p, now, e) && i < Size(p)
    ensures StartOf(p, now) + i * p.bucketMs <= e.at < StartOf(p, now) + (i + 1) * p.bucketMs <==>
              i == IndexOf(p, now, e)
  {
    IndexInBounds(p, now, e);
    if StartOf(p, now) + i * p.bucketMs <= e.at < StartOf(p, now) + (i + 1) * p.bucketMs {
      IntQuotient(e.at - StartOf(p, now), p.bucketMs, i);
    }
  }

  /** Every bucket starts where it should and counts, per level, exactly the events of its interval. */
  lemma {:induction false} BucketCounts(p: Preset, now: int, events: seq<LogEvent>, i: nat, level: string)
    requires p.bucketMs > 0 && i < Size(p)
    ensures var b := Tally(p, now, events)[i];
            && b.ts == now - p.lookbackMs + i * p.bucketMs
            && CountOf(b, level) == Hits(p, now, events, b.ts, b.ts + p.bucketMs, level)
  {
    if events == [] {
      EmptyAt(p, now, Size(p), i);
    } else {
      var e := events[|events| - 1];
      BucketCounts(p, now, events[..|events| - 1], i, level);
      assert (i + 1) * p.bucketMs == i * p.bucketMs + p.bucketMs;
      if InRange(p, now, e) {
        IndexInBounds(p, now, e);
        OneInterval(p, now, e, i);
      }
    }
  }

  // ---- Conservation ----

  ghost function Sum(counts: map<string, nat>): nat
    decreases |counts|
  {
    if forall k :: k !in counts then 0
    else var k :| k in counts; counts[k] + Sum(counts - {k})
  }

  lemma {:induction false} SumAny(counts: map<string, nat>, k: string)
    requires k in counts
    ensures Sum(counts) == counts[k] + Sum(counts - {k})
    decreases |counts|
  {
    var first :| first in counts && Sum(counts) == counts[first] + Sum(counts - {first});
    if first != k {
      SumAny(counts - {first}, k);
      SumAny(counts - {k}, first);
      assert counts - {first} - {k} == counts - {k} - {first};
    }
  }

  lemma SumBumped(b: Bucket, level: string)
    ensures Sum(b.counts[level := CountOf(b, level) + 1]) == Sum(b.counts) + 1
  {
    var m := b.counts[level := CountOf(b, level) + 1];
    SumAny(m, level);
    if level in b.counts {
      SumAny(b.counts, level);
      assert m - {level} == b.counts - {level};
    } else {
      assert m - {level} == b.counts;
    }
  }

  ghost function Total(buckets: seq<Bucket>): nat {
    if buckets == [] then 0 else Sum(buckets[0].counts) + Total(buckets[1..])
  }

  lemma {:induction false} TotalUpdate(buckets: seq<Bucket>, i: nat, b: Bucket)
    requires i < |buckets|
    ensures Total(buckets[i := b]) + Sum(buckets[i].counts) == Total(buckets) + Sum(b.counts)
  {
    if i == 0 {
      assert buckets[i := b][1..] == buckets[1..];
    } else {
      TotalUpdate(buckets[1..], i - 1, b);
      assert buckets[i := b][1..] == buckets[1..][i - 1 := b];
    }
  }

  function CountInRange(p: Preset, now: int, events: seq<LogEvent>): nat {
    if events == [] then 0
    else
      CountInRange(p, now, events[..|events| - 1])
      + if now - p.lookbackMs <= events[|events| - 1].at <= now then 1 else 0
  }

  lemma {:induction false} EmptyTotal(p: Preset, now: int, n: nat)
    ensures Total(EmptyBuckets(p, now, n)) == 0
  {
    if n > 0 {
      EmptyTotal(p, now, n - 1);
      TotalSnoc(EmptyBuckets(p, now, n - 1), EmptyBuckets(p, now, n)[n - 1]);
    }
  }

  lemma {:induction false} TotalSnoc(buckets: seq<Bucket>, b: Bucket)
    ensures Total(buckets + [b]) == Total(buckets) + Sum(b.counts)
  {
    if buckets == [] {
      assert ([] + [b])[1..] == [];
    } else {
      TotalSnoc(buckets[1..], b);
      assert (buckets + [b])[1..] == buckets[1..] + [b];
    }
  }

  /** Over all buckets and levels the counts add up to the events in range: none lost, none counted twice. */
  lemma {:induction false} Conservation(p: Preset, now: int, events: seq<LogEvent>)
    requires p.bucketMs > 0
    ensures Total(Tally(p, now, events)) == CountInRange(p, now, events)
  {
    if events == [] {
      EmptyTotal(p, now, Size(p));
    } else {
      var front, e := events[..|events| - 1], events[|events| - 1];
      Conservation(p, now, front);
      if InRange(p, now, e) {
        IndexInBounds(p, now, e);
        var buckets, i := Tally(p, now, front), IndexOf(p, now, e);
        SumBumped(buckets[i], e.level);
        TotalUpdate(buckets, i, buckets[i].(counts := buckets[i].counts[e.level := CountOf(buckets[i], e.level) + 1]));
      }
    }
  }
}
