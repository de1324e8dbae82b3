/**
 * LongitudeAggregationStrategy: the longitude range of the records is cut into
 * bucketCount equal buckets, and each bucket carries the total population of
 * the records whose longitude lies in [start, start + step).
 *
 * Longitudes are exact reals here; the float64 rounding of the bucket bounds
 * is not modelled.
 */
module Longitude {
  import opened Cities
  import opened Sorting
  import opened Strategies

  /** The bucket count used when none is given. */
  const DefaultBucketCount := 100

  /** NewLongitudeAggregationStrategy: a non-positive count falls back to the default. */
  function NewLongitudeAggregationStrategy(bucketCount: int): (r: int)
    ensures r > 0
    ensures bucketCount > 0 ==> r == bucketCount
    ensures bucketCount <= 0 ==> r == DefaultBucketCount
  {
    if bucketCount <= 0 then DefaultBucketCount else bucketCount
  }

  /** The smallest longitude, folding left to right as the Go loop does. */
  function MinLongitude(cities: seq<City>): real
    requires |cities| > 0
  {
    if |cities| == 1 then cities[0].longitude
    else
      var m := MinLongitude(cities[..|cities| - 1]);
      if cities[|cities| - 1].longitude < m then cities[|cities| - 1].longitude else m
  }

  /** The largest longitude. */
  function MaxLongitude(cities: seq<City>): real
    requires |cities| > 0
  {
    if |cities| == 1 then cities[0].longitude
    else
      var m := MaxLongitude(cities[..|cities| - 1]);
      if cities[|cities| - 1].longitude > m then cities[|cities| - 1].longitude else m
  }

  /** MinLongitude is a lower bound of the longitudes and one of them. */
  lemma {:induction false} MinLongitudeIsLeast(cities: seq<City>)
    requires |cities| > 0
    ensures forall k :: 0 <= k < |cities| ==> MinLongitude(cities) <= cities[k].longitude
    ensures exists k :: 0 <= k < |cities| && cities[k].longitude == MinLongitude(cities)
  {
    if |cities| > 1 {
      var init := cities[..|cities| - 1];
      MinLongitudeIsLeast(init);
      var j :| 0 <= j < |init| && init[j].longitude == MinLongitude(init);
      assert cities[j] == init[j];
      if cities[|cities| - 1].longitude < MinLongitude(init) {
        assert cities[|cities| - 1].longitude == MinLongitude(cities);
      } else {
        assert cities[j].longitude == MinLongitude(cities);
      }
      forall k | 0 <= k < |cities| ensures MinLongitude(cities) <= cities[k].longitude {
        if k < |init| {
          assert cities[k] == init[k];
        }
      }
    } else {
      assert cities[0].longitude == MinLongitude(cities);
    }
  }

  /** MaxLongitude is an upper bound of the longitudes and one of them. */
  lemma {:induction false} MaxLongitudeIsGreatest(cities: seq<City>)
    requires |cities| > 0
    ensures forall k :: 0 <= k < |cities| ==> cities[k].longitude <= MaxLongitude(cities)
    ensures exists k :: 0 <= k < |cities| && cities[k].longitude == MaxLongitude(cities)
  {
    if |cities| > 1 {
      var init := cities[..|cities| - 1];
      MaxLongitudeIsGreatest(init);
      var j :| 0 <= j < |init| && init[j].longitude == MaxLongitude(init);
      assert cities[j] == init[j];
      if cities[|cities| - 1].longitude > MaxLongitude(init) {
        assert cities[|cities| - 1].longitude == MaxLongitude(cities);
      } else {
        assert cities[j].longitude == MaxLongitude(cities);
      }
      forall k | 0 <= k < |cities| ensures cities[k].longitude <= MaxLongitude(cities) {
        if k < |init| {
          assert cities[k] == init[k];
        }
      }
    } else {
      assert cities[0].longitude == MaxLongitude(cities);
    }
  }

  /** The total population of the records with lo <= longitude < hi. */
  function BucketSum(cities: seq<City>, lo: real, hi: real): int
  {
    if |cities| == 0 then 0
    else
      var c := cities[|cities| - 1];
      BucketSum(cities[..|cities| - 1], lo, hi) + (if c.longitude >= lo && c.longitude < hi then c.population else 0)
  }

  /** A bucket that no longitude falls into has total zero. */
  lemma {:induction false} EmptyBucketSumsZero(cities: seq<City>, lo: real, hi: real)
    requires forall k :: 0 <= k < |cities| ==> !(lo <= cities[k].longitude < hi)
    ensures BucketSum(cities, lo, hi) == 0
  {
    if |cities| > 0 {
      var init := cities[..|cities| - 1];
      assert forall k :: 0 <= k < |init| ==> init[k] == cities[k];
      EmptyBucketSumsZero(init, lo, hi);
    }
  }

  /** The width of one bucket. */
  function Step(cities: seq<City>, bucketCount: int): real
    requires |cities| > 0 && bucketCount > 0
  {
    (MaxLongitude(cities) - MinLongitude(cities)) / bucketCount as real
  }

  /** Bucket i: its start, and the total population from its start up to start + step. */
  function Bucket(cities: seq<City>, lo: real, step: real, i: nat): GraphData<real>
  {
    var start := lo + i as real * step;
    GraphData(start, BucketSum(cities, start, start + step))
  }

  /** The buckets in the order the Go loop appends them. */
  function Buckets(cities: seq<City>, bucketCount: int): (r: seq<GraphData<real>>)
    requires |cities| > 0
    ensures |r| == if bucketCount > 0 then bucketCount else 0
  {
    if bucketCount <= 0 then []
    else
      var lo := MinLongitude(cities);
      var step := Step(cities, bucketCount);
      seq(bucketCount, i requires 0 <= i < bucketCount => Bucket(cities, lo, step, i))
  }

  /** Non-decreasing bucket start. */
  predicate AscendingX(points: seq<GraphData<real>>)
  {
    forall i, j :: 0 <= i < j < |points| ==> points[i].x <= points[j].x
  }

  /** With a positive width, the bucket starts strictly increase. */
  lemma BucketsIncreasing(cities: seq<City>, bucketCount: int)
    requires |cities| > 0 && bucketCount > 0 && Step(cities, bucketCount) > 0.0
    ensures var b := Buckets(cities, bucketCount);
            forall i, j :: 0 <= i < j < |b| ==> b[i].x < b[j].x
  {
    var b := Buckets(cities, bucketCount);
    forall i, j | 0 <= i < j < |b| ensures b[i].x < b[j].x {
      BucketStartsOrdered(cities, bucketCount, i, j);
    }
  }

  /** Bucket i of the list is the bucket starting i widths above the smallest longitude. */
  lemma BucketAt(cities: seq<City>, bucketCount: int, i: nat)
    requires |cities| > 0 && i < bucketCount
    ensures Buckets(cities, bucketCount)[i] == Bucket(cities, MinLongitude(cities), Step(cities, bucketCount), i)
  {
  }

  lemma BucketStartsOrdered(cities: seq<City>, bucketCount: int, i: nat, j: nat)
    requires |cities| > 0 && i < j < bucketCount && Step(cities, bucketCount) > 0.0
    ensures Buckets(cities, bucketCount)[i].x < Buckets(cities, bucketCount)[j].x
  {
    var lo := MinLongitude(cities);
    var step := Step(cities, bucketCount);
    BucketAt(cities, bucketCount, i);
    BucketAt(cities, bucketCount, j);
    BucketStart(cities, lo, step, i);
    BucketStart(cities, lo, step, j);
    StartsOrdered(Buckets(cities, bucketCount), lo, step, i, j);
  }

  lemma BucketStart(cities: seq<City>, lo: real, step: real, i: nat)
    ensures Bucket(cities, lo, step, i).x == lo + i as real * step
  {
  }

  /** Points starting at lo and spaced step apart are in increasing order. */
  lemma StartsOrdered(b: seq<GraphData<real>>, lo: real, step: real, i: nat, j: nat)
    requires i < j < |b| && step > 0.0
    requires b[i].x == lo + i as real * step && b[j].x == lo + j as real * step
    ensures b[i].x < b[j].x
  {
    ScaleStrict(i as real, j as real, step);
  }

  /** With zero width, every bucket is empty and starts at the one longitude. */
  lemma BucketsEmpty(cities: seq<City>, bucketCount: int)
    requires |cities| > 0 && bucketCount > 0 && Step(cities, bucketCount) == 0.0
    ensures var b := Buckets(cities, bucketCount);
            forall i :: 0 <= i < |b| ==> b[i] == GraphData(MinLongitude(cities), 0)
  {
    var b := Buckets(cities, bucketCount);
    var lo := MinLongitude(cities);
    EmptyBucketSumsZero(cities, lo, lo);
    forall i | 0 <= i < |b| ensures b[i] == GraphData(lo, 0) {
      assert b[i] == Bucket(cities, lo, 0.0, i);
    }
  }

  /** The buckets come by increasing start when the longitudes differ, and are all the
      same empty bucket when they do not. */
  lemma BucketsShape(cities: seq<City>, bucketCount: int)
    requires |cities| > 0
    ensures var b := Buckets(cities, bucketCount);
            || (forall i, j :: 0 <= i < j < |b| ==> b[i].x < b[j].x)
            || (forall i :: 0 <= i < |b| ==> b[i] == GraphData(MinLongitude(cities), 0))
  {
    if bucketCount > 0 {
      StepSign(cities, bucketCount);
      if Step(cities, bucketCount) == 0.0 {
        BucketsEmpty(cities, bucketCount);
      } else {
        BucketsIncreasing(cities, bucketCount);
      }
    }
  }

  /** Multiplying by a positive factor keeps a strict order. */
  lemma ScaleStrict(i: real, j: real, step: real)
    requires i < j && step > 0.0
    ensures i * step < j * step
  {
  }

  /** Multiplying by a non-negative factor keeps a weak order. */
  lemma ScaleWeak(i: real, j: real, step: real)
    requires i <= j && step >= 0.0
    ensures i * step <= j * step
  {
  }

  /** Dividing by a positive count and multiplying back. */
  lemma DivideMultiply(d: real, n: real)
    requires n > 0.0
    ensures (d / n) * n == d
  {
  }

  /** The last elements of a strictly ascending sequence and of an ascending permutation
      of it coincide. */
  lemma LastOfSorted(a: seq<GraphData<real>>, b: seq<GraphData<real>>)
    requires forall i, j :: 0 <= i < j < |a| ==> a[i].x < a[j].x
    requires AscendingX(b)
    requires multiset(a) == multiset(b) && |a| > 0
    ensures |b| == |a| && a[|a| - 1] == b[|b| - 1]
  {
    assert |b| == |multiset(b)| == |multiset(a)| == |a|;
    var x := a[|a| - 1];
    var y := b[|b| - 1];
    assert y in multiset(a);
    var q :| 0 <= q < |a| && a[q] == y;
    assert x in multiset(b);
    var p :| 0 <= p < |b| && b[p] == x;
    assert x.x <= y.x;
  }

  /** Two permutations of each other with the same last element stay permutations of
      each other without it. */
  lemma DropLast<T>(a: seq<T>, b: seq<T>)
    requires |a| > 0 && |b| > 0 && a[|a| - 1] == b[|b| - 1]
    requires multiset(a) == multiset(b)
    ensures multiset(a[..|a| - 1]) == multiset(b[..|b| - 1])
    ensures a == a[..|a| - 1] + [a[|a| - 1]] && b == b[..|b| - 1] + [b[|b| - 1]]
  {
    SplitLast(a);
    SplitLast(b);
  }

  /** A non-empty sequence is its front followed by its last element. */
  lemma SplitLast<T>(a: seq<T>)
    requires |a| > 0
    ensures a == a[..|a| - 1] + [a[|a| - 1]]
    ensures multiset(a[..|a| - 1]) == multiset(a) - multiset{a[|a| - 1]}
  {
    assert a == a[..|a| - 1] + [a[|a| - 1]];
  }

  /** A sorted permutation of a strictly ascending sequence is that sequence. */
  lemma {:induction false} StrictlyAscendingUnique(a: seq<GraphData<real>>, b: seq<GraphData<real>>)
    requires forall i, j :: 0 <= i < j < |a| ==> a[i].x < a[j].x
    requires AscendingX(b)
    requires multiset(a) == multiset(b)
    ensures a == b
  {
    if |a| > 0 {
      LastOfSorted(a, b);
      DropLast(a, b);
      StrictlyAscendingUnique(a[..|a| - 1], b[..|b| - 1]);
    }
  }

  /** A permutation of a sequence of copies of one value is that sequence. */
  lemma ConstantUnique(a: seq<GraphData<real>>, b: seq<GraphData<real>>, v: GraphData<real>)
    requires forall i :: 0 <= i < |a| ==> a[i] == v
    requires multiset(a) == multiset(b)
    ensures a == b
  {
    assert |b| == |multiset(b)| == |multiset(a)| == |a|;
    forall i | 0 <= i < |b| ensures b[i] == v {
      assert b[i] in multiset(a);
    }
  }

  /** The width of the buckets when all longitudes are the same or not. */
  lemma StepSign(cities: seq<City>, bucketCount: int)
    requires |cities| > 0 && bucketCount > 0
    ensures Step(cities, bucketCount) >= 0.0
    ensures Step(cities, bucketCount) == 0.0 <==> MaxLongitude(cities) == MinLongitude(cities)
  {
    MinLongitudeIsLeast(cities);
    MaxLongitudeIsGreatest(cities);
    var k :| 0 <= k < |cities| && cities[k].longitude == MinLongitude(cities);
    QuotientSign(MaxLongitude(cities) - MinLongitude(cities), bucketCount as real);
  }

  /** A non-negative quotient by a positive count, zero exactly when the dividend is. */
  lemma QuotientSign(d: real, n: real)
    requires d >= 0.0 && n > 0.0
    ensures d / n >= 0.0
    ensures d / n == 0.0 <==> d == 0.0
  {
    DivideMultiply(d, n);
    var q := d / n;
    if q < 0.0 { ScaleStrict(q, 0.0, n); }
    if q > 0.0 { ScaleStrict(0.0, q, n); }
  }

  /** Every bucket ends at most at the largest longitude, so the record with the largest
      longitude lies in no bucket when the longitudes differ, and no record lies in any
      bucket when they do not. */
  lemma LargestLongitudeInNoBucket(cities: seq<City>, bucketCount: int, i: nat)
    requires |cities| > 0 && bucketCount > 0 && i < bucketCount
    ensures var lo := MinLongitude(cities);
            var step := Step(cities, bucketCount);
            var start := lo + i as real * step;
            !(start <= MaxLongitude(cities) < start + step)
  {
    var lo := MinLongitude(cities);
    var step := Step(cities, bucketCount);
    StepSign(cities, bucketCount);
    DivideMultiply(MaxLongitude(cities) - lo, bucketCount as real);
    EndsBelowTop(lo, MaxLongitude(cities), bucketCount as real, step, i);
  }

  /** With count buckets of width step filling [lo, top], bucket i (i < count) ends at
      most at top, so top is not below its end. */
  lemma EndsBelowTop(lo: real, top: real, count: real, step: real, i: nat)
    requires step >= 0.0 && step * count == top - lo && (i + 1) as real <= count
    ensures var start := lo + i as real * step;
            !(start <= top < start + step)
  {
    ScaleWeak((i + 1) as real, count, step);
    assert (i + 1) as real * step == i as real * step + step;
  }

  /** The min/max loop: it starts from the first record and reads every record. */
  method LongitudeRange(cities: seq<City>) returns (minLong: real, maxLong: real)
    requires |cities| > 0
    ensures minLong == MinLongitude(cities) && maxLong == MaxLongitude(cities)
  {
    minLong := cities[0].longitude;
    maxLong := cities[0].longitude;
    for i := 0 to |cities|
      invariant i == 0 ==> minLong == cities[0].longitude && maxLong == cities[0].longitude
      invariant i > 0 ==> minLong == MinLongitude(cities[..i]) && maxLong == MaxLongitude(cities[..i])
    {
      var c := cities[i];
      if c.longitude < minLong {
        minLong := c.longitude;
      }
      if c.longitude > maxLong {
        maxLong := c.longitude;
      }
      assert cities[..i + 1][..i] == cities[..i];
    }
    assert cities[..|cities|] == cities;
  }

  /** The inner loop over the records for one bucket. */
  method BucketTotal(cities: seq<City>, bucketStart: real, bucketEnd: real) returns (sum: int)
    ensures sum == BucketSum(cities, bucketStart, bucketEnd)
  {
    sum := 0;
    for i := 0 to |cities|
      invariant sum == BucketSum(cities[..i], bucketStart, bucketEnd)
    {
      var d := cities[i];
      if d.longitude >= bucketStart && d.longitude < bucketEnd {
        sum := sum + d.population;
      }
      assert cities[..i + 1][..i] == cities[..i];
    }
    assert cities[..|cities|] == cities;
  }

  /** The sort by bucket start ascending leaves the buckets where the loop put them. */
  method SortByBucketStart(cities: seq<City>, bucketCount: int, points: seq<GraphData<real>>)
    returns (sorted: seq<GraphData<real>>)
    requires |cities| > 0 && points == Buckets(cities, bucketCount)
    ensures sorted == Buckets(cities, bucketCount)
  {
    var negX := (p: GraphData<real>) => -p.x;
    sorted := SortDescending(points, negX);
    assert AscendingX(sorted) by {
      forall i, j | 0 <= i < j < |sorted| ensures sorted[i].x <= sorted[j].x {
        assert negX(sorted[i]) >= negX(sorted[j]);
      }
    }
    BucketsShape(cities, bucketCount);
    if forall i, j :: 0 <= i < j < |points| ==> points[i].x < points[j].x {
      StrictlyAscendingUnique(points, sorted);
    } else {
      ConstantUnique(points, sorted, GraphData(MinLongitude(cities), 0));
    }
  }

  /** LongitudeAggregationStrategy.Aggregate. */
  method LongitudeAggregate(cities: seq<City>, bucketCount: int) returns (result: seq<GraphData<real>>)
    ensures |cities| == 0 ==> result == []
    ensures |cities| > 0 ==> result == Buckets(cities, bucketCount)
    ensures |result| == if |cities| > 0 && bucketCount > 0 then bucketCount else 0
  {
    if |cities| == 0 {
      return [];
    }
    var minLong, maxLong := LongitudeRange(cities);
    if bucketCount <= 0 {
      return [];
    }
    var step := (maxLong - minLong) / bucketCount as real;
    assert step == Step(cities, bucketCount);
    result := FillBuckets(cities, minLong, step, bucketCount);
    forall k | 0 <= k < bucketCount ensures result[k] == Buckets(cities, bucketCount)[k] {
      BucketAt(cities, bucketCount, k);
    }
    assert result == Buckets(cities, bucketCount);
    result := SortByBucketStart(cities, bucketCount, result);
  }

  /** The bucket loop: bucket i starts i widths above lo and sums the records up to its end. */
  method FillBuckets(cities: seq<City>, lo: real, step: real, bucketCount: nat) returns (result: seq<GraphData<real>>)
    ensures |result| == bucketCount
    ensures forall k :: 0 <= k < bucketCount ==> result[k] == Bucket(cities, lo, step, k)
  {
    result := [];
    for i := 0 to bucketCount
      invariant |result| == i
      invariant forall k :: 0 <= k < i ==> result[k] == Bucket(cities, lo, step, k)
    {
      var bucketStart := lo + i as real * step;
      var bucketEnd := bucketStart + step;
      var sum := BucketTotal(cities, bucketStart, bucketEnd);
      result := result + [GraphData(bucketStart, sum)];
    }
  }
}
