/**
 * CustomAggregationStrategy: keeps the records a caller-supplied predicate
 * accepts, in their original order.
 */
module CustomStrategy {
  import opened Cities

  /** The strategy's name. */
  const CustomName := "custom_aggregation"

  /** The records that `keep` accepts, in input order. */
  function Filter(cities: seq<City>, keep: City -> bool): seq<City>
  {
    if |cities| == 0 then []
    else
      var rest := Filter(cities[..|cities| - 1], keep);
      if keep(cities[|cities| - 1]) then rest + [cities[|cities| - 1]] else rest
  }

  /** `idx` picks the elements of `a` out of `b` at strictly increasing positions. */
  ghost predicate Embedding<T>(a: seq<T>, b: seq<T>, idx: seq<nat>)
  {
    && |idx| == |a|
    && (forall i :: 0 <= i < |idx| ==> idx[i] < |b| && a[i] == b[idx[i]])
    && (forall i, j :: 0 <= i < j < |idx| ==> idx[i] < idx[j])
  }

  /** `a` is a subsequence of `b`. */
  ghost predicate Subsequence<T>(a: seq<T>, b: seq<T>)
  {
    exists idx :: Embedding(a, b, idx)
  }

  /** Every record kept is accepted by the predicate. */
  lemma {:induction false} FilterAccepted(cities: seq<City>, keep: City -> bool)
    ensures forall k :: 0 <= k < |Filter(cities, keep)| ==> keep(Filter(cities, keep)[k])
  {
    if |cities| > 0 {
      FilterAccepted(cities[..|cities| - 1], keep);
    }
  }

  /** A record is kept exactly when it is an input record the predicate accepts. */
  lemma {:induction false} FilterMembership(cities: seq<City>, keep: City -> bool, c: City)
    ensures c in Filter(cities, keep) <==> c in cities && keep(c)
  {
    if |cities| > 0 {
      var init := cities[..|cities| - 1];
      assert cities == init + [cities[|cities| - 1]];
      FilterMembership(init, keep, c);
    }
  }

  /** The positions in the input of the records kept, in increasing order. */
  lemma {:induction false} FilterEmbedding(cities: seq<City>, keep: City -> bool) returns (idx: seq<nat>)
    ensures Embedding(Filter(cities, keep), cities, idx)
  {
    if |cities| == 0 {
      idx := [];
    } else {
      var init := cities[..|cities| - 1];
      var inner := FilterEmbedding(init, keep);
      if keep(cities[|cities| - 1]) {
        idx := inner + [|cities| - 1];
      } else {
        idx := inner;
      }
    }
  }

  /** The output is a subsequence of the input: the relative order is kept. */
  lemma FilterIsSubsequence(cities: seq<City>, keep: City -> bool)
    ensures Subsequence(Filter(cities, keep), cities)
  {
    var idx := FilterEmbedding(cities, keep);
  }

  /** The output is never longer than the input. */
  lemma {:induction false} FilterNotLonger(cities: seq<City>, keep: City -> bool)
    ensures |Filter(cities, keep)| <= |cities|
  {
    if |cities| > 0 {
      FilterNotLonger(cities[..|cities| - 1], keep);
    }
  }

  /** Filtering a second time with the same predicate changes nothing. */
  lemma {:induction false} FilterIdempotent(cities: seq<City>, keep: City -> bool)
    ensures Filter(Filter(cities, keep), keep) == Filter(cities, keep)
  {
    if |cities| > 0 {
      var init := cities[..|cities| - 1];
      var last := cities[|cities| - 1];
      FilterIdempotent(init, keep);
      if keep(last) {
        var r := Filter(init, keep) + [last];
        assert r[..|r| - 1] == Filter(init, keep);
      }
    }
  }

  /** CustomAggregationStrategy.Aggregate: the loop that appends each accepted record. */
  method CustomAggregate(cities: seq<City>, keep: City -> bool) returns (filtered: seq<City>)
    ensures filtered == Filter(cities, keep)
  {
    filtered := [];
    for i := 0 to |cities|
      invariant filtered == Filter(cities[..i], keep)
    {
      var city := cities[i];
      if keep(city) {
        filtered := filtered + [city];
      }
      assert cities[..i + 1][..i] == cities[..i];
    }
    assert cities[..|cities|] == cities;
  }
}
