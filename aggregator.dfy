/**
 * The AggregationStrategy interface and StrategyAggregator: a strategy is one
 * of the four kinds of the service package, and the aggregator hands it the
 * records of the repository. The repository read is the parameter `cities`.
 */
module Aggregator {
  import opened Cities
  import opened Strategies
  import opened Longitude
  import opened CustomStrategy

  /** The four strategies; a longitude strategy carries its bucket count and a custom
      strategy its filter. */
  datatype Strategy =
    | SettlementTypes
    | Districts
    | LongitudeBuckets(bucketCount: int)
    | Custom(keep: City -> bool)

  /** What Aggregate returns; Nil is the zero value of an unfilled result slot. */
  datatype AggregateResult =
    | Nil
    | SettlementRows(rows: seq<SettlementTypeData>)
    | DistrictPoints(points: seq<GraphData<string>>)
    | LongitudePoints(buckets: seq<GraphData<real>>)
    | Filtered(kept: seq<City>)

  /** Name() of each strategy. */
  function Name(s: Strategy): string
  {
    match s
    case SettlementTypes => "settlement_type_aggregation"
    case Districts => "district_aggregation"
    case LongitudeBuckets(_) => "longitude_aggregation"
    case Custom(_) => CustomName
  }

  /** Two strategies have the same name exactly when they are of the same kind. */
  lemma NameIdentifiesKind(s: Strategy, t: Strategy)
    ensures Name(s) == Name(t) <==>
              || (s.SettlementTypes? && t.SettlementTypes?)
              || (s.Districts? && t.Districts?)
              || (s.LongitudeBuckets? && t.LongitudeBuckets?)
              || (s.Custom? && t.Custom?)
  {
    var names := ["settlement_type_aggregation", "district_aggregation", "longitude_aggregation", "custom_aggregation"];
    assert names[0][0] == 's' && names[1][0] == 'd' && names[2][0] == 'l' && names[3][0] == 'c';
  }

  /** What each strategy promises about its result on the given records. */
  ghost predicate IsAggregateOf(s: Strategy, cities: seq<City>, r: AggregateResult)
  {
    match s
    case SettlementTypes => r.SettlementRows? && IsSettlementTypeAggregate(cities, r.rows)
    case Districts => r.DistrictPoints? && IsDistrictAggregate(cities, r.points)
    case LongitudeBuckets(n) => r.LongitudePoints? && r.buckets == (if |cities| == 0 then [] else Buckets(cities, n))
    case Custom(keep) => r == Filtered(Filter(cities, keep))
  }

  /** StrategyAggregator.Aggregate: the strategy applied to the records. */
  method Aggregate(s: Strategy, cities: seq<City>) returns (r: AggregateResult)
    ensures IsAggregateOf(s, cities, r)
  {
    match s
    case SettlementTypes =>
      var rows := SettlementTypeAggregate(cities);
      r := SettlementRows(rows);
    case Districts =>
      var points := DistrictAggregate(cities);
      r := DistrictPoints(points);
    case LongitudeBuckets(n) =>
      var buckets := LongitudeAggregate(cities, n);
      r := LongitudePoints(buckets);
    case Custom(keep) =>
      var kept := CustomAggregate(cities, keep);
      r := Filtered(kept);
  }

  /** StrategyAggregator.AggregateMultiple: a result slot per strategy, filled in order. */
  method AggregateMultiple(strategies: seq<Strategy>, cities: seq<City>) returns (results: seq<AggregateResult>)
    ensures |results| == |strategies|
    ensures forall i :: 0 <= i < |strategies| ==> IsAggregateOf(strategies[i], cities, results[i])
  {
    var slots := new AggregateResult[|strategies|](_ => Nil);
    for i := 0 to |strategies|
      invariant forall k :: 0 <= k < i ==> IsAggregateOf(strategies[k], cities, slots[k])
    {
      slots[i] := Aggregate(strategies[i], cities);
    }
    results := slots[..];
  }
}
