/**
 * ServiceV2: the service rebuilt on StrategyAggregator. Its settlement-type,
 * district, custom and multiple-strategy entry points hand their strategy to
 * Aggregator.Aggregate or Aggregator.AggregateMultiple unchanged; the longitude
 * entry points fix the bucket count.
 */
module ServiceV2 {
  import opened Cities
  import opened Strategies
  import opened Longitude
  import opened Aggregator

  /** GetLongitudePopulationData: always 100 buckets. */
  method GetLongitudePopulationData(cities: seq<City>) returns (buckets: seq<GraphData<real>>)
    ensures |cities| == 0 ==> buckets == []
    ensures |cities| > 0 ==> buckets == Buckets(cities, 100) && |buckets| == 100
  {
    var r := Aggregate(LongitudeBuckets(NewLongitudeAggregationStrategy(100)), cities);
    buckets := r.buckets;
  }

  /** GetLongitudePopulationDataWithBuckets: the given count, or 100 when it is not positive. */
  method GetLongitudePopulationDataWithBuckets(cities: seq<City>, bucketCount: int) returns (buckets: seq<GraphData<real>>)
    ensures |cities| == 0 ==> buckets == []
    ensures |cities| > 0 ==> buckets == Buckets(cities, NewLongitudeAggregationStrategy(bucketCount))
    ensures |cities| > 0 ==> |buckets| == if bucketCount > 0 then bucketCount else 100
  {
    var r := Aggregate(LongitudeBuckets(NewLongitudeAggregationStrategy(bucketCount)), cities);
    buckets := r.buckets;
  }
}
