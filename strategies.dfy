/**
 * The aggregation strategies of the service package: statistics per settlement
 * type, population per district, population per longitude bucket, the custom
 * filter, and running several strategies in order.
 *
 * The repository read that every strategy starts from is the parameter
 * `cities`. Go map iteration has no fixed order; the loops that walk a map
 * pick any remaining key, so each result is characterised by a predicate
 * rather than computed by a function.
 */
module Strategies {
  import opened Cities
  import opened Sorting

  /** SettlementTypeData: the averages are the exact quotients sum / count. */
  datatype SettlementTypeData = SettlementTypeData(
    settlementType: string,
    avgPopulation: real,
    avgChildren: real,
    minPopulation: int,
    maxPopulation: int)

  /** GraphData: X is a district name or a bucket start, Y a population total. */
  datatype GraphData<X> = GraphData(x: X, y: int)

  /** The statistics row of settlement type t: the averages times the number of records of
      t give back the totals. */
  function TypeRow(cities: seq<City>, t: string): (r: SettlementTypeData)
    requires t in TypesOf(cities)
    ensures r.settlementType == t && CountOf(cities, t) > 0
    ensures r.avgPopulation * (CountOf(cities, t) as real) == PopulationSum(cities, t) as real
    ensures r.avgChildren * (CountOf(cities, t) as real) == ChildrenSum(cities, t) as real
  {
    CountPositiveIffType(cities, t);
    var n := CountOf(cities, t);
    AverageTimesCount(PopulationSum(cities, t), n);
    AverageTimesCount(ChildrenSum(cities, t), n);
    SettlementTypeData(t, PopulationSum(cities, t) as real / n as real, ChildrenSum(cities, t) as real / n as real,
                       MinPopulation(cities, t), MaxPopulation(cities, t))
  }

  /** The minimum and maximum of the row of t are the least and the greatest population
      among the records of type t. */
  lemma TypeRowBounds(cities: seq<City>, t: string)
    requires t in TypesOf(cities)
    ensures var r := TypeRow(cities, t);
            && (forall k :: 0 <= k < |cities| && cities[k].settlementType == t ==>
                  r.minPopulation <= cities[k].population <= r.maxPopulation)
            && (exists k :: 0 <= k < |cities| && cities[k].settlementType == t && cities[k].population == r.minPopulation)
            && (exists k :: 0 <= k < |cities| && cities[k].settlementType == t && cities[k].population == r.maxPopulation)
  {
    MinPopulationIsLeast(cities, t);
    MaxPopulationIsGreatest(cities, t);
  }

  /** An average times the count it was taken over gives back the total. */
  lemma AverageTimesCount(total: int, count: int)
    requires count > 0
    ensures (total as real / count as real) * (count as real) == total as real
  {
  }

  function RowTypes(rows: seq<SettlementTypeData>): set<string>
  {
    set r | r in rows :: r.settlementType
  }

  /** Every row is the statistics row of its type ... */
  ghost predicate RowsOfTypes(cities: seq<City>, rows: seq<SettlementTypeData>)
  {
    forall k :: 0 <= k < |rows| ==> rows[k].settlementType in TypesOf(cities) && rows[k] == TypeRow(cities, rows[k].settlementType)
  }

  /** ... no type has two rows ... */
  ghost predicate TypesDistinct(rows: seq<SettlementTypeData>)
  {
    forall i, j :: 0 <= i < j < |rows| ==> rows[i].settlementType != rows[j].settlementType
  }

  /** ... and the rows come by non-increasing average population. */
  ghost predicate ByAveragePopulation(rows: seq<SettlementTypeData>)
  {
    forall i, j :: 0 <= i < j < |rows| ==> rows[i].avgPopulation >= rows[j].avgPopulation
  }

  /** The result of the settlement-type aggregation: exactly one row per type that occurs. */
  ghost predicate IsSettlementTypeAggregate(cities: seq<City>, rows: seq<SettlementTypeData>)
  {
    && RowsOfTypes(cities, rows)
    && TypesDistinct(rows)
    && RowTypes(rows) == TypesOf(cities)
    && ByAveragePopulation(rows)
  }

  function PointDistricts(points: seq<GraphData<string>>): set<string>
  {
    set p | p in points :: p.x
  }

  /** The result of the district aggregation: exactly one point per district that occurs,
      carrying the district's total population, by non-increasing total. */
  ghost predicate IsDistrictAggregate(cities: seq<City>, points: seq<GraphData<string>>)
  {
    && (forall k :: 0 <= k < |points| ==> points[k].x in DistrictsOf(cities) && points[k].y == DistrictSum(cities, points[k].x))
    && (forall i, j :: 0 <= i < j < |points| ==> points[i].x != points[j].x)
    && PointDistricts(points) == DistrictsOf(cities)
    && (forall i, j :: 0 <= i < j < |points| ==> points[i].y >= points[j].y)
  }

  /** A Go map read: the zero value for a missing key. */
  function Get(m: map<string, int>, k: string): int
  {
    if k in m then m[k] else 0
  }

  /** citiesCounter after reading the records `seen`. */
  ghost predicate Counts(seen: seq<City>, counter: map<string, int>)
  {
    counter.Keys == TypesOf(seen) && forall t :: t in counter ==> counter[t] == CountOf(seen, t)
  }

  /** populationAcc after reading the records `seen`. */
  ghost predicate PopulationSums(seen: seq<City>, acc: map<string, int>)
  {
    acc.Keys == TypesOf(seen) && forall t :: t in acc ==> acc[t] == PopulationSum(seen, t)
  }

  /** childrenAcc after reading the records `seen`. */
  ghost predicate ChildrenSums(seen: seq<City>, acc: map<string, int>)
  {
    acc.Keys == TypesOf(seen) && forall t :: t in acc ==> acc[t] == ChildrenSum(seen, t)
  }

  /** minPopulation after reading the records `seen`. */
  ghost predicate Minima(seen: seq<City>, m: map<string, int>)
  {
    m.Keys == TypesOf(seen) && forall t :: t in m ==> m[t] == MinPopulation(seen, t)
  }

  /** maxPopulation after reading the records `seen`. */
  ghost predicate Maxima(seen: seq<City>, m: map<string, int>)
  {
    m.Keys == TypesOf(seen) && forall t :: t in m ==> m[t] == MaxPopulation(seen, t)
  }

  /** What the five per-type maps hold after reading the records `seen`. */
  ghost predicate Accumulated(seen: seq<City>, counter: map<string, int>, populationAcc: map<string, int>,
                              childrenAcc: map<string, int>, minPopulation: map<string, int>, maxPopulation: map<string, int>)
  {
    Counts(seen, counter) && PopulationSums(seen, populationAcc) && ChildrenSums(seen, childrenAcc)
    && Minima(seen, minPopulation) && Maxima(seen, maxPopulation)
  }

  /** The per-type quantities after one more record. */
  lemma AccumulateStep(seen: seq<City>, c: City, t: string)
    ensures TypesOf(seen + [c]) == TypesOf(seen) + {c.settlementType}
    ensures CountOf(seen + [c], t) == CountOf(seen, t) + (if c.settlementType == t then 1 else 0)
    ensures PopulationSum(seen + [c], t) == PopulationSum(seen, t) + (if c.settlementType == t then c.population else 0)
    ensures ChildrenSum(seen + [c], t) == ChildrenSum(seen, t) + (if c.settlementType == t then c.children else 0)
    ensures t in TypesOf(seen) && c.settlementType != t ==>
              MinPopulation(seen + [c], t) == MinPopulation(seen, t) && MaxPopulation(seen + [c], t) == MaxPopulation(seen, t)
    ensures t !in TypesOf(seen) && c.settlementType == t ==>
              MinPopulation(seen + [c], t) == c.population && MaxPopulation(seen + [c], t) == c.population
    ensures t in TypesOf(seen) && c.settlementType == t ==>
              && MinPopulation(seen + [c], t) == (if c.population < MinPopulation(seen, t) then c.population else MinPopulation(seen, t))
              && MaxPopulation(seen + [c], t) == (if c.population > MaxPopulation(seen, t) then c.population else MaxPopulation(seen, t))
    ensures t !in TypesOf(seen) ==> CountOf(seen, t) == 0 && PopulationSum(seen, t) == 0 && ChildrenSum(seen, t) == 0
  {
    TypesOfSnoc(seen, c);
    var s := seen + [c];
    assert s[..|s| - 1] == seen && s[|s| - 1] == c;
    if t !in TypesOf(seen) {
      AbsentTypeSumsZero(seen, t);
    }
  }

  lemma CountsStep(seen: seq<City>, c: City, counter: map<string, int>)
    requires Counts(seen, counter)
    ensures Counts(seen + [c], counter[c.settlementType := Get(counter, c.settlementType) + 1])
  {
    forall u { AccumulateStep(seen, c, u); }
  }

  lemma PopulationSumsStep(seen: seq<City>, c: City, acc: map<string, int>)
    requires PopulationSums(seen, acc)
    ensures PopulationSums(seen + [c], acc[c.settlementType := Get(acc, c.settlementType) + c.population])
  {
    forall u { AccumulateStep(seen, c, u); }
  }

  lemma ChildrenSumsStep(seen: seq<City>, c: City, acc: map<string, int>)
    requires ChildrenSums(seen, acc)
    ensures ChildrenSums(seen + [c], acc[c.settlementType := Get(acc, c.settlementType) + c.children])
  {
    forall u { AccumulateStep(seen, c, u); }
  }

  lemma MinimaStep(seen: seq<City>, c: City, m: map<string, int>, m': map<string, int>)
    requires Minima(seen, m)
    requires var t := c.settlementType;
             m' == if t in m && c.population >= m[t] then m else m[t := c.population]
    ensures Minima(seen + [c], m')
  {
    forall u { AccumulateStep(seen, c, u); }
  }

  lemma MaximaStep(seen: seq<City>, c: City, m: map<string, int>, m': map<string, int>)
    requires Maxima(seen, m)
    requires var t := c.settlementType;
             m' == if t in m && c.population <= m[t] then m else m[t := c.population]
    ensures Maxima(seen + [c], m')
  {
    forall u { AccumulateStep(seen, c, u); }
  }

  /** The invariant of the range over citiesCounter: one correct row for each key already
      visited, and none for the keys still to visit. */
  ghost predicate RowsSoFar(cities: seq<City>, rows: seq<SettlementTypeData>, keys: set<string>, all: set<string>)
  {
    && keys <= all
    && RowsOfTypes(cities, rows) && TypesDistinct(rows)
    && RowTypes(rows) + keys == all
    && forall k :: 0 <= k < |rows| ==> rows[k].settlementType !in keys
  }

  /** Visiting key t with its statistics row keeps the invariant. */
  lemma AppendRow(cities: seq<City>, rows: seq<SettlementTypeData>, keys: set<string>, all: set<string>, row: SettlementTypeData)
    requires RowsSoFar(cities, rows, keys, all)
    requires row.settlementType in keys
    requires row.settlementType in TypesOf(cities) && row == TypeRow(cities, row.settlementType)
    ensures RowsSoFar(cities, rows + [row], keys - {row.settlementType}, all)
  {
    var r := rows + [row];
    assert forall k :: 0 <= k < |rows| ==> r[k] == rows[k];
    assert forall x :: x in r <==> x in rows || x == row;
    assert RowTypes(r) == RowTypes(rows) + {row.settlementType};
  }

  /** Visiting key t: the row the range builds from the five maps is the statistics
      row of t, and appending it keeps the invariant. */
  lemma VisitType(cities: seq<City>, counter: map<string, int>, populationAcc: map<string, int>,
                  childrenAcc: map<string, int>, minPopulation: map<string, int>, maxPopulation: map<string, int>,
                  rows: seq<SettlementTypeData>, keys: set<string>, t: string)
    requires Accumulated(cities, counter, populationAcc, childrenAcc, minPopulation, maxPopulation)
    requires RowsSoFar(cities, rows, keys, counter.Keys)
    requires t in keys
    ensures t in counter && t in populationAcc && t in childrenAcc && t in minPopulation && t in maxPopulation
    ensures counter[t] > 0 && |keys - {t}| < |keys|
    ensures RowsSoFar(cities, rows + [SettlementTypeData(t, populationAcc[t] as real / counter[t] as real,
                                                         childrenAcc[t] as real / counter[t] as real,
                                                         minPopulation[t], maxPopulation[t])],
                      keys - {t}, counter.Keys)
  {
    CountPositiveIffType(cities, t);
    var row := SettlementTypeData(t, populationAcc[t] as real / counter[t] as real, childrenAcc[t] as real / counter[t] as real,
                                  minPopulation[t], maxPopulation[t]);
    assert row == TypeRow(cities, t);
    AppendRow(cities, rows, keys, counter.Keys, row);
  }

  /** Before the range no key is visited; after it, every key has its row. */
  lemma RowsSoFarEnds(cities: seq<City>, counter: map<string, int>, populationAcc: map<string, int>,
                      childrenAcc: map<string, int>, minPopulation: map<string, int>, maxPopulation: map<string, int>,
                      rows: seq<SettlementTypeData>)
    requires Accumulated(cities, counter, populationAcc, childrenAcc, minPopulation, maxPopulation)
    ensures RowsSoFar(cities, [], counter.Keys, counter.Keys)
    ensures RowsSoFar(cities, rows, {}, counter.Keys) ==>
              RowsOfTypes(cities, rows) && TypesDistinct(rows) && RowTypes(rows) == TypesOf(cities)
  {
    assert RowTypes([]) == {};
  }

  /** The range over citiesCounter: one row per key, in any order. */
  method TypeRows(cities: seq<City>, counter: map<string, int>, populationAcc: map<string, int>,
                  childrenAcc: map<string, int>, minPopulation: map<string, int>, maxPopulation: map<string, int>)
    returns (rows: seq<SettlementTypeData>)
    requires Accumulated(cities, counter, populationAcc, childrenAcc, minPopulation, maxPopulation)
    ensures RowsOfTypes(cities, rows) && TypesDistinct(rows) && RowTypes(rows) == TypesOf(cities)
  {
    rows := [];
    var keys := counter.Keys;
    RowsSoFarEnds(cities, counter, populationAcc, childrenAcc, minPopulation, maxPopulation, rows);
    while keys != {}
      invariant RowsSoFar(cities, rows, keys, counter.Keys)
      decreases |keys|
    {
      var t :| t in keys;
      VisitType(cities, counter, populationAcc, childrenAcc, minPopulation, maxPopulation, rows, keys, t);
      var count := counter[t];
      rows := rows + [SettlementTypeData(t, populationAcc[t] as real / count as real, childrenAcc[t] as real / count as real,
                                         minPopulation[t], maxPopulation[t])];
      keys := keys - {t};
    }
    RowsSoFarEnds(cities, counter, populationAcc, childrenAcc, minPopulation, maxPopulation, rows);
  }

  /** The sort by average population descending keeps the rows, one per type. */
  method SortByAveragePopulation(cities: seq<City>, rows: seq<SettlementTypeData>) returns (sorted: seq<SettlementTypeData>)
    requires RowsOfTypes(cities, rows) && TypesDistinct(rows) && RowTypes(rows) == TypesOf(cities)
    ensures IsSettlementTypeAggregate(cities, sorted)
    ensures multiset(sorted) == multiset(rows)
  {
    var avg := (r: SettlementTypeData) => r.avgPopulation;
    var ty := (r: SettlementTypeData) => r.settlementType;
    sorted := SortDescending(rows, avg);
    assert DistinctKeys(rows, ty);
    PermutationKeepsKeysDistinct(rows, sorted, ty);
    assert forall r :: r in sorted <==> r in rows by {
      assert forall r :: r in sorted <==> r in multiset(sorted);
      assert forall r :: r in rows <==> r in multiset(rows);
    }
    assert RowTypes(sorted) == RowTypes(rows);
    forall k | 0 <= k < |sorted|
      ensures sorted[k].settlementType in TypesOf(cities) && sorted[k] == TypeRow(cities, sorted[k].settlementType)
    {
      assert sorted[k] in rows;
    }
  }

  /** The five maps after record i, given the maps before it. */
  lemma AccumulatedStep(seen: seq<City>, c: City,
                        counter: map<string, int>, populationAcc: map<string, int>, childrenAcc: map<string, int>,
                        minPopulation: map<string, int>, maxPopulation: map<string, int>,
                        counter': map<string, int>, populationAcc': map<string, int>, childrenAcc': map<string, int>,
                        minPopulation': map<string, int>, maxPopulation': map<string, int>)
    requires Accumulated(seen, counter, populationAcc, childrenAcc, minPopulation, maxPopulation)
    requires var t := c.settlementType;
             && counter' == counter[t := Get(counter, t) + 1]
             && populationAcc' == populationAcc[t := Get(populationAcc, t) + c.population]
             && childrenAcc' == childrenAcc[t := Get(childrenAcc, t) + c.children]
             && minPopulation' == (if t in minPopulation && c.population >= minPopulation[t] then minPopulation
                                   else minPopulation[t := c.population])
             && maxPopulation' == (if t in maxPopulation && c.population <= maxPopulation[t] then maxPopulation
                                   else maxPopulation[t := c.population])
    ensures Accumulated(seen + [c], counter', populationAcc', childrenAcc', minPopulation', maxPopulation')
  {
    CountsStep(seen, c, counter);
    PopulationSumsStep(seen, c, populationAcc);
    ChildrenSumsStep(seen, c, childrenAcc);
    MinimaStep(seen, c, minPopulation, minPopulation');
    MaximaStep(seen, c, maxPopulation, maxPopulation');
  }

  /** The loop over the records of SettlementTypeAggregationStrategy.Aggregate: a missing
      key reads as zero for the counter and the sums, and is set outright for min and max. */
  method AccumulateByType(cities: seq<City>)
    returns (counter: map<string, int>, populationAcc: map<string, int>, childrenAcc: map<string, int>,
             minPopulation: map<string, int>, maxPopulation: map<string, int>)
    ensures Accumulated(cities, counter, populationAcc, childrenAcc, minPopulation, maxPopulation)
  {
    populationAcc, childrenAcc, minPopulation, maxPopulation, counter := map[], map[], map[], map[], map[];
    for i := 0 to |cities|
      invariant Accumulated(cities[..i], counter, populationAcc, childrenAcc, minPopulation, maxPopulation)
    {
      ghost var (counter0, populationAcc0, childrenAcc0, minPopulation0, maxPopulation0) :=
        (counter, populationAcc, childrenAcc, minPopulation, maxPopulation);
      var d := cities[i];
      var t := d.settlementType;
      counter := counter[t := Get(counter, t) + 1];
      populationAcc := populationAcc[t := Get(populationAcc, t) + d.population];
      childrenAcc := childrenAcc[t := Get(childrenAcc, t) + d.children];
      if t in minPopulation {
        if d.population < minPopulation[t] {
          minPopulation := minPopulation[t := d.population];
        }
      } else {
        minPopulation := minPopulation[t := d.population];
      }
      if t in maxPopulation {
        if d.population > maxPopulation[t] {
          maxPopulation := maxPopulation[t := d.population];
        }
      } else {
        maxPopulation := maxPopulation[t := d.population];
      }
      PrefixSnoc(cities, i);
      AccumulatedStep(cities[..i], d, counter0, populationAcc0, childrenAcc0, minPopulation0, maxPopulation0,
                      counter, populationAcc, childrenAcc, minPopulation, maxPopulation);
    }
    assert cities[..|cities|] == cities;
  }

  /** SettlementTypeAggregationStrategy.Aggregate: accumulate, one row per key, sort. */
  method SettlementTypeAggregate(cities: seq<City>) returns (result: seq<SettlementTypeData>)
    ensures IsSettlementTypeAggregate(cities, result)
  {
    var counter, populationAcc, childrenAcc, minPopulation, maxPopulation := AccumulateByType(cities);
    result := TypeRows(cities, counter, populationAcc, childrenAcc, minPopulation, maxPopulation);
    result := SortByAveragePopulation(cities, result);
  }

  /** The per-district total after one more record. */
  lemma DistrictStep(seen: seq<City>, c: City, d: string)
    ensures DistrictsOf(seen + [c]) == DistrictsOf(seen) + {c.district}
    ensures DistrictSum(seen + [c], d) == DistrictSum(seen, d) + (if c.district == d then c.population else 0)
  {
    TypesOfSnoc(seen, c);
    var s := seen + [c];
    assert s[..|s| - 1] == seen && s[|s| - 1] == c;
  }

  /** populationAcc of the district aggregation after reading the records `seen`. */
  ghost predicate DistrictSums(seen: seq<City>, acc: map<string, int>)
  {
    acc.Keys == DistrictsOf(seen) && forall d :: d in acc ==> acc[d] == DistrictSum(seen, d)
  }

  lemma DistrictSumsStep(seen: seq<City>, c: City, acc: map<string, int>)
    requires DistrictSums(seen, acc)
    ensures DistrictSums(seen + [c], acc[c.district := Get(acc, c.district) + c.population])
  {
    forall d { DistrictStep(seen, c, d); }
    if c.district !in DistrictsOf(seen) {
      AbsentDistrictSumZero(seen, c.district);
    }
  }

  /** The loop over the records of DistrictAggregationStrategy.Aggregate. */
  method AccumulateByDistrict(cities: seq<City>) returns (populationAcc: map<string, int>)
    ensures DistrictSums(cities, populationAcc)
  {
    populationAcc := map[];
    for i := 0 to |cities|
      invariant DistrictSums(cities[..i], populationAcc)
    {
      var d := cities[i];
      PrefixSnoc(cities, i);
      DistrictSumsStep(cities[..i], d, populationAcc);
      populationAcc := populationAcc[d.district := Get(populationAcc, d.district) + d.population];
    }
    assert cities[..|cities|] == cities;
  }

  /** Every point is the total of its district, and no district has two points. */
  ghost predicate PointsOfDistricts(cities: seq<City>, points: seq<GraphData<string>>)
  {
    && (forall k :: 0 <= k < |points| ==> points[k].x in DistrictsOf(cities) && points[k].y == DistrictSum(cities, points[k].x))
    && (forall i, j :: 0 <= i < j < |points| ==> points[i].x != points[j].x)
  }

  /** The invariant of the range over populationAcc. */
  ghost predicate PointsSoFar(cities: seq<City>, points: seq<GraphData<string>>, keys: set<string>, all: set<string>)
  {
    && keys <= all
    && PointsOfDistricts(cities, points)
    && PointDistricts(points) + keys == all
    && forall k :: 0 <= k < |points| ==> points[k].x !in keys
  }

  lemma AppendPoint(cities: seq<City>, points: seq<GraphData<string>>, keys: set<string>, all: set<string>, p: GraphData<string>)
    requires PointsSoFar(cities, points, keys, all)
    requires p.x in keys && p.x in DistrictsOf(cities) && p.y == DistrictSum(cities, p.x)
    ensures PointsSoFar(cities, points + [p], keys - {p.x}, all)
  {
    var r := points + [p];
    assert forall k :: 0 <= k < |points| ==> r[k] == points[k];
    assert forall x :: x in r <==> x in points || x == p;
    assert PointDistricts(r) == PointDistricts(points) + {p.x};
  }

  /** Visiting district d: its point is the district's total, and appending it keeps
      the invariant. */
  lemma VisitDistrict(cities: seq<City>, populationAcc: map<string, int>, points: seq<GraphData<string>>,
                      keys: set<string>, d: string)
    requires DistrictSums(cities, populationAcc)
    requires PointsSoFar(cities, points, keys, populationAcc.Keys)
    requires d in keys
    ensures d in populationAcc && |keys - {d}| < |keys|
    ensures PointsSoFar(cities, points + [GraphData(d, populationAcc[d])], keys - {d}, populationAcc.Keys)
  {
    AppendPoint(cities, points, keys, populationAcc.Keys, GraphData(d, populationAcc[d]));
  }

  /** Before the range no district is visited; after it, every district has its point. */
  lemma PointsSoFarEnds(cities: seq<City>, populationAcc: map<string, int>, points: seq<GraphData<string>>)
    requires DistrictSums(cities, populationAcc)
    ensures PointsSoFar(cities, [], populationAcc.Keys, populationAcc.Keys)
    ensures PointsSoFar(cities, points, {}, populationAcc.Keys) ==>
              PointsOfDistricts(cities, points) && PointDistricts(points) == DistrictsOf(cities)
  {
    assert PointDistricts([]) == {};
  }

  /** The range over populationAcc: one point per district, in any order. */
  method DistrictPoints(cities: seq<City>, populationAcc: map<string, int>) returns (points: seq<GraphData<string>>)
    requires DistrictSums(cities, populationAcc)
    ensures PointsOfDistricts(cities, points) && PointDistricts(points) == DistrictsOf(cities)
  {
    points := [];
    var keys := populationAcc.Keys;
    PointsSoFarEnds(cities, populationAcc, points);
    while keys != {}
      invariant PointsSoFar(cities, points, keys, populationAcc.Keys)
      decreases |keys|
    {
      var district :| district in keys;
      VisitDistrict(cities, populationAcc, points, keys, district);
      points := points + [GraphData(district, populationAcc[district])];
      keys := keys - {district};
    }
    PointsSoFarEnds(cities, populationAcc, points);
  }

  /** The sort by population descending keeps the points, one per district. */
  method SortByPopulation(cities: seq<City>, points: seq<GraphData<string>>) returns (sorted: seq<GraphData<string>>)
    requires PointsOfDistricts(cities, points) && PointDistricts(points) == DistrictsOf(cities)
    ensures IsDistrictAggregate(cities, sorted)
    ensures multiset(sorted) == multiset(points)
  {
    var y := (p: GraphData<string>) => p.y as real;
    var x := (p: GraphData<string>) => p.x;
    sorted := SortDescending(points, y);
    assert DistinctKeys(points, x);
    PermutationKeepsKeysDistinct(points, sorted, x);
    assert forall p :: p in sorted <==> p in points by {
      assert forall p :: p in sorted <==> p in multiset(sorted);
      assert forall p :: p in points <==> p in multiset(points);
    }
    assert PointDistricts(sorted) == PointDistricts(points);
    forall k | 0 <= k < |sorted|
      ensures sorted[k].x in DistrictsOf(cities) && sorted[k].y == DistrictSum(cities, sorted[k].x)
    {
      assert sorted[k] in points;
    }
    forall i, j | 0 <= i < j < |sorted| ensures sorted[i].y >= sorted[j].y {
      assert y(sorted[i]) >= y(sorted[j]);
    }
  }

  /** DistrictAggregationStrategy.Aggregate: accumulate, one point per district, sort. */
  method DistrictAggregate(cities: seq<City>) returns (result: seq<GraphData<string>>)
    ensures IsDistrictAggregate(cities, result)
  {
    var populationAcc := AccumulateByDistrict(cities);
    result := DistrictPoints(cities, populationAcc);
    result := SortByPopulation(cities, result);
  }

  /** Two results of the settlement-type aggregation differ at most in their order. */
  lemma SettlementTypeAggregateUnique(cities: seq<City>, r1: seq<SettlementTypeData>, r2: seq<SettlementTypeData>)
    requires IsSettlementTypeAggregate(cities, r1) && IsSettlementTypeAggregate(cities, r2)
    ensures multiset(r1) == multiset(r2)
  {
    forall x | x in r1 ensures x in r2 {
      assert x.settlementType in RowTypes(r2);
      var y :| y in r2 && y.settlementType == x.settlementType;
    }
    forall x | x in r2 ensures x in r1 {
      assert x.settlementType in RowTypes(r1);
      var y :| y in r1 && y.settlementType == x.settlementType;
    }
    SameElementsPermutation(r1, r2);
  }

  /** Two results of the district aggregation differ at most in their order. */
  lemma DistrictAggregateUnique(cities: seq<City>, r1: seq<GraphData<string>>, r2: seq<GraphData<string>>)
    requires IsDistrictAggregate(cities, r1) && IsDistrictAggregate(cities, r2)
    ensures multiset(r1) == multiset(r2)
  {
    forall x | x in r1 ensures x in r2 {
      assert x.x in PointDistricts(r2);
      var y :| y in r2 && y.x == x.x;
    }
    forall x | x in r2 ensures x in r1 {
      assert x.x in PointDistricts(r1);
      var y :| y in r1 && y.x == x.x;
    }
    SameElementsPermutation(r1, r2);
  }
}
