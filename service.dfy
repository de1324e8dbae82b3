/**
 * The first Service: the same two aggregations as the strategies, written out
 * with explicit presence checks on every map before it is updated.
 */
module Service {
  import opened Cities
  import opened Strategies

  /** The loop over the records of GetAllSettelmetTypeData: each map is initialised on
      the first record of a type and updated on the later ones. */
  method AccumulateWithPresenceChecks(data: seq<City>)
    returns (citiesCounter: map<string, int>, populationAcc: map<string, int>, childrenAcc: map<string, int>,
             minPopulation: map<string, int>, maxPopulation: map<string, int>)
    ensures Accumulated(data, citiesCounter, populationAcc, childrenAcc, minPopulation, maxPopulation)
  {
    populationAcc, childrenAcc, minPopulation, maxPopulation, citiesCounter := map[], map[], map[], map[], map[];
    for i := 0 to |data|
      invariant Accumulated(data[..i], citiesCounter, populationAcc, childrenAcc, minPopulation, maxPopulation)
    {
      ghost var (counter0, populationAcc0, childrenAcc0, minPopulation0, maxPopulation0) :=
        (citiesCounter, populationAcc, childrenAcc, minPopulation, maxPopulation);
      var d := data[i];
      var t := d.settlementType;
      if t in citiesCounter {
        citiesCounter := citiesCounter[t := citiesCounter[t] + 1];
      } else {
        citiesCounter := citiesCounter[t := 1];
      }
      if t in populationAcc {
        populationAcc := populationAcc[t := populationAcc[t] + d.population];
      } else {
        populationAcc := populationAcc[t := d.population];
      }
      if t in childrenAcc {
        childrenAcc := childrenAcc[t := childrenAcc[t] + d.children];
      } else {
        childrenAcc := childrenAcc[t := d.children];
      }
      if t in minPopulation {
        if d.population < minPopulation[t] {
          minPopulation := minPopulation[t := d.population];
        }
      } else {
        minPopulation := minPopulation[t := d.population];
      }
      if t in maxPopulation {
        if d.population > maxPopulation[t] {
          maxPopulation := maxPopulation[t := d.population];
        }
      } else {
        maxPopulation := maxPopulation[t := d.population];
      }
      PrefixSnoc(data, i);
      AccumulatedStep(data[..i], d, counter0, populationAcc0, childrenAcc0, minPopulation0, maxPopulation0,
                      citiesCounter, populationAcc, childrenAcc, minPopulation, maxPopulation);
    }
    assert data[..|data|] == data;
  }

  /** GetAllSettelmetTypeData: accumulate, one row per key of citiesCounter, sort. */
  method GetAllSettlementTypeData(data: seq<City>) returns (res: seq<SettlementTypeData>)
    ensures IsSettlementTypeAggregate(data, res)
  {
    var citiesCounter, populationAcc, childrenAcc, minPopulation, maxPopulation := AccumulateWithPresenceChecks(data);
    res := TypeRows(data, citiesCounter, populationAcc, childrenAcc, minPopulation, maxPopulation);
    res := SortByAveragePopulation(data, res);
  }

  /** The loop over the records of GetDistrictPopulationData. */
  method AccumulateDistrictsWithPresenceChecks(data: seq<City>) returns (populationAcc: map<string, int>)
    ensures DistrictSums(data, populationAcc)
  {
    populationAcc := map[];
    for i := 0 to |data|
      invariant DistrictSums(data[..i], populationAcc)
    {
      ghost var populationAcc0 := populationAcc;
      var d := data[i];
      if d.district in populationAcc {
        populationAcc := populationAcc[d.district := populationAcc[d.district] + d.population];
      } else {
        populationAcc := populationAcc[d.district := d.population];
      }
      PrefixSnoc(data, i);
      DistrictSumsStep(data[..i], d, populationAcc0);
      assert populationAcc == populationAcc0[d.district := Get(populationAcc0, d.district) + d.population];
    }
    assert data[..|data|] == data;
  }

  /** GetDistrictPopulationData: accumulate, one point per district, sort. */
  method GetDistrictPopulationData(data: seq<City>) returns (res: seq<GraphData<string>>)
    ensures IsDistrictAggregate(data, res)
  {
    var populationAcc := AccumulateDistrictsWithPresenceChecks(data);
    res := DistrictPoints(data, populationAcc);
    res := SortByPopulation(data, res);
  }
}
