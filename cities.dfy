/**
 * City records and the per-group quantities the aggregations compute, as
 * reference definitions over a sequence of records.
 *
 * Every quantity is defined by recursion on the last record, so that the
 * value for cities[..i + 1] follows from the value for cities[..i]; this is
 * the order in which the aggregation loops read the records.
 */
module Cities {

  /** A city record (CityDTO). Children is an integer count here and the
      coordinates are exact reals. */
  datatype City = City(
    id: nat,
    name: string,
    settlementType: string,
    district: string,
    population: int,
    children: int,
    latitude: real,
    longitude: real)

  /** The settlement types that occur among the records. */
  function TypesOf(cities: seq<City>): set<string>
  {
    set c | c in cities :: c.settlementType
  }

  /** The districts that occur among the records. */
  function DistrictsOf(cities: seq<City>): set<string>
  {
    set c | c in cities :: c.district
  }

  /** The number of records of settlement type t. */
  function CountOf(cities: seq<City>, t: string): nat
  {
    if |cities| == 0 then 0
    else CountOf(cities[..|cities| - 1], t) + (if cities[|cities| - 1].settlementType == t then 1 else 0)
  }

  /** The total population of the records of settlement type t. */
  function PopulationSum(cities: seq<City>, t: string): int
  {
    if |cities| == 0 then 0
    else PopulationSum(cities[..|cities| - 1], t)
         + (if cities[|cities| - 1].settlementType == t then cities[|cities| - 1].population else 0)
  }

  /** The total number of children of the records of settlement type t. */
  function ChildrenSum(cities: seq<City>, t: string): int
  {
    if |cities| == 0 then 0
    else ChildrenSum(cities[..|cities| - 1], t)
         + (if cities[|cities| - 1].settlementType == t then cities[|cities| - 1].children else 0)
  }

  /** The smallest population among the records of settlement type t. */
  function MinPopulation(cities: seq<City>, t: string): int
    requires t in TypesOf(cities)
  {
    var init := cities[..|cities| - 1];
    var last := cities[|cities| - 1];
    TypesOfSnoc(init, last);
    if last.settlementType != t then MinPopulation(init, t)
    else if t !in TypesOf(init) then last.population
    else if last.population < MinPopulation(init, t) then last.population
    else MinPopulation(init, t)
  }

  /** The largest population among the records of settlement type t. */
  function MaxPopulation(cities: seq<City>, t: string): int
    requires t in TypesOf(cities)
  {
    var init := cities[..|cities| - 1];
    var last := cities[|cities| - 1];
    TypesOfSnoc(init, last);
    if last.settlementType != t then MaxPopulation(init, t)
    else if t !in TypesOf(init) then last.population
    else if last.population > MaxPopulation(init, t) then last.population
    else MaxPopulation(init, t)
  }

  /** The total population of the records of district d. */
  function DistrictSum(cities: seq<City>, d: string): int
  {
    if |cities| == 0 then 0
    else DistrictSum(cities[..|cities| - 1], d)
         + (if cities[|cities| - 1].district == d then cities[|cities| - 1].population else 0)
  }

  /** The prefix up to i + 1 is the prefix up to i and element i. */
  lemma PrefixSnoc<T>(s: seq<T>, i: nat)
    requires i < |s|
    ensures s[..i + 1] == s[..i] + [s[i]]
  {
  }

  /** One more record adds its type and its district to the key sets. */
  lemma TypesOfSnoc(init: seq<City>, last: City)
    ensures TypesOf(init + [last]) == TypesOf(init) + {last.settlementType}
    ensures DistrictsOf(init + [last]) == DistrictsOf(init) + {last.district}
    ensures init + [last] != [] && (init + [last])[..|init|] == init
  {
    assert forall c :: c in init + [last] <==> c in init || c == last;
  }

  /** A type occurs exactly when some record has it. */
  lemma {:induction false} CountPositiveIffType(cities: seq<City>, t: string)
    ensures CountOf(cities, t) > 0 <==> t in TypesOf(cities)
  {
    if |cities| > 0 {
      var init := cities[..|cities| - 1];
      assert cities == init + [cities[|cities| - 1]];
      TypesOfSnoc(init, cities[|cities| - 1]);
      CountPositiveIffType(init, t);
    }
  }

  /** A type that does not occur contributes nothing. */
  lemma {:induction false} AbsentTypeSumsZero(cities: seq<City>, t: string)
    requires t !in TypesOf(cities)
    ensures CountOf(cities, t) == 0 && PopulationSum(cities, t) == 0 && ChildrenSum(cities, t) == 0
  {
    if |cities| > 0 {
      var init := cities[..|cities| - 1];
      assert cities == init + [cities[|cities| - 1]];
      TypesOfSnoc(init, cities[|cities| - 1]);
      AbsentTypeSumsZero(init, t);
    }
  }

  /** A district that does not occur contributes nothing. */
  lemma {:induction false} AbsentDistrictSumZero(cities: seq<City>, d: string)
    requires d !in DistrictsOf(cities)
    ensures DistrictSum(cities, d) == 0
  {
    if |cities| > 0 {
      var init := cities[..|cities| - 1];
      assert cities == init + [cities[|cities| - 1]];
      TypesOfSnoc(init, cities[|cities| - 1]);
      AbsentDistrictSumZero(init, d);
    }
  }

  /** MinPopulation is a lower bound of the populations of type t, and it is attained. */
  lemma {:induction false} MinPopulationIsLeast(cities: seq<City>, t: string)
    requires t in TypesOf(cities)
    ensures forall k :: 0 <= k < |cities| && cities[k].settlementType == t ==> MinPopulation(cities, t) <= cities[k].population
    ensures exists k :: 0 <= k < |cities| && cities[k].settlementType == t && cities[k].population == MinPopulation(cities, t)
  {
    var init := cities[..|cities| - 1];
    var last := cities[|cities| - 1];
    assert cities == init + [last];
    TypesOfSnoc(init, last);
    if t in TypesOf(init) {
      MinPopulationIsLeast(init, t);
      var j :| 0 <= j < |init| && init[j].settlementType == t && init[j].population == MinPopulation(init, t);
      assert cities[j] == init[j];
    }
    if last.settlementType == t && (t !in TypesOf(init) || last.population < MinPopulation(init, t)) {
      assert cities[|cities| - 1] == last;
    }
    forall k | 0 <= k < |cities| && cities[k].settlementType == t
      ensures MinPopulation(cities, t) <= cities[k].population
    {
      if k < |init| {
        assert cities[k] == init[k] && init[k] in init;
      }
    }
  }

  /** MaxPopulation is an upper bound of the populations of type t, and it is attained. */
  lemma {:induction false} MaxPopulationIsGreatest(cities: seq<City>, t: string)
    requires t in TypesOf(cities)
    ensures forall k :: 0 <= k < |cities| && cities[k].settlementType == t ==> cities[k].population <= MaxPopulation(cities, t)
    ensures exists k :: 0 <= k < |cities| && cities[k].settlementType == t && cities[k].population == MaxPopulation(cities, t)
  {
    var init := cities[..|cities| - 1];
    var last := cities[|cities| - 1];
    assert cities == init + [last];
    TypesOfSnoc(init, last);
    if t in TypesOf(init) {
      MaxPopulationIsGreatest(init, t);
      var j :| 0 <= j < |init| && init[j].settlementType == t && init[j].population == MaxPopulation(init, t);
      assert cities[j] == init[j];
    }
    if last.settlementType == t && (t !in TypesOf(init) || last.population > MaxPopulation(init, t)) {
      assert cities[|cities| - 1] == last;
    }
    forall k | 0 <= k < |cities| && cities[k].settlementType == t
      ensures cities[k].population <= MaxPopulation(cities, t)
    {
      if k < |init| {
        assert cities[k] == init[k] && init[k] in init;
      }
    }
  }

  /** Hence the minimum of a type never exceeds its maximum. */
  lemma MinAtMostMax(cities: seq<City>, t: string)
    requires t in TypesOf(cities)
    ensures MinPopulation(cities, t) <= MaxPopulation(cities, t)
  {
    MinPopulationIsLeast(cities, t);
    MaxPopulationIsGreatest(cities, t);
  }
}
