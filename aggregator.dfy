/** The grouped-count queries of the analysis stage.  Each joins the fact
    table `exoplanets` to one or two dimensions with inner joins, groups,
    counts and orders.  Writing the results to parquet and plotting them is
    not modelled: the tables are read back unchanged.

    Every query is split into its joined stream (one group value per joined
    row, built per fact row) and the shared `GROUP BY ... COUNT(*) ... ORDER
    BY` tail of module `Grouping`; `groups` is the order in which the engine
    emits the groups. */
module Aggregator {
  import opened Sql
  import opened Schema
  import opened Ordering
  import opened Grouping
  import opened DimensionBuilder
  import opened FactAssembler
  import Categorizer

  /** The dimension rows whose surrogate id equals `id` (NULL equals nothing). */
  function WithId<K, L>(dim: seq<DimRow<K, L>>, id: Option<int>): (rows: seq<DimRow<K, L>>)
    ensures forall r :: r in rows ==> r in dim && Some(r.id) == id
    ensures id.None? ==> rows == []
  {
    if dim == [] then []
    else (if Some(dim[0].id) == id then [dim[0]] else []) + WithId(dim[1..], id)
  }

  /** Some row of the dimension has natural key `k`. */
  ghost predicate HasKey<K, L>(dim: seq<DimRow<K, L>>, k: Option<K>)
  {
    exists i :: 0 <= i < |dim| && Some(dim[i].key) == k
  }

  /** Some row of the dimension has surrogate id `id`. */
  ghost predicate HasId<K, L>(dim: seq<DimRow<K, L>>, id: Option<int>)
  {
    exists i :: 0 <= i < |dim| && Some(dim[i].id) == id
  }

  /** No two rows of the dimension share an id. */
  ghost predicate UniqueIds<K, L>(dim: seq<DimRow<K, L>>)
  {
    forall i, j :: 0 <= i < j < |dim| ==> dim[i].id != dim[j].id
  }

  /** With unique keys an equality join on the key matches one row or none. */
  lemma {:induction false} WithKeyUnique<K, L>(dim: seq<DimRow<K, L>>, k: Option<K>)
    requires UniqueKeys(dim)
    ensures |WithKey(dim, k)| == if HasKey(dim, k) then 1 else 0
  {
    if dim != [] {
      WithKeyUnique(dim[1..], k);
      if Some(dim[0].key) == k {
        assert !HasKey(dim[1..], k) by {
          forall i | 0 <= i < |dim[1..]|
            ensures Some(dim[1..][i].key) != k
          {
            assert dim[0].key != dim[i + 1].key;
          }
        }
        assert HasKey(dim, k) by { assert Some(dim[0].key) == k; }
      } else {
        assert HasKey(dim, k) <==> HasKey(dim[1..], k) by {
          if HasKey(dim, k) {
            var i :| 0 <= i < |dim| && Some(dim[i].key) == k;
            assert Some(dim[1..][i - 1].key) == k;
          }
          if HasKey(dim[1..], k) {
            var i :| 0 <= i < |dim[1..]| && Some(dim[1..][i].key) == k;
            assert Some(dim[i + 1].key) == k;
          }
        }
      }
    }
  }

  /** With unique ids an equality join on the id matches one row or none. */
  lemma {:induction false} WithIdUnique<K, L>(dim: seq<DimRow<K, L>>, id: Option<int>)
    requires UniqueIds(dim)
    ensures |WithId(dim, id)| == if HasId(dim, id) then 1 else 0
  {
    if dim != [] {
      WithIdUnique(dim[1..], id);
      if Some(dim[0].id) == id {
        assert !HasId(dim[1..], id) by {
          forall i | 0 <= i < |dim[1..]|
            ensures Some(dim[1..][i].id) != id
          {
            assert dim[0].id != dim[i + 1].id;
          }
        }
        assert HasId(dim, id) by { assert Some(dim[0].id) == id; }
      } else {
        assert HasId(dim, id) <==> HasId(dim[1..], id) by {
          if HasId(dim, id) {
            var i :| 0 <= i < |dim| && Some(dim[i].id) == id;
            assert Some(dim[1..][i - 1].id) == id;
          }
          if HasId(dim[1..], id) {
            var i :| 0 <= i < |dim[1..]| && Some(dim[1..][i].id) == id;
            assert Some(dim[i + 1].id) == id;
          }
        }
      }
    }
  }

  /** A dimension built by `ROW_NUMBER()` has unique keys and unique ids. */
  lemma DimensionUnique<K, L>(dim: seq<DimRow<K, L>>, values: set<K>, derive: K -> L)
    requires IsDimension(dim, values, derive)
    ensures UniqueKeys(dim) && UniqueIds(dim)
  {
    LookupInDimension(dim, values, derive, None);
  }

  // ---------------------------------------------------------------------
  // Category summary: `SELECT dc.distance_category, count(dc.distance_category)
  // FROM dim_distance_category dc GROUP BY 1 ORDER BY 1`.

  function CategorySummaryRows(dim: seq<DimRow<real, string>>): seq<string>
  {
    Map(dim, (r: DimRow<real, string>) => r.derived)
  }

  function ByText(c: Counted<string>): SortKey { Text(c.group) }

  function CategorySummary(dim: seq<DimRow<real, string>>, groups: seq<string>): seq<Counted<string>>
  {
    Aggregate(CategorySummaryRows(dim), groups, ByText)
  }

  /** The summary counts rows of `dim_distance_category`, that is distinct
      distances, not planets: each label's count is its number of dimension
      rows, the counts add up to the size of the dimension, and the labels
      come in ascending order. */
  lemma CategorySummaryCountsDimensionRows(dim: seq<DimRow<real, string>>, groups: seq<string>)
    requires Enumerates(groups, Elements(CategorySummaryRows(dim)))
    ensures IsGroupedCount(CategorySummary(dim, groups), CategorySummaryRows(dim))
    ensures SumCounts(CategorySummary(dim, groups)) == |dim|
    ensures forall i, j :: 0 <= i < j < |CategorySummary(dim, groups)| ==>
      TextLe(CategorySummary(dim, groups)[i].group, CategorySummary(dim, groups)[j].group)
  {
    AggregateCorrect(CategorySummaryRows(dim), groups, ByText);
  }

  // ---------------------------------------------------------------------
  // Era by detection method (lines 43-55): join on the natural key
  // `discovery_year`, then on `detection_method_id`; `ORDER BY num_planets DESC`.

  function EraByMethodOf(f: Fact, dims: Dimensions): seq<(string, string)>
  {
    Cross(WithKey(dims.discoveryEra, EraKey(f.row)), WithId(dims.detectionMethod, f.detectionMethodId),
      (de: DimRow<int, string>, dm: DimRow<string, ()>) => (de.derived, dm.key))
  }

  function EraByMethodRows(facts: seq<Fact>, dims: Dimensions): seq<(string, string)>
  {
    FlatMap(facts, (f: Fact) => EraByMethodOf(f, dims))
  }

  function ByCountDescending(c: Counted<(string, string)>): SortKey { Num(-(c.count as int)) }

  function EraByMethod(facts: seq<Fact>, dims: Dimensions, groups: seq<(string, string)>): seq<Counted<(string, string)>>
  {
    Aggregate(EraByMethodRows(facts, dims), groups, ByCountDescending)
  }

  /** One row per `(discovery_era, detection_method)` pair that occurs, each
      with `num_planets >= 1` counting its joined rows, in non-increasing
      order of `num_planets`. */
  lemma EraByMethodGrouped(facts: seq<Fact>, dims: Dimensions, groups: seq<(string, string)>)
    requires Enumerates(groups, Elements(EraByMethodRows(facts, dims)))
    ensures IsGroupedCount(EraByMethod(facts, dims, groups), EraByMethodRows(facts, dims))
    ensures forall i, j :: 0 <= i < j < |EraByMethod(facts, dims, groups)| ==>
      EraByMethod(facts, dims, groups)[i].count >= EraByMethod(facts, dims, groups)[j].count
  {
    AggregateCorrect(EraByMethodRows(facts, dims), groups, ByCountDescending);
  }

  /** With unique join columns every fact row is counted at most once: the
      counts add up to the fact rows whose `discovery_year` is in
      `dim_discovery_era` and whose `detection_method_id` is in
      `dim_detection_method`; a NULL on either side drops the row. */
  lemma EraByMethodSum(facts: seq<Fact>, dims: Dimensions, groups: seq<(string, string)>)
    requires Enumerates(groups, Elements(EraByMethodRows(facts, dims)))
    requires UniqueKeys(dims.discoveryEra) && UniqueIds(dims.detectionMethod)
    ensures SumCounts(EraByMethod(facts, dims, groups)) ==
      CountIf(facts, (f: Fact) => HasKey(dims.discoveryEra, EraKey(f.row)) && HasId(dims.detectionMethod, f.detectionMethodId))
  {
    AggregateCorrect(EraByMethodRows(facts, dims), groups, ByCountDescending);
    forall f | f in facts
      ensures |EraByMethodOf(f, dims)| ==
        if HasKey(dims.discoveryEra, EraKey(f.row)) && HasId(dims.detectionMethod, f.detectionMethodId) then 1 else 0
    {
      WithKeyUnique(dims.discoveryEra, EraKey(f.row));
      WithIdUnique(dims.detectionMethod, f.detectionMethodId);
      CrossOfSingletons(WithKey(dims.discoveryEra, EraKey(f.row)), WithId(dims.detectionMethod, f.detectionMethodId),
        (de: DimRow<int, string>, dm: DimRow<string, ()>) => (de.derived, dm.key));
    }
    FlatMapAtMostOne(facts, (f: Fact) => EraByMethodOf(f, dims),
      (f: Fact) => HasKey(dims.discoveryEra, EraKey(f.row)) && HasId(dims.detectionMethod, f.detectionMethodId));
  }

  // ---------------------------------------------------------------------
  // Timeline (lines 76-87): the same two joins, grouped by year.

  function TimelineOf(f: Fact, dims: Dimensions): seq<int>
  {
    Cross(WithKey(dims.discoveryEra, EraKey(f.row)), WithId(dims.detectionMethod, f.detectionMethodId),
      (de: DimRow<int, string>, dm: DimRow<string, ()>) => de.key)
  }

  function TimelineRows(facts: seq<Fact>, dims: Dimensions): seq<int>
  {
    FlatMap(facts, (f: Fact) => TimelineOf(f, dims))
  }

  function ByYear(c: Counted<int>): SortKey { Num(c.group) }

  function Timeline(facts: seq<Fact>, dims: Dimensions, groups: seq<int>): seq<Counted<int>>
  {
    Aggregate(TimelineRows(facts, dims), groups, ByYear)
  }

  /** One row per discovery year that occurs, in strictly ascending year
      order. */
  lemma TimelineAscending(facts: seq<Fact>, dims: Dimensions, groups: seq<int>)
    requires Enumerates(groups, Elements(TimelineRows(facts, dims)))
    ensures IsGroupedCount(Timeline(facts, dims, groups), TimelineRows(facts, dims))
    ensures forall i, j :: 0 <= i < j < |Timeline(facts, dims, groups)| ==>
      Timeline(facts, dims, groups)[i].group < Timeline(facts, dims, groups)[j].group
  {
    AggregateCorrect(TimelineRows(facts, dims), groups, ByYear);
  }

  /** The timeline counts the same fact rows as the era-by-method query:
      a fact row with a NULL `detection_method_id` is left out of it. */
  lemma TimelineSum(facts: seq<Fact>, dims: Dimensions, groups: seq<int>)
    requires Enumerates(groups, Elements(TimelineRows(facts, dims)))
    requires UniqueKeys(dims.discoveryEra) && UniqueIds(dims.detectionMethod)
    ensures SumCounts(Timeline(facts, dims, groups)) ==
      CountIf(facts, (f: Fact) => HasKey(dims.discoveryEra, EraKey(f.row)) && HasId(dims.detectionMethod, f.detectionMethodId))
  {
    AggregateCorrect(TimelineRows(facts, dims), groups, ByYear);
    forall f | f in facts
      ensures |TimelineOf(f, dims)| ==
        if HasKey(dims.discoveryEra, EraKey(f.row)) && HasId(dims.detectionMethod, f.detectionMethodId) then 1 else 0
    {
      WithKeyUnique(dims.discoveryEra, EraKey(f.row));
      WithIdUnique(dims.detectionMethod, f.detectionMethodId);
      CrossOfSingletons(WithKey(dims.discoveryEra, EraKey(f.row)), WithId(dims.detectionMethod, f.detectionMethodId),
        (de: DimRow<int, string>, dm: DimRow<string, ()>) => de.key);
    }
    FlatMapAtMostOne(facts, (f: Fact) => TimelineOf(f, dims),
      (f: Fact) => HasKey(dims.discoveryEra, EraKey(f.row)) && HasId(dims.detectionMethod, f.detectionMethodId));
  }

  // ---------------------------------------------------------------------
  // Year by planet type (lines 105-116): one join on `discovery_year`;
  // `e.planet_type` may be NULL and forms a group of its own.

  function TypeByYearOf(f: Fact, dims: Dimensions): seq<(int, Option<string>)>
  {
    Map(WithKey(dims.discoveryEra, EraKey(f.row)), (de: DimRow<int, string>) => (de.key, f.row.planet.planetType))
  }

  function TypeByYearRows(facts: seq<Fact>, dims: Dimensions): seq<(int, Option<string>)>
  {
    FlatMap(facts, (f: Fact) => TypeByYearOf(f, dims))
  }

  function ByYearOfPair<T>(c: Counted<(int, T)>): SortKey { Num(c.group.0) }

  function TypeByYear(facts: seq<Fact>, dims: Dimensions, groups: seq<(int, Option<string>)>)
    : seq<Counted<(int, Option<string>)>>
  {
    Aggregate(TypeByYearRows(facts, dims), groups, ByYearOfPair)
  }

  /** One row per `(discovery_year, planet_type)` pair that occurs, in
      non-decreasing year order. */
  lemma TypeByYearGrouped(facts: seq<Fact>, dims: Dimensions, groups: seq<(int, Option<string>)>)
    requires Enumerates(groups, Elements(TypeByYearRows(facts, dims)))
    ensures IsGroupedCount(TypeByYear(facts, dims, groups), TypeByYearRows(facts, dims))
    ensures forall i, j :: 0 <= i < j < |TypeByYear(facts, dims, groups)| ==>
      TypeByYear(facts, dims, groups)[i].group.0 <= TypeByYear(facts, dims, groups)[j].group.0
  {
    AggregateCorrect(TypeByYearRows(facts, dims), groups, ByYearOfPair);
  }

  /** Every fact row whose year is in `dim_discovery_era` is counted once,
      whatever its planet type. */
  lemma TypeByYearSum(facts: seq<Fact>, dims: Dimensions, groups: seq<(int, Option<string>)>)
    requires Enumerates(groups, Elements(TypeByYearRows(facts, dims)))
    requires UniqueKeys(dims.discoveryEra)
    ensures SumCounts(TypeByYear(facts, dims, groups)) == CountIf(facts, (f: Fact) => HasKey(dims.discoveryEra, EraKey(f.row)))
  {
    AggregateCorrect(TypeByYearRows(facts, dims), groups, ByYearOfPair);
    forall f | f in facts
      ensures |TypeByYearOf(f, dims)| == if HasKey(dims.discoveryEra, EraKey(f.row)) then 1 else 0
    {
      WithKeyUnique(dims.discoveryEra, EraKey(f.row));
    }
    FlatMapAtMostOne(facts, (f: Fact) => TypeByYearOf(f, dims), (f: Fact) => HasKey(dims.discoveryEra, EraKey(f.row)));
  }

  // ---------------------------------------------------------------------
  // Year by detection method (lines 133-145).

  function MethodByYearOf(f: Fact, dims: Dimensions): seq<(int, string)>
  {
    Cross(WithKey(dims.discoveryEra, EraKey(f.row)), WithId(dims.detectionMethod, f.detectionMethodId),
      (de: DimRow<int, string>, dm: DimRow<string, ()>) => (de.key, dm.key))
  }

  function MethodByYearRows(facts: seq<Fact>, dims: Dimensions): seq<(int, string)>
  {
    FlatMap(facts, (f: Fact) => MethodByYearOf(f, dims))
  }

  function MethodByYear(facts: seq<Fact>, dims: Dimensions, groups: seq<(int, string)>): seq<Counted<(int, string)>>
  {
    Aggregate(MethodByYearRows(facts, dims), groups, ByYearOfPair)
  }

  /** One row per `(discovery_year, detection_method)` pair that occurs, in
      non-decreasing year order. */
  lemma MethodByYearGrouped(facts: seq<Fact>, dims: Dimensions, groups: seq<(int, string)>)
    requires Enumerates(groups, Elements(MethodByYearRows(facts, dims)))
    ensures IsGroupedCount(MethodByYear(facts, dims, groups), MethodByYearRows(facts, dims))
    ensures forall i, j :: 0 <= i < j < |MethodByYear(facts, dims, groups)| ==>
      MethodByYear(facts, dims, groups)[i].group.0 <= MethodByYear(facts, dims, groups)[j].group.0
  {
    AggregateCorrect(MethodByYearRows(facts, dims), groups, ByYearOfPair);
  }

  lemma MethodByYearSum(facts: seq<Fact>, dims: Dimensions, groups: seq<(int, string)>)
    requires Enumerates(groups, Elements(MethodByYearRows(facts, dims)))
    requires UniqueKeys(dims.discoveryEra) && UniqueIds(dims.detectionMethod)
    ensures SumCounts(MethodByYear(facts, dims, groups)) ==
      CountIf(facts, (f: Fact) => HasKey(dims.discoveryEra, EraKey(f.row)) && HasId(dims.detectionMethod, f.detectionMethodId))
  {
    AggregateCorrect(MethodByYearRows(facts, dims), groups, ByYearOfPair);
    forall f | f in facts
      ensures |MethodByYearOf(f, dims)| ==
        if HasKey(dims.discoveryEra, EraKey(f.row)) && HasId(dims.detectionMethod, f.detectionMethodId) then 1 else 0
    {
      WithKeyUnique(dims.discoveryEra, EraKey(f.row));
      WithIdUnique(dims.detectionMethod, f.detectionMethodId);
      CrossOfSingletons(WithKey(dims.discoveryEra, EraKey(f.row)), WithId(dims.detectionMethod, f.detectionMethodId),
        (de: DimRow<int, string>, dm: DimRow<string, ()>) => (de.key, dm.key));
    }
    FlatMapAtMostOne(facts, (f: Fact) => MethodByYearOf(f, dims),
      (f: Fact) => HasKey(dims.discoveryEra, EraKey(f.row)) && HasId(dims.detectionMethod, f.detectionMethodId));
  }

  // ---------------------------------------------------------------------
  // Distance category by planet type (lines 162-173): one join on
  // `distance_category_id`; ordered by the nullable `e.planet_type`.

  function DistanceByTypeOf(f: Fact, dims: Dimensions): seq<(string, Option<string>)>
  {
    Map(WithId(dims.distanceCategory, f.distanceCategoryId),
      (dd: DimRow<real, string>) => (dd.derived, f.row.planet.planetType))
  }

  function DistanceByTypeRows(facts: seq<Fact>, dims: Dimensions): seq<(string, Option<string>)>
  {
    FlatMap(facts, (f: Fact) => DistanceByTypeOf(f, dims))
  }

  /** `ORDER BY e.planet_type`: by name, NULL last. */
  function ByPlanetType(c: Counted<(string, Option<string>)>): SortKey
  {
    match c.group.1
    case None => Null
    case Some(t) => Text(t)
  }

  function DistanceByType(facts: seq<Fact>, dims: Dimensions, groups: seq<(string, Option<string>)>)
    : seq<Counted<(string, Option<string>)>>
  {
    Aggregate(DistanceByTypeRows(facts, dims), groups, ByPlanetType)
  }

  /** One row per `(distance_category, planet_type)` pair that occurs,
      ordered by planet type, with the rows of a NULL planet type after all
      others. */
  lemma DistanceByTypeGrouped(facts: seq<Fact>, dims: Dimensions, groups: seq<(string, Option<string>)>)
    requires Enumerates(groups, Elements(DistanceByTypeRows(facts, dims)))
    ensures IsGroupedCount(DistanceByType(facts, dims, groups), DistanceByTypeRows(facts, dims))
    ensures forall i, j :: 0 <= i < j < |DistanceByType(facts, dims, groups)| ==>
      var a, b := DistanceByType(facts, dims, groups)[i].group.1, DistanceByType(facts, dims, groups)[j].group.1;
      (a.None? ==> b.None?) && (a.Some? && b.Some? ==> TextLe(a.value, b.value))
  {
    var r := DistanceByType(facts, dims, groups);
    AggregateCorrect(DistanceByTypeRows(facts, dims), groups, ByPlanetType);
    forall i, j | 0 <= i < j < |r|
      ensures var a, b := r[i].group.1, r[j].group.1;
        (a.None? ==> b.None?) && (a.Some? && b.Some? ==> TextLe(a.value, b.value))
    {
      assert KeyLe(ByPlanetType(r[i]), ByPlanetType(r[j]));
    }
  }

  /** Each fact row whose `distance_category_id` is in the dimension is
      counted once; a NULL id drops the row. */
  lemma DistanceByTypeSum(facts: seq<Fact>, dims: Dimensions, groups: seq<(string, Option<string>)>)
    requires Enumerates(groups, Elements(DistanceByTypeRows(facts, dims)))
    requires UniqueIds(dims.distanceCategory)
    ensures SumCounts(DistanceByType(facts, dims, groups)) ==
      CountIf(facts, (f: Fact) => HasId(dims.distanceCategory, f.distanceCategoryId))
  {
    AggregateCorrect(DistanceByTypeRows(facts, dims), groups, ByPlanetType);
    forall f | f in facts
      ensures |DistanceByTypeOf(f, dims)| == if HasId(dims.distanceCategory, f.distanceCategoryId) then 1 else 0
    {
      WithIdUnique(dims.distanceCategory, f.distanceCategoryId);
    }
    FlatMapAtMostOne(facts, (f: Fact) => DistanceByTypeOf(f, dims),
      (f: Fact) => HasId(dims.distanceCategory, f.distanceCategoryId));
  }

  // ---------------------------------------------------------------------
  // Distance category by brightness category (lines 189-201).

  function DistanceByBrightnessOf(f: Fact, dims: Dimensions): seq<(string, string)>
  {
    Cross(WithId(dims.distanceCategory, f.distanceCategoryId), WithId(dims.brightnessCategory, f.brightnessCategoryId),
      (dd: DimRow<real, string>, db: DimRow<real, string>) => (dd.derived, db.derived))
  }

  function DistanceByBrightnessRows(facts: seq<Fact>, dims: Dimensions): seq<(string, string)>
  {
    FlatMap(facts, (f: Fact) => DistanceByBrightnessOf(f, dims))
  }

  function ByFirstText<T>(c: Counted<(string, T)>): SortKey { Text(c.group.0) }

  function DistanceByBrightness(facts: seq<Fact>, dims: Dimensions, groups: seq<(string, string)>)
    : seq<Counted<(string, string)>>
  {
    Aggregate(DistanceByBrightnessRows(facts, dims), groups, ByFirstText)
  }

  /** One row per `(distance_category, brightness_category)` pair that
      occurs, ordered by distance category. */
  lemma DistanceByBrightnessGrouped(facts: seq<Fact>, dims: Dimensions, groups: seq<(string, string)>)
    requires Enumerates(groups, Elements(DistanceByBrightnessRows(facts, dims)))
    ensures IsGroupedCount(DistanceByBrightness(facts, dims, groups), DistanceByBrightnessRows(facts, dims))
    ensures forall i, j :: 0 <= i < j < |DistanceByBrightness(facts, dims, groups)| ==>
      TextLe(DistanceByBrightness(facts, dims, groups)[i].group.0, DistanceByBrightness(facts, dims, groups)[j].group.0)
  {
    AggregateCorrect(DistanceByBrightnessRows(facts, dims), groups, ByFirstText);
  }

  /** Each fact row is counted once when both of its ids are in their
      dimensions, and not at all otherwise. */
  lemma DistanceByBrightnessSum(facts: seq<Fact>, dims: Dimensions, groups: seq<(string, string)>)
    requires Enumerates(groups, Elements(DistanceByBrightnessRows(facts, dims)))
    requires UniqueIds(dims.distanceCategory) && UniqueIds(dims.brightnessCategory)
    ensures SumCounts(DistanceByBrightness(facts, dims, groups)) ==
      CountIf(facts, (f: Fact) => HasId(dims.distanceCategory, f.distanceCategoryId) && HasId(dims.brightnessCategory, f.brightnessCategoryId))
  {
    AggregateCorrect(DistanceByBrightnessRows(facts, dims), groups, ByFirstText);
    forall f | f in facts
      ensures |DistanceByBrightnessOf(f, dims)| ==
        if HasId(dims.distanceCategory, f.distanceCategoryId) && HasId(dims.brightnessCategory, f.brightnessCategoryId) then 1 else 0
    {
      WithIdUnique(dims.distanceCategory, f.distanceCategoryId);
      WithIdUnique(dims.brightnessCategory, f.brightnessCategoryId);
      CrossOfSingletons(WithId(dims.distanceCategory, f.distanceCategoryId), WithId(dims.brightnessCategory, f.brightnessCategoryId),
        (dd: DimRow<real, string>, db: DimRow<real, string>) => (dd.derived, db.derived));
    }
    FlatMapAtMostOne(facts, (f: Fact) => DistanceByBrightnessOf(f, dims),
      (f: Fact) => HasId(dims.distanceCategory, f.distanceCategoryId) && HasId(dims.brightnessCategory, f.brightnessCategoryId));
  }

  // ---------------------------------------------------------------------
  // Planet type by orbit class (lines 218-230).

  function TypeByOrbitOf(f: Fact, dims: Dimensions): seq<(string, string)>
  {
    Cross(WithId(dims.planetType, f.planetTypeId), WithId(dims.orbitCategory, f.orbitCategoryId),
      (dp: DimRow<string, ()>, oc: DimRow<real, string>) => (dp.key, oc.derived))
  }

  function TypeByOrbitRows(facts: seq<Fact>, dims: Dimensions): seq<(string, string)>
  {
    FlatMap(facts, (f: Fact) => TypeByOrbitOf(f, dims))
  }

  function TypeByOrbit(facts: seq<Fact>, dims: Dimensions, groups: seq<(string, string)>): seq<Counted<(string, string)>>
  {
    Aggregate(TypeByOrbitRows(facts, dims), groups, ByFirstText)
  }

  /** One row per `(planet_type, period_class)` pair that occurs, ordered by
      planet type. */
  lemma TypeByOrbitGrouped(facts: seq<Fact>, dims: Dimensions, groups: seq<(string, string)>)
    requires Enumerates(groups, Elements(TypeByOrbitRows(facts, dims)))
    ensures IsGroupedCount(TypeByOrbit(facts, dims, groups), TypeByOrbitRows(facts, dims))
    ensures forall i, j :: 0 <= i < j < |TypeByOrbit(facts, dims, groups)| ==>
      TextLe(TypeByOrbit(facts, dims, groups)[i].group.0, TypeByOrbit(facts, dims, groups)[j].group.0)
  {
    AggregateCorrect(TypeByOrbitRows(facts, dims), groups, ByFirstText);
  }

  lemma TypeByOrbitSum(facts: seq<Fact>, dims: Dimensions, groups: seq<(string, string)>)
    requires Enumerates(groups, Elements(TypeByOrbitRows(facts, dims)))
    requires UniqueIds(dims.planetType) && UniqueIds(dims.orbitCategory)
    ensures SumCounts(TypeByOrbit(facts, dims, groups)) ==
      CountIf(facts, (f: Fact) => HasId(dims.planetType, f.planetTypeId) && HasId(dims.orbitCategory, f.orbitCategoryId))
  {
    AggregateCorrect(TypeByOrbitRows(facts, dims), groups, ByFirstText);
    forall f | f in facts
      ensures |TypeByOrbitOf(f, dims)| ==
        if HasId(dims.planetType, f.planetTypeId) && HasId(dims.orbitCategory, f.orbitCategoryId) then 1 else 0
    {
      WithIdUnique(dims.planetType, f.planetTypeId);
      WithIdUnique(dims.orbitCategory, f.orbitCategoryId);
      CrossOfSingletons(WithId(dims.planetType, f.planetTypeId), WithId(dims.orbitCategory, f.orbitCategoryId),
        (dp: DimRow<string, ()>, oc: DimRow<real, string>) => (dp.key, oc.derived));
    }
    FlatMapAtMostOne(facts, (f: Fact) => TypeByOrbitOf(f, dims),
      (f: Fact) => HasId(dims.planetType, f.planetTypeId) && HasId(dims.orbitCategory, f.orbitCategoryId));
  }

  // ---------------------------------------------------------------------
  // The queries over the tables the ETL script produced.

  /** A natural key of a row of `exoplanets` is found in the dimension built
      from `exoplanets` exactly when it is not NULL. */
  lemma HasKeyOfBuilt<K, L>(rows: seq<Exoplanet>, key: Exoplanet -> Option<K>, dim: seq<DimRow<K, L>>,
                            derive: K -> L, i: int)
    requires IsDimension(dim, NonNull(Column(rows, key)), derive)
    requires 0 <= i < |rows|
    ensures HasKey(dim, key(rows[i])) <==> key(rows[i]).Some?
  {
    InColumn(rows, key, i);
    if key(rows[i]).Some? {
      assert key(rows[i]).value in (set r | r in dim :: r.key);
      var j :| 0 <= j < |dim| && dim[j].key == key(rows[i]).value;
      assert Some(dim[j].key) == key(rows[i]);
    }
  }

  /** A foreign key that refers to its dimension is found there exactly
      when it is not NULL. */
  lemma HasIdOfResolved<K, L>(dim: seq<DimRow<K, L>>, k: Option<K>, id: Option<int>, derive: K -> L)
    requires ResolvesTo(dim, k, id, derive)
    ensures HasId(dim, id) <==> k.Some?
  {
    if id.Some? {
      assert Some(dim[id.value - 1].id) == id;
    }
  }

  /** The dimensions the script builds have unique keys and unique ids, and
      its fact table has one row per row of `exoplanets`. */
  lemma BuiltTablesUnique(rows: seq<Exoplanet>, orders: DistinctOrders, cast: string -> Date)
    requires OrdersOf(orders, rows)
    requires InjectiveOn(cast, NonNull(Column(rows, ReleaseDateKey)))
    ensures var dims := BuildAll(orders, cast);
      && UniqueKeys(dims.discoveryEra) && UniqueIds(dims.detectionMethod) && UniqueIds(dims.planetType)
      && UniqueIds(dims.distanceCategory) && UniqueIds(dims.brightnessCategory) && UniqueIds(dims.orbitCategory)
      && |Assemble(rows, dims, cast)| == |rows|
  {
    var dims := BuildAll(orders, cast);
    BuildAllDimensions(rows, orders, cast);
    DimensionUnique(dims.discoveryEra, NonNull(Column(rows, EraKey)), Categorizer.DiscoveryEra);
    DimensionUnique(dims.detectionMethod, NonNull(Column(rows, DetectionMethodKey)), NoDerived);
    DimensionUnique(dims.planetType, NonNull(Column(rows, PlanetTypeKey)), NoDerived);
    DimensionUnique(dims.distanceCategory, NonNull(Column(rows, DistanceKey)), Categorizer.DistanceCategory);
    DimensionUnique(dims.brightnessCategory, NonNull(Column(rows, BrightnessKey)), Categorizer.BrightnessCategory);
    DimensionUnique(dims.orbitCategory, NonNull(Column(rows, OrbitKey)), Categorizer.OrbitCategory);
    AssembleKeepsRows(rows, orders, cast);
  }

  /** Fact row `i` reaches both joins of the era-by-method query exactly
      when planet `i` has a discovery year and a detection method. */
  lemma EraByMethodJoinsRow(rows: seq<Exoplanet>, orders: DistinctOrders, cast: string -> Date, i: int)
    requires OrdersOf(orders, rows)
    requires InjectiveOn(cast, NonNull(Column(rows, ReleaseDateKey)))
    requires 0 <= i < |rows|
    ensures var dims := BuildAll(orders, cast);
      var facts := Assemble(rows, dims, cast);
      && i < |facts|
      && (HasKey(dims.discoveryEra, EraKey(facts[i].row)) && HasId(dims.detectionMethod, facts[i].detectionMethodId))
         == (rows[i].planet.discoveryYear.Some? && rows[i].planet.detectionMethod.Some?)
  {
    var dims := BuildAll(orders, cast);
    var facts := Assemble(rows, dims, cast);
    AssembleSpec(rows, orders, cast, i);
    BuildAllDimensions(rows, orders, cast);
    HasKeyOfBuilt(rows, EraKey, dims.discoveryEra, Categorizer.DiscoveryEra, i);
    HasIdOfResolved(dims.detectionMethod, DetectionMethodKey(rows[i]), facts[i].detectionMethodId, NoDerived);
  }

  /** Fact row `i` reaches both joins of the distance-by-brightness query
      exactly when planet `i` has a distance and a stellar magnitude. */
  lemma DistanceByBrightnessJoinsRow(rows: seq<Exoplanet>, orders: DistinctOrders, cast: string -> Date, i: int)
    requires OrdersOf(orders, rows)
    requires InjectiveOn(cast, NonNull(Column(rows, ReleaseDateKey)))
    requires 0 <= i < |rows|
    ensures var dims := BuildAll(orders, cast);
      var facts := Assemble(rows, dims, cast);
      && i < |facts|
      && (HasId(dims.distanceCategory, facts[i].distanceCategoryId) && HasId(dims.brightnessCategory, facts[i].brightnessCategoryId))
         == (rows[i].planet.distance.Some? && rows[i].planet.stellarMagnitude.Some?)
  {
    var dims := BuildAll(orders, cast);
    var facts := Assemble(rows, dims, cast);
    AssembleSpec(rows, orders, cast, i);
    HasIdOfResolved(dims.distanceCategory, DistanceKey(rows[i]), facts[i].distanceCategoryId, Categorizer.DistanceCategory);
    HasIdOfResolved(dims.brightnessCategory, BrightnessKey(rows[i]), facts[i].brightnessCategoryId, Categorizer.BrightnessCategory);
  }

  /** On the script's own tables the era-by-method counts add up to the
      planets that have both a discovery year and a detection method. */
  lemma EraByMethodCountsPlanets(rows: seq<Exoplanet>, orders: DistinctOrders, cast: string -> Date,
                                 groups: seq<(string, string)>)
    requires OrdersOf(orders, rows)
    requires InjectiveOn(cast, NonNull(Column(rows, ReleaseDateKey)))
    requires Enumerates(groups, Elements(EraByMethodRows(Assemble(rows, BuildAll(orders, cast), cast), BuildAll(orders, cast))))
    ensures SumCounts(EraByMethod(Assemble(rows, BuildAll(orders, cast), cast), BuildAll(orders, cast), groups)) ==
      CountIf(rows, (e: Exoplanet) => e.planet.discoveryYear.Some? && e.planet.detectionMethod.Some?)
  {
    var dims := BuildAll(orders, cast);
    var facts := Assemble(rows, dims, cast);
    BuiltTablesUnique(rows, orders, cast);
    EraByMethodSum(facts, dims, groups);
    forall i | 0 <= i < |facts|
      ensures (HasKey(dims.discoveryEra, EraKey(facts[i].row)) && HasId(dims.detectionMethod, facts[i].detectionMethodId))
        == (rows[i].planet.discoveryYear.Some? && rows[i].planet.detectionMethod.Some?)
    {
      EraByMethodJoinsRow(rows, orders, cast, i);
    }
    CountIfPointwise(facts, (f: Fact) => HasKey(dims.discoveryEra, EraKey(f.row)) && HasId(dims.detectionMethod, f.detectionMethodId),
      rows, (e: Exoplanet) => e.planet.discoveryYear.Some? && e.planet.detectionMethod.Some?);
  }

  /** On the script's own tables the distance-by-brightness counts add up to
      the planets that have both a distance and a stellar magnitude. */
  lemma DistanceByBrightnessCountsPlanets(rows: seq<Exoplanet>, orders: DistinctOrders, cast: string -> Date,
                                          groups: seq<(string, string)>)
    requires OrdersOf(orders, rows)
    requires InjectiveOn(cast, NonNull(Column(rows, ReleaseDateKey)))
    requires Enumerates(groups, Elements(DistanceByBrightnessRows(Assemble(rows, BuildAll(orders, cast), cast), BuildAll(orders, cast))))
    ensures SumCounts(DistanceByBrightness(Assemble(rows, BuildAll(orders, cast), cast), BuildAll(orders, cast), groups)) ==
      CountIf(rows, (e: Exoplanet) => e.planet.distance.Some? && e.planet.stellarMagnitude.Some?)
  {
    var dims := BuildAll(orders, cast);
    var facts := Assemble(rows, dims, cast);
    BuiltTablesUnique(rows, orders, cast);
    DistanceByBrightnessSum(facts, dims, groups);
    forall i | 0 <= i < |facts|
      ensures (HasId(dims.distanceCategory, facts[i].distanceCategoryId) && HasId(dims.brightnessCategory, facts[i].brightnessCategoryId))
        == (rows[i].planet.distance.Some? && rows[i].planet.stellarMagnitude.Some?)
    {
      DistanceByBrightnessJoinsRow(rows, orders, cast, i);
    }
    CountIfPointwise(facts, (f: Fact) => HasId(dims.distanceCategory, f.distanceCategoryId) && HasId(dims.brightnessCategory, f.brightnessCategoryId),
      rows, (e: Exoplanet) => e.planet.distance.Some? && e.planet.stellarMagnitude.Some?);
  }
}
