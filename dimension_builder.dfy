/** The nine `CREATE OR REPLACE TABLE dim_* AS SELECT ROW_NUMBER() OVER ()
    AS <axis>_id, <key>, <label> FROM (SELECT DISTINCT <key> FROM exoplanets
    WHERE <key> IS NOT NULL) t` statements.

    `ROW_NUMBER() OVER ()` numbers the rows of the `DISTINCT` subquery in
    whatever order the engine produces them, which SQL does not fix.  Every
    builder therefore takes that order as its argument `emitted`, and its
    properties hold for every order that lists each distinct non-null value
    once (`Enumerates`); `EmitDistinct` shows such an order always exists. */
module DimensionBuilder {
  import opened Sql
  import opened Schema
  import Categorizer

  // The natural-key columns the dimensions are built from; the fact
  // assembly joins on the same columns.

  function PlanetTypeKey(e: Exoplanet): Option<string> { e.planet.planetType }
  function DetectionMethodKey(e: Exoplanet): Option<string> { e.planet.detectionMethod }
  function MassKey(e: Exoplanet): Option<real> { e.planet.massMultiplier }
  function DistanceKey(e: Exoplanet): Option<real> { e.planet.distance }
  function OrbitKey(e: Exoplanet): Option<real> { e.planet.orbitalPeriod }
  function BrightnessKey(e: Exoplanet): Option<real> { e.planet.stellarMagnitude }
  function EraKey(e: Exoplanet): Option<int> { e.planet.discoveryYear }
  function ReleaseDateKey(e: Exoplanet): Option<string> { e.releaseDate }

  /** The key of `dim_stellar_type`: the pair `(distance, stellar_magnitude)`,
      present only when neither is NULL (`WHERE distance IS NOT NULL AND
      stellar_magnitude IS NOT NULL`, and the two-column join condition). */
  function StellarTypeKey(e: Exoplanet): (k: Option<(real, real)>)
    ensures k.Some? <==> e.planet.distance.Some? && e.planet.stellarMagnitude.Some?
    ensures k.Some? ==> k.value.0 == e.planet.distance.value && k.value.1 == e.planet.stellarMagnitude.value
  {
    if e.planet.distance.Some? && e.planet.stellarMagnitude.Some? then
      Some((e.planet.distance.value, e.planet.stellarMagnitude.value))
    else None
  }

  /** The join condition `e.distance = s.distance AND e.stellar_magnitude =
      s.stellar_magnitude` holds against a `dim_stellar_type` row with key
      `(d, m)` exactly when the row's stellar-type key is that pair; a NULL
      in either column joins nothing. */
  lemma StellarTypeKeyJoin(e: Exoplanet, d: real, m: real)
    ensures StellarTypeKey(e) == Some((d, m)) <==>
      e.planet.distance == Some(d) && e.planet.stellarMagnitude == Some(m)
  {
  }

  /** `CAST(releasedate AS DATE)`; `cast` is the engine's date parser. */
  function DateKey(e: Exoplanet, cast: string -> Date): Option<Date>
  {
    MapOption(e.releaseDate, cast)
  }

  /** One column of `exoplanets`. */
  function Column<K>(rows: seq<Exoplanet>, key: Exoplanet -> Option<K>): seq<Option<K>>
  {
    Map(rows, key)
  }

  /** `SELECT DISTINCT c FROM ... WHERE c IS NOT NULL`, as a set. */
  function NonNull<K>(column: seq<Option<K>>): set<K>
  {
    set o | o in column && o.Some? :: o.value
  }

  /** `ROW_NUMBER() OVER ()` over the distinct values in the order `emitted`,
      with the derived column computed from each value. */
  function Build<K, L>(emitted: seq<K>, derive: K -> L): seq<DimRow<K, L>>
  {
    seq(|emitted|, i requires 0 <= i < |emitted| => DimRow(i + 1, emitted[i], derive(emitted[i])))
  }

  /** `dim` is a dimension over the natural-key values `values`: one row per
      value and no other row, so its keys are unique and no NULL appears; its
      surrogate ids are pairwise different and are exactly 1..n; each row
      carries the label of its key. */
  ghost predicate IsDimension<K, L>(dim: seq<DimRow<K, L>>, values: set<K>, derive: K -> L)
  {
    && |dim| == |values|
    && (forall i, j :: 0 <= i < j < |dim| ==> dim[i].key != dim[j].key && dim[i].id != dim[j].id)
    && (set r | r in dim :: r.key) == values
    && (forall i :: 0 <= i < |dim| ==> dim[i].id == i + 1)
    && (forall r :: r in dim ==> r.derived == derive(r.key))
  }

  /** Numbering any listing of the distinct non-null values gives a
      dimension over them. */
  lemma BuildIsDimension<K, L>(emitted: seq<K>, values: set<K>, derive: K -> L)
    requires Enumerates(emitted, values)
    ensures IsDimension(Build(emitted, derive), values, derive)
  {
    var dim := Build(emitted, derive);
    DistinctCardinality(emitted);
    forall k | k in values
      ensures k in (set r | r in dim :: r.key)
    {
      var i :| 0 <= i < |emitted| && emitted[i] == k;
      assert dim[i] in dim;
    }
  }

  /** The `(key, label)` pairs of a dimension are fixed by its values. */
  lemma DimensionContents<K, L>(dim: seq<DimRow<K, L>>, values: set<K>, derive: K -> L)
    requires IsDimension(dim, values, derive)
    ensures (set r | r in dim :: (r.key, r.derived)) == (set k | k in values :: (k, derive(k)))
  {
    forall k | k in values
      ensures (k, derive(k)) in (set r | r in dim :: (r.key, r.derived))
    {
      assert k in (set r | r in dim :: r.key);
      var r :| r in dim && r.key == k;
    }
  }

  /** Rebuilding a dimension in another engine order gives the same
      `(key, label)` pairs and the same size; only the surrogate ids may
      differ. */
  lemma RebuildSameContents<K, L>(first: seq<K>, second: seq<K>, values: set<K>, derive: K -> L)
    requires Enumerates(first, values) && Enumerates(second, values)
    ensures |Build(first, derive)| == |Build(second, derive)|
    ensures (set r | r in Build(first, derive) :: (r.key, r.derived)) ==
            (set r | r in Build(second, derive) :: (r.key, r.derived))
  {
    BuildIsDimension(first, values, derive);
    BuildIsDimension(second, values, derive);
    DimensionContents(Build(first, derive), values, derive);
    DimensionContents(Build(second, derive), values, derive);
  }

  /** The distinct non-null values of a column, in an order the engine is
      free to choose: each value is emitted once, none is left out. */
  method EmitDistinct<K(==)>(column: seq<Option<K>>) returns (emitted: seq<K>)
    ensures Enumerates(emitted, NonNull(column))
  {
    var remaining := NonNull(column);
    emitted := [];
    while remaining != {}
      invariant Distinct(emitted)
      invariant Elements(emitted) !! remaining
      invariant Elements(emitted) + remaining == NonNull(column)
      decreases |remaining|
    {
      var v :| v in remaining;
      assert Elements(emitted + [v]) == Elements(emitted) + {v};
      emitted := emitted + [v];
      remaining := remaining - {v};
    }
  }

  function NoDerived<K>(k: K): () { () }

  function StellarTypeLabel(k: (real, real)): string { Categorizer.StellarBrightness(k.1) }

  /** The order in which the engine emits each `DISTINCT` subquery. */
  datatype DistinctOrders = DistinctOrders(
    planetType: seq<string>,
    detectionMethod: seq<string>,
    stellarType: seq<(real, real)>,
    massCategory: seq<real>,
    distanceCategory: seq<real>,
    orbitCategory: seq<real>,
    brightnessCategory: seq<real>,
    discoveryEra: seq<int>,
    releaseDate: seq<string>)

  /** Each listed order names each distinct non-null value of its column
      once. */
  ghost predicate OrdersOf(orders: DistinctOrders, rows: seq<Exoplanet>)
  {
    && Enumerates(orders.planetType, NonNull(Column(rows, PlanetTypeKey)))
    && Enumerates(orders.detectionMethod, NonNull(Column(rows, DetectionMethodKey)))
    && Enumerates(orders.stellarType, NonNull(Column(rows, StellarTypeKey)))
    && Enumerates(orders.massCategory, NonNull(Column(rows, MassKey)))
    && Enumerates(orders.distanceCategory, NonNull(Column(rows, DistanceKey)))
    && Enumerates(orders.orbitCategory, NonNull(Column(rows, OrbitKey)))
    && Enumerates(orders.brightnessCategory, NonNull(Column(rows, BrightnessKey)))
    && Enumerates(orders.discoveryEra, NonNull(Column(rows, EraKey)))
    && Enumerates(orders.releaseDate, NonNull(Column(rows, ReleaseDateKey)))
  }

  /** `dim_date`: `DISTINCT` is taken over the raw `releasedate` strings, and
      each row stores `CAST(releasedate AS DATE)`.  The derived year, month
      and weekday columns are not modelled. */
  function DimDate(emitted: seq<string>, cast: string -> Date): seq<DimRow<Date, ()>>
  {
    Build(Map(emitted, cast), NoDerived)
  }

  /** The nine dimension tables built from the given engine orders. */
  function BuildAll(orders: DistinctOrders, cast: string -> Date): Dimensions
  {
    Dimensions(
      Build(orders.planetType, NoDerived),
      Build(orders.detectionMethod, NoDerived),
      Build(orders.stellarType, StellarTypeLabel),
      Build(orders.massCategory, Categorizer.MassCategory),
      Build(orders.distanceCategory, Categorizer.DistanceCategory),
      Build(orders.orbitCategory, Categorizer.OrbitCategory),
      Build(orders.brightnessCategory, Categorizer.BrightnessCategory),
      Build(orders.discoveryEra, Categorizer.DiscoveryEra),
      DimDate(orders.releaseDate, cast))
  }

  /** `cast` sends different raw strings of `raws` to different dates. */
  ghost predicate InjectiveOn(cast: string -> Date, raws: set<string>)
  {
    forall a, b :: a in raws && b in raws && a != b ==> cast(a) != cast(b)
  }

  /** The eight dimensions keyed on a column value are dimensions over the
      distinct non-null values of their column, labelled by their `CASE`
      expression; `dim_stellar_type` is one over the non-null
      `(distance, stellar_magnitude)` pairs. */
  lemma BuildAllDimensions(rows: seq<Exoplanet>, orders: DistinctOrders, cast: string -> Date)
    requires OrdersOf(orders, rows)
    ensures var dims := BuildAll(orders, cast);
      && IsDimension(dims.planetType, NonNull(Column(rows, PlanetTypeKey)), NoDerived)
      && IsDimension(dims.detectionMethod, NonNull(Column(rows, DetectionMethodKey)), NoDerived)
      && IsDimension(dims.stellarType, NonNull(Column(rows, StellarTypeKey)), StellarTypeLabel)
      && IsDimension(dims.massCategory, NonNull(Column(rows, MassKey)), Categorizer.MassCategory)
      && IsDimension(dims.distanceCategory, NonNull(Column(rows, DistanceKey)), Categorizer.DistanceCategory)
      && IsDimension(dims.orbitCategory, NonNull(Column(rows, OrbitKey)), Categorizer.OrbitCategory)
      && IsDimension(dims.brightnessCategory, NonNull(Column(rows, BrightnessKey)), Categorizer.BrightnessCategory)
      && IsDimension(dims.discoveryEra, NonNull(Column(rows, EraKey)), Categorizer.DiscoveryEra)
  {
    BuildIsDimension(orders.planetType, NonNull(Column(rows, PlanetTypeKey)), NoDerived);
    BuildIsDimension(orders.detectionMethod, NonNull(Column(rows, DetectionMethodKey)), NoDerived);
    BuildIsDimension(orders.stellarType, NonNull(Column(rows, StellarTypeKey)), StellarTypeLabel);
    BuildIsDimension(orders.massCategory, NonNull(Column(rows, MassKey)), Categorizer.MassCategory);
    BuildIsDimension(orders.distanceCategory, NonNull(Column(rows, DistanceKey)), Categorizer.DistanceCategory);
    BuildIsDimension(orders.orbitCategory, NonNull(Column(rows, OrbitKey)), Categorizer.OrbitCategory);
    BuildIsDimension(orders.brightnessCategory, NonNull(Column(rows, BrightnessKey)), Categorizer.BrightnessCategory);
    BuildIsDimension(orders.discoveryEra, NonNull(Column(rows, EraKey)), Categorizer.DiscoveryEra);
  }

  /** The non-null values of `CAST(releasedate AS DATE)` are the casts of the
      distinct non-null raw strings. */
  lemma DateValues(rows: seq<Exoplanet>, cast: string -> Date)
    ensures NonNull(Column(rows, e => DateKey(e, cast))) == set s | s in NonNull(Column(rows, ReleaseDateKey)) :: cast(s)
  {
    var dates := Column(rows, e => DateKey(e, cast));
    var raws := Column(rows, ReleaseDateKey);
    forall d | d in NonNull(dates)
      ensures exists s :: s in NonNull(raws) && cast(s) == d
    {
      var i :| 0 <= i < |rows| && dates[i] == Some(d);
      assert raws[i] in raws;
    }
    forall s | s in NonNull(raws)
      ensures cast(s) in NonNull(dates)
    {
      var i :| 0 <= i < |rows| && raws[i] == Some(s);
      assert dates[i] in dates;
    }
  }

  /** When distinct raw strings cast to distinct dates, `dim_date` is a
      dimension over the non-null dates of `exoplanets`. */
  lemma DateDimension(rows: seq<Exoplanet>, emitted: seq<string>, cast: string -> Date)
    requires Enumerates(emitted, NonNull(Column(rows, ReleaseDateKey)))
    requires InjectiveOn(cast, NonNull(Column(rows, ReleaseDateKey)))
    ensures IsDimension(DimDate(emitted, cast), NonNull(Column(rows, e => DateKey(e, cast))), NoDerived)
  {
    var raws := NonNull(Column(rows, ReleaseDateKey));
    var dates := Map(emitted, cast);
    assert Distinct(dates) by {
      forall i, j | 0 <= i < j < |dates|
        ensures dates[i] != dates[j]
      {
        assert emitted[i] in Elements(emitted) && emitted[j] in Elements(emitted);
      }
    }
    DateValues(rows, cast);
    assert Elements(dates) == set s | s in raws :: cast(s) by {
      forall d | d in Elements(dates)
        ensures d in set s | s in raws :: cast(s)
      {
        var i :| 0 <= i < |dates| && dates[i] == d;
        assert emitted[i] in Elements(emitted);
      }
      forall s | s in raws
        ensures cast(s) in Elements(dates)
      {
        assert s in Elements(emitted);
        var i :| 0 <= i < |emitted| && emitted[i] == s;
        assert dates[i] == cast(s);
      }
    }
    BuildIsDimension(dates, NonNull(Column(rows, e => DateKey(e, cast))), NoDerived);
  }

  /** When two different raw strings cast to the same date, `dim_date` holds
      two rows with that date as key. */
  lemma DateKeysRepeat(emitted: seq<string>, cast: string -> Date, a: string, b: string)
    requires Distinct(emitted) && a in emitted && b in emitted && a != b && cast(a) == cast(b)
    ensures exists i, j ::
      (0 <= i < j < |DimDate(emitted, cast)| &&
       DimDate(emitted, cast)[i].key == cast(a) && DimDate(emitted, cast)[j].key == cast(a))
  {
    var i :| 0 <= i < |emitted| && emitted[i] == a;
    var j :| 0 <= j < |emitted| && emitted[j] == b;
    var dim := DimDate(emitted, cast);
    if i < j {
      assert dim[i].key == cast(a) && dim[j].key == cast(a);
    } else {
      assert dim[j].key == cast(a) && dim[i].key == cast(a);
    }
  }
}
