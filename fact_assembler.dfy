/** `CREATE OR REPLACE TABLE exoplanets AS SELECT e.*, p.planet_type_id, ...,
    dt.date_id FROM exoplanets e LEFT JOIN dim_planet_type p ON ... LEFT JOIN
    dim_date dt ON CAST(e.releasedate AS DATE) = dt.date`: the nine left
    joins that attach one surrogate key per dimension to every row. */
module FactAssembler {
  import opened Sql
  import opened Schema
  import opened DimensionBuilder
  import Categorizer

  /** The dimension rows whose natural key equals `k` (NULL equals nothing). */
  function WithKey<K(==), L>(dim: seq<DimRow<K, L>>, k: Option<K>): (rows: seq<DimRow<K, L>>)
    ensures forall r :: r in rows ==> r in dim && Some(r.key) == k
    ensures k.None? ==> rows == []
    ensures |rows| <= |dim|
  {
    if dim == [] then []
    else (if Some(dim[0].key) == k then [dim[0]] else []) + WithKey(dim[1..], k)
  }

  /** The ids of the dimension rows whose key equals `k`, in table order.  A
      NULL key equals nothing, so it matches no row. */
  function MatchIds<K(==), L>(dim: seq<DimRow<K, L>>, k: Option<K>): (ids: seq<int>)
    ensures |ids| <= |dim|
    ensures k.None? ==> ids == []
  {
    Map(WithKey(dim, k), (r: DimRow<K, L>) => r.id)
  }

  /** No two rows of the dimension share a key. */
  ghost predicate UniqueKeys<K, L>(dim: seq<DimRow<K, L>>)
  {
    forall i, j :: 0 <= i < j < |dim| ==> dim[i].key != dim[j].key
  }

  lemma {:induction false} WithKeyNone<K, L>(dim: seq<DimRow<K, L>>, k: Option<K>)
    requires forall i :: 0 <= i < |dim| ==> Some(dim[i].key) != k
    ensures WithKey(dim, k) == []
  {
    if dim != [] {
      assert Some(dim[0].key) != k;
      WithKeyNone(dim[1..], k);
    }
  }

  /** With unique keys, a key held by row `i` matches that row alone. */
  lemma {:induction false} WithKeyAt<K, L>(dim: seq<DimRow<K, L>>, k: Option<K>, i: int)
    requires UniqueKeys(dim) && 0 <= i < |dim| && Some(dim[i].key) == k
    ensures WithKey(dim, k) == [dim[i]]
  {
    if i == 0 {
      WithKeyNone(dim[1..], k);
    } else {
      assert dim[0].key != dim[i].key;
      WithKeyAt(dim[1..], k, i - 1);
    }
  }

  lemma {:induction false} WithKeySome<K, L>(dim: seq<DimRow<K, L>>, k: Option<K>, i: int)
    requires 0 <= i < |dim| && Some(dim[i].key) == k
    ensures |WithKey(dim, k)| >= 1
  {
    if i > 0 {
      WithKeySome(dim[1..], k, i - 1);
    }
  }

  /** Two rows holding the same key both match it. */
  lemma {:induction false} WithKeyTwo<K, L>(dim: seq<DimRow<K, L>>, k: Option<K>, i: int, j: int)
    requires 0 <= i < j < |dim| && Some(dim[i].key) == k && Some(dim[j].key) == k
    ensures |WithKey(dim, k)| >= 2
  {
    if i == 0 {
      WithKeySome(dim[1..], k, j - 1);
    } else {
      WithKeyTwo(dim[1..], k, i - 1, j - 1);
    }
  }

  /** With unique keys, the key held by row `i` yields that row's id alone. */
  lemma MatchIdsAt<K, L>(dim: seq<DimRow<K, L>>, k: Option<K>, i: int)
    requires UniqueKeys(dim) && 0 <= i < |dim| && Some(dim[i].key) == k
    ensures MatchIds(dim, k) == [dim[i].id]
  {
    WithKeyAt(dim, k, i);
  }

  /** With unique keys a key matches at most one row. */
  lemma MatchIdsAtMostOne<K, L>(dim: seq<DimRow<K, L>>, k: Option<K>)
    requires UniqueKeys(dim)
    ensures |MatchIds(dim, k)| <= 1
  {
    if i :| 0 <= i < |dim| && Some(dim[i].key) == k {
      WithKeyAt(dim, k, i);
    } else {
      WithKeyNone(dim, k);
    }
  }

  /** The foreign key a row receives from a join that does not fan out: the
      id of the first matching row, or NULL. */
  function Lookup<K(==), L>(dim: seq<DimRow<K, L>>, k: Option<K>): (id: Option<int>)
    ensures id.Some? <==> MatchIds(dim, k) != []
    ensures id.Some? ==> id.value in MatchIds(dim, k)
  {
    if MatchIds(dim, k) == [] then None else Some(MatchIds(dim, k)[0])
  }

  /** The foreign keys `LEFT JOIN` pairs a row with: one per matching row, or
      a single NULL when nothing matches. */
  function LeftJoinIds<K(==), L>(dim: seq<DimRow<K, L>>, k: Option<K>): (ids: seq<Option<int>>)
    ensures |ids| == if MatchIds(dim, k) == [] then 1 else |MatchIds(dim, k)|
    ensures MatchIds(dim, k) == [] ==> ids == [None]
    ensures forall i :: 0 <= i < |ids| && MatchIds(dim, k) != [] ==> ids[i] == Some(MatchIds(dim, k)[i])
  {
    if MatchIds(dim, k) == [] then [None] else Map(MatchIds(dim, k), (id: int) => Some(id))
  }

  /** One `LEFT JOIN dim ON key(e) = dim.key` over the rows built so far;
      `attach` stores the joined id in its foreign-key column. */
  function JoinStep<K(==), L>(facts: seq<Fact>, dim: seq<DimRow<K, L>>, key: Exoplanet -> Option<K>,
                              attach: (Fact, Option<int>) -> Fact): seq<Fact>
  {
    FlatMap(facts, (f: Fact) => Map(LeftJoinIds(dim, key(f.row)), (id: Option<int>) => attach(f, id)))
  }

  /** `e.*` before any join: every foreign key still absent. */
  function Unjoined(e: Exoplanet): Fact
  {
    Fact(e, None, None, None, None, None, None, None, None, None)
  }

  /** The first eight joins, in the order the statement lists them. */
  function JoinCategorical(rows: seq<Exoplanet>, dims: Dimensions): seq<Fact>
  {
    var s0 := Map(rows, Unjoined);
    var s1 := JoinStep(s0, dims.planetType, PlanetTypeKey, (f: Fact, id: Option<int>) => f.(planetTypeId := id));
    var s2 := JoinStep(s1, dims.detectionMethod, DetectionMethodKey, (f: Fact, id: Option<int>) => f.(detectionMethodId := id));
    var s3 := JoinStep(s2, dims.stellarType, StellarTypeKey, (f: Fact, id: Option<int>) => f.(stellarTypeId := id));
    var s4 := JoinStep(s3, dims.massCategory, MassKey, (f: Fact, id: Option<int>) => f.(massCategoryId := id));
    var s5 := JoinStep(s4, dims.distanceCategory, DistanceKey, (f: Fact, id: Option<int>) => f.(distanceCategoryId := id));
    var s6 := JoinStep(s5, dims.orbitCategory, OrbitKey, (f: Fact, id: Option<int>) => f.(orbitCategoryId := id));
    var s7 := JoinStep(s6, dims.brightnessCategory, BrightnessKey, (f: Fact, id: Option<int>) => f.(brightnessCategoryId := id));
    JoinStep(s7, dims.discoveryEra, EraKey, (f: Fact, id: Option<int>) => f.(discoveryEraId := id))
  }

  /** All nine joins: the last one matches on `CAST(releasedate AS DATE)`. */
  function Assemble(rows: seq<Exoplanet>, dims: Dimensions, cast: string -> Date): seq<Fact>
  {
    JoinStep(JoinCategorical(rows, dims), dims.date, (e: Exoplanet) => DateKey(e, cast),
      (f: Fact, id: Option<int>) => f.(dateId := id))
  }

  /** The row of `e` after the first eight joins when none of them fans out. */
  function ResolveCategorical(e: Exoplanet, dims: Dimensions): Fact
  {
    Fact(e,
      Lookup(dims.planetType, PlanetTypeKey(e)),
      Lookup(dims.detectionMethod, DetectionMethodKey(e)),
      Lookup(dims.stellarType, StellarTypeKey(e)),
      Lookup(dims.massCategory, MassKey(e)),
      Lookup(dims.distanceCategory, DistanceKey(e)),
      Lookup(dims.orbitCategory, OrbitKey(e)),
      Lookup(dims.brightnessCategory, BrightnessKey(e)),
      Lookup(dims.discoveryEra, EraKey(e)),
      None)
  }

  /** The fact row of `e` when no join fans out. */
  function Resolve(e: Exoplanet, dims: Dimensions, cast: string -> Date): Fact
  {
    ResolveCategorical(e, dims).(dateId := Lookup(dims.date, DateKey(e, cast)))
  }

  /** A join against a dimension with unique keys neither adds nor drops a
      row: row `i` comes out once, with the id of its match or NULL. */
  lemma JoinStepUnique<K, L>(facts: seq<Fact>, dim: seq<DimRow<K, L>>, key: Exoplanet -> Option<K>,
                                 attach: (Fact, Option<int>) -> Fact)
    requires UniqueKeys(dim)
    ensures |JoinStep(facts, dim, key, attach)| == |facts|
    ensures forall i :: 0 <= i < |facts| ==>
      JoinStep(facts, dim, key, attach)[i] == attach(facts[i], Lookup(dim, key(facts[i].row)))
  {
    var f := (f: Fact) => Map(LeftJoinIds(dim, key(f.row)), (id: Option<int>) => attach(f, id));
    forall x | x in facts
      ensures |f(x)| == 1
    {
      MatchIdsAtMostOne(dim, key(x.row));
    }
    FlatMapExactlyOne(facts, f);
  }

  /** A row whose key matches two dimension rows comes out twice: the join
      has more rows than its input. */
  lemma JoinStepFanOut<K, L>(facts: seq<Fact>, dim: seq<DimRow<K, L>>, key: Exoplanet -> Option<K>,
                                 attach: (Fact, Option<int>) -> Fact, n: int, i: int, j: int)
    requires 0 <= n < |facts| && 0 <= i < j < |dim|
    requires Some(dim[i].key) == key(facts[n].row) && Some(dim[j].key) == key(facts[n].row)
    ensures |JoinStep(facts, dim, key, attach)| > |facts|
  {
    var f := (f: Fact) => Map(LeftJoinIds(dim, key(f.row)), (id: Option<int>) => attach(f, id));
    WithKeyTwo(dim, key(facts[n].row), i, j);
    assert facts[n] in facts && |f(facts[n])| >= 2;
    forall x | x in facts
      ensures |f(x)| >= 1
    {
      assert |LeftJoinIds(dim, key(x.row))| >= 1;
    }
    FlatMapAtLeastOne(facts, f);
  }

  /** The original rows `e.*` a table of facts carries. */
  function RowSet(facts: seq<Fact>): (rows: set<Exoplanet>)
    ensures forall f :: f in facts ==> f.row in rows
    ensures forall e :: e in rows ==> exists f :: f in facts && f.row == e
  {
    set f | f in facts :: f.row
  }

  /** Whatever the dimension holds, a `LEFT JOIN` that only fills in a
      foreign key keeps every row: each input row comes out at least once
      with its columns unchanged, and no other row comes out. */
  lemma JoinStepKeepsEveryRow<K, L>(facts: seq<Fact>, dim: seq<DimRow<K, L>>, key: Exoplanet -> Option<K>,
                                    attach: (Fact, Option<int>) -> Fact)
    requires forall f: Fact, id: Option<int> :: attach(f, id).row == f.row
    ensures |JoinStep(facts, dim, key, attach)| >= |facts|
    ensures RowSet(JoinStep(facts, dim, key, attach)) == RowSet(facts)
  {
    var f := (f: Fact) => Map(LeftJoinIds(dim, key(f.row)), (id: Option<int>) => attach(f, id));
    forall x | x in facts
      ensures |f(x)| >= 1
    {
      assert |LeftJoinIds(dim, key(x.row))| >= 1;
    }
    FlatMapAtLeastOne(facts, f);
    forall e | e in RowSet(JoinStep(facts, dim, key, attach))
      ensures e in RowSet(facts)
    {
      var g :| g in JoinStep(facts, dim, key, attach) && g.row == e;
      FlatMapMembers(facts, f, g);
      var x :| x in facts && g in f(x);
      var k :| 0 <= k < |f(x)| && f(x)[k] == g;
      assert |f(x)| == |LeftJoinIds(dim, key(x.row))|;
      assert g == attach(x, LeftJoinIds(dim, key(x.row))[k]);
    }
    forall e | e in RowSet(facts)
      ensures e in RowSet(JoinStep(facts, dim, key, attach))
    {
      var x :| x in facts && x.row == e;
      var g := f(x)[0];
      FlatMapMembers(facts, f, g);
    }
  }

  /** Whatever the dimensions hold, the nine `LEFT JOIN`s lose no row of
      `exoplanets` and invent none: every row comes out with its columns
      unchanged, every fact carries some row, and the fact table is at least
      as long as `exoplanets`. */
  lemma AssembleKeepsEveryRow(rows: seq<Exoplanet>, dims: Dimensions, cast: string -> Date)
    ensures |Assemble(rows, dims, cast)| >= |rows|
    ensures forall e :: e in rows ==> exists f :: f in Assemble(rows, dims, cast) && f.row == e
    ensures forall f :: f in Assemble(rows, dims, cast) ==> f.row in rows
  {
    JoinCategoricalKeepsEveryRow(rows, dims);
    JoinStepKeepsEveryRow(JoinCategorical(rows, dims), dims.date, (e: Exoplanet) => DateKey(e, cast),
      (f: Fact, id: Option<int>) => f.(dateId := id));
    assert RowSet(Assemble(rows, dims, cast)) == Elements(rows);
    forall e | e in rows
      ensures exists f :: f in Assemble(rows, dims, cast) && f.row == e
    {
      assert e in RowSet(Assemble(rows, dims, cast));
    }
  }

  /** The first eight joins keep every row of `exoplanets`, whatever the
      dimensions hold. */
  lemma JoinCategoricalKeepsEveryRow(rows: seq<Exoplanet>, dims: Dimensions)
    ensures |JoinCategorical(rows, dims)| >= |rows|
    ensures RowSet(JoinCategorical(rows, dims)) == Elements(rows)
  {
    var s0 := Map(rows, Unjoined);
    assert RowSet(s0) == Elements(rows) by {
      forall e | e in rows
        ensures e in RowSet(s0)
      {
        var i :| 0 <= i < |rows| && rows[i] == e;
        assert s0[i].row == e;
      }
    }
    var s1 := JoinStep(s0, dims.planetType, PlanetTypeKey, (f: Fact, id: Option<int>) => f.(planetTypeId := id));
    JoinStepKeepsEveryRow(s0, dims.planetType, PlanetTypeKey, (f: Fact, id: Option<int>) => f.(planetTypeId := id));
    var s2 := JoinStep(s1, dims.detectionMethod, DetectionMethodKey, (f: Fact, id: Option<int>) => f.(detectionMethodId := id));
    JoinStepKeepsEveryRow(s1, dims.detectionMethod, DetectionMethodKey, (f: Fact, id: Option<int>) => f.(detectionMethodId := id));
    var s3 := JoinStep(s2, dims.stellarType, StellarTypeKey, (f: Fact, id: Option<int>) => f.(stellarTypeId := id));
    JoinStepKeepsEveryRow(s2, dims.stellarType, StellarTypeKey, (f: Fact, id: Option<int>) => f.(stellarTypeId := id));
    var s4 := JoinStep(s3, dims.massCategory, MassKey, (f: Fact, id: Option<int>) => f.(massCategoryId := id));
    JoinStepKeepsEveryRow(s3, dims.massCategory, MassKey, (f: Fact, id: Option<int>) => f.(massCategoryId := id));
    var s5 := JoinStep(s4, dims.distanceCategory, DistanceKey, (f: Fact, id: Option<int>) => f.(distanceCategoryId := id));
    JoinStepKeepsEveryRow(s4, dims.distanceCategory, DistanceKey, (f: Fact, id: Option<int>) => f.(distanceCategoryId := id));
    var s6 := JoinStep(s5, dims.orbitCategory, OrbitKey, (f: Fact, id: Option<int>) => f.(orbitCategoryId := id));
    JoinStepKeepsEveryRow(s5, dims.orbitCategory, OrbitKey, (f: Fact, id: Option<int>) => f.(orbitCategoryId := id));
    var s7 := JoinStep(s6, dims.brightnessCategory, BrightnessKey, (f: Fact, id: Option<int>) => f.(brightnessCategoryId := id));
    JoinStepKeepsEveryRow(s6, dims.brightnessCategory, BrightnessKey, (f: Fact, id: Option<int>) => f.(brightnessCategoryId := id));
    var s8 := JoinStep(s7, dims.discoveryEra, EraKey, (f: Fact, id: Option<int>) => f.(discoveryEraId := id));
    JoinStepKeepsEveryRow(s7, dims.discoveryEra, EraKey, (f: Fact, id: Option<int>) => f.(discoveryEraId := id));
    assert s8 == JoinCategorical(rows, dims);
  }

  /** The first eight dimensions having unique keys, the first eight joins
      keep the row count and order of `exoplanets`. */
  lemma JoinCategoricalResolves(rows: seq<Exoplanet>, dims: Dimensions)
    requires UniqueKeys(dims.planetType) && UniqueKeys(dims.detectionMethod) && UniqueKeys(dims.stellarType)
    requires UniqueKeys(dims.massCategory) && UniqueKeys(dims.distanceCategory) && UniqueKeys(dims.orbitCategory)
    requires UniqueKeys(dims.brightnessCategory) && UniqueKeys(dims.discoveryEra)
    ensures |JoinCategorical(rows, dims)| == |rows|
    ensures forall i :: 0 <= i < |rows| ==> JoinCategorical(rows, dims)[i] == ResolveCategorical(rows[i], dims)
  {
    var s0 := Map(rows, Unjoined);
    var s1 := JoinStep(s0, dims.planetType, PlanetTypeKey, (f: Fact, id: Option<int>) => f.(planetTypeId := id));
    JoinStepUnique(s0, dims.planetType, PlanetTypeKey, (f: Fact, id: Option<int>) => f.(planetTypeId := id));
    var s2 := JoinStep(s1, dims.detectionMethod, DetectionMethodKey, (f: Fact, id: Option<int>) => f.(detectionMethodId := id));
    JoinStepUnique(s1, dims.detectionMethod, DetectionMethodKey, (f: Fact, id: Option<int>) => f.(detectionMethodId := id));
    var s3 := JoinStep(s2, dims.stellarType, StellarTypeKey, (f: Fact, id: Option<int>) => f.(stellarTypeId := id));
    JoinStepUnique(s2, dims.stellarType, StellarTypeKey, (f: Fact, id: Option<int>) => f.(stellarTypeId := id));
    var s4 := JoinStep(s3, dims.massCategory, MassKey, (f: Fact, id: Option<int>) => f.(massCategoryId := id));
    JoinStepUnique(s3, dims.massCategory, MassKey, (f: Fact, id: Option<int>) => f.(massCategoryId := id));
    var s5 := JoinStep(s4, dims.distanceCategory, DistanceKey, (f: Fact, id: Option<int>) => f.(distanceCategoryId := id));
    JoinStepUnique(s4, dims.distanceCategory, DistanceKey, (f: Fact, id: Option<int>) => f.(distanceCategoryId := id));
    var s6 := JoinStep(s5, dims.orbitCategory, OrbitKey, (f: Fact, id: Option<int>) => f.(orbitCategoryId := id));
    JoinStepUnique(s5, dims.orbitCategory, OrbitKey, (f: Fact, id: Option<int>) => f.(orbitCategoryId := id));
    var s7 := JoinStep(s6, dims.brightnessCategory, BrightnessKey, (f: Fact, id: Option<int>) => f.(brightnessCategoryId := id));
    JoinStepUnique(s6, dims.brightnessCategory, BrightnessKey, (f: Fact, id: Option<int>) => f.(brightnessCategoryId := id));
    var s8 := JoinStep(s7, dims.discoveryEra, EraKey, (f: Fact, id: Option<int>) => f.(discoveryEraId := id));
    JoinStepUnique(s7, dims.discoveryEra, EraKey, (f: Fact, id: Option<int>) => f.(discoveryEraId := id));
    assert s8 == JoinCategorical(rows, dims);
  }

  /** When every dimension has unique keys the assembly keeps the row count
      and order of `exoplanets`, and row `i` is `e.*` of row `i` with its
      nine looked-up ids. */
  lemma AssembleResolves(rows: seq<Exoplanet>, dims: Dimensions, cast: string -> Date)
    requires UniqueKeys(dims.planetType) && UniqueKeys(dims.detectionMethod) && UniqueKeys(dims.stellarType)
    requires UniqueKeys(dims.massCategory) && UniqueKeys(dims.distanceCategory) && UniqueKeys(dims.orbitCategory)
    requires UniqueKeys(dims.brightnessCategory) && UniqueKeys(dims.discoveryEra) && UniqueKeys(dims.date)
    ensures |Assemble(rows, dims, cast)| == |rows|
    ensures forall i :: 0 <= i < |rows| ==> Assemble(rows, dims, cast)[i] == Resolve(rows[i], dims, cast)
  {
    JoinCategoricalResolves(rows, dims);
    JoinStepUnique(JoinCategorical(rows, dims), dims.date, (e: Exoplanet) => DateKey(e, cast),
      (f: Fact, id: Option<int>) => f.(dateId := id));
  }

  /** The foreign key `id` that a row with natural key `k` holds refers to
      the dimension: it is NULL exactly when `k` is, and otherwise names the
      one row (at position `id - 1`) whose key is `k`, carrying the label of
      `k`. */
  ghost predicate ResolvesTo<K, L>(dim: seq<DimRow<K, L>>, k: Option<K>, id: Option<int>, derive: K -> L)
  {
    && (id.Some? <==> k.Some?)
    && (id.Some? ==>
          && 1 <= id.value <= |dim|
          && dim[id.value - 1].id == id.value
          && Some(dim[id.value - 1].key) == k
          && dim[id.value - 1].derived == derive(k.value))
  }

  /** A lookup of a value present in a dimension finds its row. */
  lemma LookupInDimension<K, L>(dim: seq<DimRow<K, L>>, values: set<K>, derive: K -> L, k: Option<K>)
    requires IsDimension(dim, values, derive)
    requires k.Some? ==> k.value in values
    ensures UniqueKeys(dim)
    ensures ResolvesTo(dim, k, Lookup(dim, k), derive)
  {
    if k.Some? {
      assert k.value in (set r | r in dim :: r.key);
      var i :| 0 <= i < |dim| && dim[i].key == k.value;
      MatchIdsAt(dim, k, i);
      assert dim[i] in dim;
    }
  }

  /** A non-null value of a row is one of the values of its column. */
  lemma InColumn<K>(rows: seq<Exoplanet>, key: Exoplanet -> Option<K>, i: int)
    requires 0 <= i < |rows|
    ensures key(rows[i]).Some? ==> key(rows[i]).value in NonNull(Column(rows, key))
  {
    assert Column(rows, key)[i] in Column(rows, key);
  }

  /** The assembled fact table, built on dimensions made from `exoplanets`
      itself, keeps every row once and in place, and every foreign key
      refers to the dimension row of its value, or is NULL exactly when the
      value is.  The date key needs the engine to cast different release
      strings to different dates. */
  lemma AssembleSpec(rows: seq<Exoplanet>, orders: DistinctOrders, cast: string -> Date, i: int)
    requires OrdersOf(orders, rows)
    requires InjectiveOn(cast, NonNull(Column(rows, ReleaseDateKey)))
    requires 0 <= i < |rows|
    ensures var dims := BuildAll(orders, cast);
      var facts := Assemble(rows, dims, cast);
      && |facts| == |rows|
      && facts[i].row == rows[i]
      && ResolvesTo(dims.planetType, PlanetTypeKey(rows[i]), facts[i].planetTypeId, NoDerived)
      && ResolvesTo(dims.detectionMethod, DetectionMethodKey(rows[i]), facts[i].detectionMethodId, NoDerived)
      && ResolvesTo(dims.stellarType, StellarTypeKey(rows[i]), facts[i].stellarTypeId, StellarTypeLabel)
      && ResolvesTo(dims.massCategory, MassKey(rows[i]), facts[i].massCategoryId, Categorizer.MassCategory)
      && ResolvesTo(dims.distanceCategory, DistanceKey(rows[i]), facts[i].distanceCategoryId, Categorizer.DistanceCategory)
      && ResolvesTo(dims.orbitCategory, OrbitKey(rows[i]), facts[i].orbitCategoryId, Categorizer.OrbitCategory)
      && ResolvesTo(dims.brightnessCategory, BrightnessKey(rows[i]), facts[i].brightnessCategoryId, Categorizer.BrightnessCategory)
      && ResolvesTo(dims.discoveryEra, EraKey(rows[i]), facts[i].discoveryEraId, Categorizer.DiscoveryEra)
      && ResolvesTo(dims.date, DateKey(rows[i], cast), facts[i].dateId, NoDerived)
  {
    var dims := BuildAll(orders, cast);
    var e := rows[i];
    BuildAllDimensions(rows, orders, cast);
    DateDimension(rows, orders.releaseDate, cast);
    InColumn(rows, PlanetTypeKey, i);
    LookupInDimension(dims.planetType, NonNull(Column(rows, PlanetTypeKey)), NoDerived, PlanetTypeKey(e));
    InColumn(rows, DetectionMethodKey, i);
    LookupInDimension(dims.detectionMethod, NonNull(Column(rows, DetectionMethodKey)), NoDerived, DetectionMethodKey(e));
    InColumn(rows, StellarTypeKey, i);
    LookupInDimension(dims.stellarType, NonNull(Column(rows, StellarTypeKey)), StellarTypeLabel, StellarTypeKey(e));
    InColumn(rows, MassKey, i);
    LookupInDimension(dims.massCategory, NonNull(Column(rows, MassKey)), Categorizer.MassCategory, MassKey(e));
    InColumn(rows, DistanceKey, i);
    LookupInDimension(dims.distanceCategory, NonNull(Column(rows, DistanceKey)), Categorizer.DistanceCategory, DistanceKey(e));
    InColumn(rows, OrbitKey, i);
    LookupInDimension(dims.orbitCategory, NonNull(Column(rows, OrbitKey)), Categorizer.OrbitCategory, OrbitKey(e));
    InColumn(rows, BrightnessKey, i);
    LookupInDimension(dims.brightnessCategory, NonNull(Column(rows, BrightnessKey)), Categorizer.BrightnessCategory, BrightnessKey(e));
    InColumn(rows, EraKey, i);
    LookupInDimension(dims.discoveryEra, NonNull(Column(rows, EraKey)), Categorizer.DiscoveryEra, EraKey(e));
    InColumn(rows, e => DateKey(e, cast), i);
    LookupInDimension(dims.date, NonNull(Column(rows, e => DateKey(e, cast))), NoDerived, DateKey(e, cast));
    AssembleResolves(rows, dims, cast);
  }

  /** On dimensions built from `exoplanets` itself, with a date cast that
      keeps distinct release strings apart, the assembly gives exactly one
      fact per row of `exoplanets`, carrying its original columns (row `i`
      in the model's join order). */
  lemma AssembleKeepsRows(rows: seq<Exoplanet>, orders: DistinctOrders, cast: string -> Date)
    requires OrdersOf(orders, rows)
    requires InjectiveOn(cast, NonNull(Column(rows, ReleaseDateKey)))
    ensures |Assemble(rows, BuildAll(orders, cast), cast)| == |rows|
    ensures forall i :: 0 <= i < |rows| ==> Assemble(rows, BuildAll(orders, cast), cast)[i].row == rows[i]
  {
    var dims := BuildAll(orders, cast);
    BuildAllDimensions(rows, orders, cast);
    DateDimension(rows, orders.releaseDate, cast);
    LookupInDimension(dims.planetType, NonNull(Column(rows, PlanetTypeKey)), NoDerived, None);
    LookupInDimension(dims.detectionMethod, NonNull(Column(rows, DetectionMethodKey)), NoDerived, None);
    LookupInDimension(dims.stellarType, NonNull(Column(rows, StellarTypeKey)), StellarTypeLabel, None);
    LookupInDimension(dims.massCategory, NonNull(Column(rows, MassKey)), Categorizer.MassCategory, None);
    LookupInDimension(dims.distanceCategory, NonNull(Column(rows, DistanceKey)), Categorizer.DistanceCategory, None);
    LookupInDimension(dims.orbitCategory, NonNull(Column(rows, OrbitKey)), Categorizer.OrbitCategory, None);
    LookupInDimension(dims.brightnessCategory, NonNull(Column(rows, BrightnessKey)), Categorizer.BrightnessCategory, None);
    LookupInDimension(dims.discoveryEra, NonNull(Column(rows, EraKey)), Categorizer.DiscoveryEra, None);
    LookupInDimension(dims.date, NonNull(Column(rows, e => DateKey(e, cast))), NoDerived, None);
    AssembleResolves(rows, dims, cast);
  }

  /** When two different release strings of `exoplanets` cast to the same
      date, `dim_date` holds that date twice and the date join fans out: the
      assembled table has more rows than `exoplanets`. */
  lemma AssembleDateFanOut(rows: seq<Exoplanet>, orders: DistinctOrders, cast: string -> Date, n: int, b: string)
    requires OrdersOf(orders, rows)
    requires 0 <= n < |rows| && rows[n].releaseDate.Some?
    requires b in NonNull(Column(rows, ReleaseDateKey))
    requires b != rows[n].releaseDate.value && cast(b) == cast(rows[n].releaseDate.value)
    ensures |Assemble(rows, BuildAll(orders, cast), cast)| > |rows|
  {
    var dims := BuildAll(orders, cast);
    var a := rows[n].releaseDate.value;
    BuildAllDimensions(rows, orders, cast);
    LookupInDimension(dims.planetType, NonNull(Column(rows, PlanetTypeKey)), NoDerived, None);
    LookupInDimension(dims.detectionMethod, NonNull(Column(rows, DetectionMethodKey)), NoDerived, None);
    LookupInDimension(dims.stellarType, NonNull(Column(rows, StellarTypeKey)), StellarTypeLabel, None);
    LookupInDimension(dims.massCategory, NonNull(Column(rows, MassKey)), Categorizer.MassCategory, None);
    LookupInDimension(dims.distanceCategory, NonNull(Column(rows, DistanceKey)), Categorizer.DistanceCategory, None);
    LookupInDimension(dims.orbitCategory, NonNull(Column(rows, OrbitKey)), Categorizer.OrbitCategory, None);
    LookupInDimension(dims.brightnessCategory, NonNull(Column(rows, BrightnessKey)), Categorizer.BrightnessCategory, None);
    LookupInDimension(dims.discoveryEra, NonNull(Column(rows, EraKey)), Categorizer.DiscoveryEra, None);
    JoinCategoricalResolves(rows, dims);
    var s8 := JoinCategorical(rows, dims);
    InColumn(rows, ReleaseDateKey, n);
    assert a in orders.releaseDate && b in orders.releaseDate by {
      assert a in Elements(orders.releaseDate) && b in Elements(orders.releaseDate);
    }
    DateKeysRepeat(orders.releaseDate, cast, a, b);
    var i, j :| 0 <= i < j < |dims.date| && dims.date[i].key == cast(a) && dims.date[j].key == cast(a);
    JoinStepFanOut(s8, dims.date, (e: Exoplanet) => DateKey(e, cast), (f: Fact, id: Option<int>) => f.(dateId := id), n, i, j);
  }
}
