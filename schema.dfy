/** The tables of the star schema.  Every nullable column is an `Option`. */
module Schema {
  import opened Sql

  /** The engine's `DATE` value; the model only compares dates for
      equality, so a day number stands for it. */
  datatype Date = Date(dayNumber: int)

  /** One row of the primary catalog: the columns the pipeline reads, and
      the remaining columns (mass_wrt, radius_multiplier, radius_wrt,
      orbital_radius, eccentricity), which no statement reads and `e.*`
      carries through unchanged. */
  datatype Planet = Planet(
    name: Option<string>,
    distance: Option<real>,
    stellarMagnitude: Option<real>,
    planetType: Option<string>,
    discoveryYear: Option<int>,
    massMultiplier: Option<real>,
    orbitalPeriod: Option<real>,
    detectionMethod: Option<string>,
    otherColumns: seq<Option<string>>)

  /** One row of the supplementary catalog: the join key and the two
      columns the enrichment keeps. */
  datatype Publication = Publication(
    plName: Option<string>,
    plPubdate: Option<string>,
    releaseDate: Option<string>)

  /** One row of `exoplanets` as first created: `e.*, n.pl_pubdate, n.releasedate`. */
  datatype Exoplanet = Exoplanet(
    planet: Planet,
    plPubdate: Option<string>,
    releaseDate: Option<string>)

  /** One row of a dimension table: the surrogate id, the natural key the
      row was built from, and the derived label (`()` for a dimension without
      one). */
  datatype DimRow<K, L> = DimRow(id: int, key: K, derived: L)

  /** The nine dimension tables. */
  datatype Dimensions = Dimensions(
    planetType: seq<DimRow<string, ()>>,
    detectionMethod: seq<DimRow<string, ()>>,
    stellarType: seq<DimRow<(real, real), string>>,
    massCategory: seq<DimRow<real, string>>,
    distanceCategory: seq<DimRow<real, string>>,
    orbitCategory: seq<DimRow<real, string>>,
    brightnessCategory: seq<DimRow<real, string>>,
    discoveryEra: seq<DimRow<int, string>>,
    date: seq<DimRow<Date, ()>>)

  /** One row of `exoplanets` after the fact assembly: `e.*` and one
      nullable foreign key per dimension. */
  datatype Fact = Fact(
    row: Exoplanet,
    planetTypeId: Option<int>,
    detectionMethodId: Option<int>,
    stellarTypeId: Option<int>,
    massCategoryId: Option<int>,
    distanceCategoryId: Option<int>,
    orbitCategoryId: Option<int>,
    brightnessCategoryId: Option<int>,
    discoveryEraId: Option<int>,
    dateId: Option<int>)
}
