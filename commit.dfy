/** The ETL script as the sequence of statements it sends over one engine
    connection: the enriched `exoplanets` table, the nine dimension tables,
    and the fact assembly that replaces `exoplanets`. */
module Commit {
  import opened Sql
  import opened Schema
  import opened SourceLoader
  import opened DimensionBuilder
  import opened FactAssembler

  /** The `exoplanets` table: not created yet, as created by the enrichment
      join, or as replaced by the fact assembly. */
  datatype ExoplanetsTable = Absent | Enriched(rows: seq<Exoplanet>) | Assembled(facts: seq<Fact>)

  /** The columns `e.*` of `exoplanets` that the dimension statements read. */
  function BaseRows(t: ExoplanetsTable): (rows: seq<Exoplanet>)
    ensures t.Enriched? ==> rows == t.rows
    ensures t.Assembled? ==> |rows| == |t.facts| && forall i :: 0 <= i < |rows| ==> rows[i] == t.facts[i].row
    ensures t.Absent? ==> rows == []
  {
    match t
    case Absent => []
    case Enriched(rows) => rows
    case Assembled(facts) => Map(facts, (f: Fact) => f.row)
  }

  /** One engine connection and the tables the script creates on it. */
  class Connection {
    /** `CAST(... AS DATE)` as this engine evaluates it. */
    const castDate: string -> Date
    var exoplanets: ExoplanetsTable
    /** The nine `dim_*` tables, once created. */
    var dimensions: Option<Dimensions>

    constructor (castDate: string -> Date)
      ensures this.castDate == castDate
      ensures exoplanets == Absent && dimensions == None
    {
      this.castDate := castDate;
      exoplanets := Absent;
      dimensions := None;
    }

    /** `CREATE TABLE exoplanets AS SELECT e.*, n.pl_pubdate, n.releasedate
        FROM <primary> e LEFT JOIN <supplementary> n ON LOWER(e.name) =
        LOWER(n.pl_name)`; a plain `CREATE TABLE` fails when the table
        already exists. */
    method CreateExoplanets(primary: seq<Planet>, publications: seq<Publication>) returns (created: bool)
      modifies this
      ensures created <==> old(exoplanets).Absent?
      ensures created ==> exoplanets == Enriched(Enrich(primary, publications))
      ensures !created ==> exoplanets == old(exoplanets)
      ensures dimensions == old(dimensions)
    {
      if exoplanets.Absent? {
        exoplanets := Enriched(Enrich(primary, publications));
        created := true;
      } else {
        created := false;
      }
    }

    /** The nine `CREATE OR REPLACE TABLE dim_*` statements; each fails when
        `exoplanets` does not exist.  The engine lists each `DISTINCT`
        subquery in an order of its own, so the contract names the tables up
        to that order. */
    method CreateDimensions() returns (created: bool)
      modifies this
      ensures created <==> !old(exoplanets).Absent?
      ensures exoplanets == old(exoplanets)
      ensures created ==> (dimensions.Some? &&
        exists orders :: OrdersOf(orders, BaseRows(exoplanets)) && dimensions.value == BuildAll(orders, castDate))
      ensures !created ==> dimensions == old(dimensions)
    {
      if exoplanets.Absent? {
        return false;
      }
      var rows := BaseRows(exoplanets);
      var planetType := EmitDistinct(Column(rows, PlanetTypeKey));
      var detectionMethod := EmitDistinct(Column(rows, DetectionMethodKey));
      var stellarType := EmitDistinct(Column(rows, StellarTypeKey));
      var mass := EmitDistinct(Column(rows, MassKey));
      var distance := EmitDistinct(Column(rows, DistanceKey));
      var orbit := EmitDistinct(Column(rows, OrbitKey));
      var brightness := EmitDistinct(Column(rows, BrightnessKey));
      var era := EmitDistinct(Column(rows, EraKey));
      var releaseDate := EmitDistinct(Column(rows, ReleaseDateKey));
      var orders := DistinctOrders(planetType, detectionMethod, stellarType, mass, distance, orbit,
                                   brightness, era, releaseDate);
      assert OrdersOf(orders, rows);
      dimensions := Some(BuildAll(orders, castDate));
      created := true;
    }

    /** `CREATE OR REPLACE TABLE exoplanets AS SELECT e.*, <nine ids> FROM
        exoplanets e LEFT JOIN ...`; it fails while a table it reads is
        missing.  The script runs it once, on the enriched table. */
    method AssembleFacts() returns (assembled: bool)
      requires !exoplanets.Assembled?
      modifies this
      ensures dimensions == old(dimensions)
      ensures assembled <==> old(exoplanets).Enriched? && old(dimensions).Some?
      ensures assembled ==> exoplanets == Assembled(Assemble(old(exoplanets).rows, dimensions.value, castDate))
      ensures !assembled ==> exoplanets == old(exoplanets)
    {
      if exoplanets.Enriched? && dimensions.Some? {
        exoplanets := Assembled(Assemble(exoplanets.rows, dimensions.value, castDate));
        assembled := true;
      } else {
        assembled := false;
      }
    }
  }

  /** The whole script on a fresh connection: every statement succeeds, and
      the fact table is the assembly of the enriched catalog against
      dimensions built from it. */
  method RunScript(primary: seq<Planet>, publications: seq<Publication>, castDate: string -> Date)
    returns (conn: Connection)
    ensures fresh(conn)
    ensures conn.castDate == castDate
    ensures conn.dimensions.Some? && conn.exoplanets.Assembled?
    ensures exists orders ::
      (OrdersOf(orders, Enrich(primary, publications)) &&
       conn.dimensions.value == BuildAll(orders, castDate) &&
       conn.exoplanets.facts == Assemble(Enrich(primary, publications), BuildAll(orders, castDate), castDate))
  {
    conn := new Connection(castDate);
    var created := conn.CreateExoplanets(primary, publications);
    var built := conn.CreateDimensions();
    var assembled := conn.AssembleFacts();
  }

  /** When the supplementary catalog's lowered names are unique and the
      engine casts different release strings to different dates, the final
      fact table has one row per planet of the primary catalog, carrying
      its columns unchanged (row `i` in the model's join order). */
  lemma ScriptKeepsCatalog(primary: seq<Planet>, publications: seq<Publication>, orders: DistinctOrders,
                           castDate: string -> Date)
    requires UniqueLoweredNames(publications)
    requires OrdersOf(orders, Enrich(primary, publications))
    requires InjectiveOn(castDate, NonNull(Column(Enrich(primary, publications), ReleaseDateKey)))
    ensures |Assemble(Enrich(primary, publications), BuildAll(orders, castDate), castDate)| == |primary|
    ensures forall i :: 0 <= i < |primary| ==>
      Assemble(Enrich(primary, publications), BuildAll(orders, castDate), castDate)[i].row.planet == primary[i]
  {
    EnrichNoFanOut(primary, publications);
    AssembleKeepsRows(Enrich(primary, publications), orders, castDate);
  }
}
