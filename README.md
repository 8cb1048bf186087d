# Exoplanet star schema, modelled in Dafny

This project models a small batch ETL pipeline for an exoplanet catalog.
The pipeline is two Python scripts that send SQL to an embedded columnar engine.

`DLH_exoplanets_commit.py` does three things:

- It enriches the primary planet catalog with the publication and release
  dates of a supplementary catalog. This is a `LEFT JOIN` on the lowered names.
- It builds nine dimension tables. Each one takes the `DISTINCT` non-null
  values of one column (for stellar type, the `(distance, stellar_magnitude)`
  pair), numbers them with `ROW_NUMBER() OVER ()`, and for six of them
  (stellar type, mass, distance, orbit, brightness and discovery era) attaches
  a bucket label computed by a `CASE` expression.
- It replaces `exoplanets` with a fact table: nine `LEFT JOIN`s that each
  attach one surrogate key.

`DLH_exoplanets_storages_use.py` runs grouped-count queries over the fact
table and the dimensions: inner joins, `GROUP BY`, `COUNT(*)`, `ORDER BY`.

Tables are sequences of records, and SQL NULL is `Option`. Each statement is a function over tables. The script's own sequence of
statements is the class `Commit.Connection`, whose methods update the
`exoplanets` table and the set of dimensions.

The engine leaves some orders unspecified: the order in which `ROW_NUMBER() OVER ()` numbers a
`DISTINCT` subquery, and the order in which `GROUP BY` emits its groups. The model does not pin either one. Each is a parameter, and
every property holds for every order that lists each distinct value once
(`Sql.Enumerates`). `DimensionBuilder.EmitDistinct` shows that such an order
always exists. Under `ORDER BY`, the order among rows with equal sort keys is
not claimed.

Modules, in dependency order:

- `Sql`: option, map, filter, nested-loop join (`FlatMap`), counting.
- `Ordering`: sort keys, the `ORDER BY` comparison with NULLs last, and insertion sort.
- `Grouping`: `GROUP BY ... COUNT(*) ... ORDER BY`.
- `Categorizer`: the six `CASE` rules.
- `Schema`: the tables.
- `SourceLoader`: the enrichment join.
- `DimensionBuilder`: the nine dimension tables.
- `FactAssembler`: the fact assembly.
- `Commit`: the script as state changes on one connection.
- `Aggregator`: the analysis queries.

Three behaviours of the code are worth stating plainly:

- The fact-table joins on `planet_type` and `detection_method` compare
  strings exactly, case included. Only the enrichment join folds case.
- Surrogate keys come from an unordered `ROW_NUMBER() OVER ()`, so they can
  change between runs. The model proves what survives a rebuild: the same
  `(key, label)` pairs (`DimensionBuilder.RebuildSameContents`).
- Aggregate results are ordered only by the single `ORDER BY` column each
  query names.

Joins without `ORDER BY` come out in the model's nested-loop order: the rows
derived from the first input row, then those of the second, and so on. The
engine promises no such order. Members that speak of row `i` of a join's
output therefore describe the model's order; for the program itself, what
follows from them is the number of rows and which rows occur, each as often
as stated.

## Model

| member | source | states |
|---|---|---|
| Categorizer.MassCategory | DLH_exoplanets_commit.py:75-81 | the mass label is the label of the first strict threshold `0.1, 1, 5, 20` above the value, else 'Very High Mass' |
| Categorizer.DistanceCategory | DLH_exoplanets_commit.py:92-97 | the distance label is the first-match bucket of the thresholds `10, 100, 1000` |
| Categorizer.OrbitCategory | DLH_exoplanets_commit.py:108-113 | the period class is the first-match bucket of the thresholds `10, 100, 1000` |
| Categorizer.BrightnessCategory | DLH_exoplanets_commit.py:124-129 | the brightness label is the first-match bucket of the thresholds `5, 10, 15` |
| Categorizer.DiscoveryEra | DLH_exoplanets_commit.py:140-145 | the era is the first-match bucket of the years `2000, 2010, 2020` |
| Categorizer.BucketInterval | DLH_exoplanets_commit.py:75-81 | with increasing thresholds, first-match-wins with strict `<` puts a value in bucket `i` if and only if it lies in `[t[i-1], t[i])` |
| Categorizer.BucketMonotone | DLH_exoplanets_commit.py:75-81 | with increasing thresholds a larger value never gets a lower bucket |
| Categorizer.ThresholdRulesWellFormed | DLH_exoplanets_commit.py:75-145 | each of the five rules has increasing thresholds and one more label than thresholds |
| Categorizer.ThresholdRulesMonotone | DLH_exoplanets_commit.py:75-145 | each of the five rules is monotone in its input |
| Categorizer.MassIntervals | DLH_exoplanets_commit.py:75-81 | each mass label is produced exactly on its half-open interval, both directions |
| Categorizer.DistanceIntervals | DLH_exoplanets_commit.py:92-97 | each distance label is produced exactly on its half-open interval, both directions |
| Categorizer.OrbitIntervals | DLH_exoplanets_commit.py:108-113 | each period class is produced exactly on its half-open interval, both directions |
| Categorizer.BrightnessIntervals | DLH_exoplanets_commit.py:124-129 | each brightness label is produced exactly on its half-open interval, both directions |
| Categorizer.EraIntervals | DLH_exoplanets_commit.py:140-145 | each era is produced exactly on its year range, both directions |
| Categorizer.ThresholdRulesOnto | DLH_exoplanets_commit.py:75-145 | every listed label of every rule is produced by some input |
| Categorizer.ThresholdBoundaries | DLH_exoplanets_commit.py:75-145 | values on a threshold go to the bucket above: distance 10 is 'Close (<100 ly)', 1000 is 'Far (>1000 ly)', year 2010 is 'Kepler Era' |
| Categorizer.StellarBrightness | DLH_exoplanets_commit.py:58-64 | the stellar-type label is the label of the `BETWEEN` range the magnitude falls in first |
| Categorizer.StellarRank | DLH_exoplanets_commit.py:58-64 | the inclusive, overlapping ranges resolve to `(-inf,0)`, `[0,2]`, `(2,5]`, `(5,10]`, `(10,inf)`, both directions |
| Categorizer.StellarBrightnessMonotone | DLH_exoplanets_commit.py:58-64 | the stellar-type rule is monotone in the magnitude |
| Categorizer.StellarBoundaries | DLH_exoplanets_commit.py:58-64 | 0 and 2 are 'bright', 5 is 'moderate', 10 is 'dim', below 0 'very bright', above 10 'very dim' |
| Categorizer.BrightnessRulesDiffer | DLH_exoplanets_commit.py:58-129 | the stellar-type rule and the brightness-category rule are different partitions, neither refining the other |
| SourceLoader.LowerMatchesIgnoringCase | DLH_exoplanets_commit.py:19 | `LOWER(a) = LOWER(b)` holds exactly when the names have the same length and agree character by character up to the case of ASCII letters |
| SourceLoader.LowerIdempotent | DLH_exoplanets_commit.py:19 | lowering twice is lowering once |
| SourceLoader.EnrichRow | DLH_exoplanets_commit.py:15-20 | a primary row yields one row per matching supplementary row carrying its dates, or one row with NULL dates when none matches |
| SourceLoader.EnrichKeepsEveryRow | DLH_exoplanets_commit.py:15-20 | the left join keeps every primary row unchanged, invents none, and never shrinks the table |
| SourceLoader.EnrichNoFanOut | DLH_exoplanets_commit.py:15-20 | with unique lowered `pl_name` values the result has one row per primary row (position `i` in the model's join order), carrying the dates of its match, or NULL dates when none matches |
| SourceLoader.EnrichFanOut | DLH_exoplanets_commit.py:15-20 | a name matching two supplementary rows makes the result longer than the primary catalog |
| SourceLoader.EnrichExample | DLH_exoplanets_commit.py:19 | names that differ only in case join |
| DimensionBuilder.StellarTypeKeyJoin | DLH_exoplanets_commit.py:186 | a row's stellar-type key equals the pair `(d, m)` exactly when its `distance` is `d` and its `stellar_magnitude` is `m`, so a NULL in either column joins nothing |
| DimensionBuilder.BuildIsDimension | DLH_exoplanets_commit.py:35-43 | numbering any duplicate-free listing of the distinct non-null values gives one row per value, unique keys, ids `1..n`, and each row labelled by its key |
| DimensionBuilder.EmitDistinct | DLH_exoplanets_commit.py:39-41 | `SELECT DISTINCT ... WHERE ... IS NOT NULL` lists each non-null value of the column exactly once |
| DimensionBuilder.BuildAllDimensions | DLH_exoplanets_commit.py:35-151 | the eight value-keyed dimensions are dimensions over their column's non-null values, labelled by their `CASE` rule, and stellar type over the non-null pairs |
| DimensionBuilder.RebuildSameContents | DLH_exoplanets_commit.py:37 | numbering in another order gives the same `(key, label)` pairs and size; only the ids can change |
| DimensionBuilder.DateValues | DLH_exoplanets_commit.py:157 | the non-null dates of the fact rows are the casts of the distinct raw release strings |
| DimensionBuilder.DateDimension | DLH_exoplanets_commit.py:153-167 | when distinct release strings cast to distinct dates, `dim_date` is a dimension over the fact rows' dates |
| DimensionBuilder.DateKeysRepeat | DLH_exoplanets_commit.py:157-166 | two distinct release strings with the same date put that date twice in `dim_date` |
| FactAssembler.MatchIdsAtMostOne | DLH_exoplanets_commit.py:184 | against a dimension with unique keys a join key matches at most one row |
| FactAssembler.JoinStepUnique | DLH_exoplanets_commit.py:184 | a `LEFT JOIN` on a unique key gives each input row exactly once (in the model's order, at its own position), with the id of its match or NULL |
| FactAssembler.JoinStepKeepsEveryRow | DLH_exoplanets_commit.py:184 | whatever the dimension holds, a `LEFT JOIN` that fills one foreign key keeps every input row with its columns unchanged and invents none |
| FactAssembler.JoinStepFanOut | DLH_exoplanets_commit.py:184 | a row whose key matches two dimension rows makes the join longer than its input |
| FactAssembler.JoinCategoricalResolves | DLH_exoplanets_commit.py:183-191 | the first eight joins over unique-key dimensions give each row once, with the looked-up ids attached (positions in the model's join order) |
| FactAssembler.AssembleResolves | DLH_exoplanets_commit.py:171-193 | over unique-key dimensions the fact table holds `e.*` of each row once, with its nine looked-up ids (positions in the model's join order) |
| FactAssembler.LookupInDimension | DLH_exoplanets_commit.py:184-192 | in a built dimension a lookup is NULL exactly for a NULL key, and otherwise names the row at `id - 1` with that key and its label |
| FactAssembler.AssembleSpec | DLH_exoplanets_commit.py:171-193 | on dimensions built from `exoplanets`, each fact row keeps its columns, and each foreign key is NULL exactly when its natural key is, else refers to the one row with that key |
| FactAssembler.AssembleKeepsRows | DLH_exoplanets_commit.py:171-193 | on dimensions built from `exoplanets` with an injective date cast, the fact table has exactly one row per row of `exoplanets`, carrying its columns (at its position in the model's order) |
| FactAssembler.AssembleKeepsEveryRow | DLH_exoplanets_commit.py:171-193 | whatever the dimensions hold, the nine `LEFT JOIN`s lose no row of `exoplanets` and invent none, keep every original column, and never shrink the table |
| FactAssembler.AssembleDateFanOut | DLH_exoplanets_commit.py:192 | two release strings casting to the same date make the assembled table longer than `exoplanets` |
| Commit.Connection.CreateExoplanets | DLH_exoplanets_commit.py:15-20 | `CREATE TABLE` creates the enriched table, or fails and changes nothing when it exists |
| Commit.Connection.CreateDimensions | DLH_exoplanets_commit.py:35-168 | the nine dimensions are built from the current `exoplanets` in some engine order, or the statements fail when it is missing |
| Commit.Connection.AssembleFacts | DLH_exoplanets_commit.py:171-193 | `CREATE OR REPLACE` replaces `exoplanets` with its assembly against the dimensions, or fails when a table is missing |
| Commit.RunScript | DLH_exoplanets_commit.py:15-193 | the script's statements in order succeed, and the fact table is the assembly of the enriched catalog against dimensions built from it |
| Commit.ScriptKeepsCatalog | DLH_exoplanets_commit.py:15-193 | with unique lowered names and an injective date cast, the final fact table has one row per planet of the primary catalog, carrying its columns (at its position in the model's order) |
| Ordering.SortBy | DLH_exoplanets_storages_use.py:53 | `ORDER BY` returns a permutation of its rows, sorted on the key |
| Grouping.AggregateCorrect | DLH_exoplanets_storages_use.py:43-55 | `GROUP BY` with `COUNT(*)` and `ORDER BY` gives one row per occurring group, each counting its joined rows, counts summing to the joined rows, sorted on the key |
| Aggregator.WithIdUnique | DLH_exoplanets_storages_use.py:169 | an inner join on a unique id matches one dimension row when the id is present, and none otherwise |
| Aggregator.CategorySummaryCountsDimensionRows | DLH_exoplanets_storages_use.py:32-37 | the summary counts dimension rows, so the counts add up to the size of `dim_distance_category`; labels ascend |
| Aggregator.EraByMethodGrouped | DLH_exoplanets_storages_use.py:43-55 | one row per `(era, method)` pair, `num_planets >= 1`, non-increasing `num_planets` |
| Aggregator.EraByMethodSum | DLH_exoplanets_storages_use.py:49-52 | the counts add up to the fact rows whose year is in `dim_discovery_era` and whose method id is in `dim_detection_method` |
| Aggregator.EraByMethodCountsPlanets | DLH_exoplanets_storages_use.py:43-55 | on the script's own tables the counts add up to the planets with a discovery year and a detection method |
| Aggregator.TimelineAscending | DLH_exoplanets_storages_use.py:76-87 | one row per discovery year, years strictly ascending |
| Aggregator.TimelineSum | DLH_exoplanets_storages_use.py:81-84 | the timeline counts only fact rows that also have a detection method id in its dimension |
| Aggregator.TypeByYearGrouped | DLH_exoplanets_storages_use.py:105-116 | one row per `(year, planet_type)` pair, NULL type included, years non-decreasing |
| Aggregator.TypeByYearSum | DLH_exoplanets_storages_use.py:111-113 | every fact row whose year is in `dim_discovery_era` is counted once |
| Aggregator.MethodByYearGrouped | DLH_exoplanets_storages_use.py:133-145 | one row per `(year, method)` pair, years non-decreasing |
| Aggregator.MethodByYearSum | DLH_exoplanets_storages_use.py:139-142 | the counts add up to the fact rows that reach both joins |
| Aggregator.DistanceByTypeGrouped | DLH_exoplanets_storages_use.py:162-173 | one row per `(distance category, planet_type)` pair, ordered by planet type with NULL last |
| Aggregator.DistanceByTypeSum | DLH_exoplanets_storages_use.py:168-170 | each fact row with a distance category id in the dimension counts once; a NULL id drops it |
| Aggregator.DistanceByBrightnessGrouped | DLH_exoplanets_storages_use.py:189-201 | one row per `(distance, brightness)` category pair, ordered by distance category |
| Aggregator.DistanceByBrightnessSum | DLH_exoplanets_storages_use.py:195-198 | each fact row reaching both joins counts once, any other row not at all |
| Aggregator.DistanceByBrightnessCountsPlanets | DLH_exoplanets_storages_use.py:189-201 | on the script's own tables the counts add up to the planets with a distance and a stellar magnitude |
| Aggregator.TypeByOrbitGrouped | DLH_exoplanets_storages_use.py:218-230 | one row per `(planet_type, period_class)` pair, ordered by planet type |
| Aggregator.TypeByOrbitSum | DLH_exoplanets_storages_use.py:224-227 | each fact row reaching both joins counts once, any other row not at all |

## Left out

- DLH_exoplanets.py: it only loads a CSV file and prints a query.
- Reading the CSV files and inferring their schema is engine I/O (DLH_exoplanets_commit.py:9-13, 18-19). The catalogs are inputs of the model.
- The `.show()`, `DESCRIBE` and `SHOW TABLES` prints and the printed query at DLH_exoplanets_commit.py:22-31, 195 and 206 are display only.
- The query at DLH_exoplanets_commit.py:198-204 reads a table (`nasa_exoplanets`) and a column (`release_date`) that the script never creates. Run as a script, it raises an exception there, so `SHOW TABLES` and the parquet `COPY` statements at DLH_exoplanets_commit.py:206-223 are never reached.
- The parquet `COPY ... TO` statements and the views read back from parquet are file I/O. The analysis stage reads parquet files that the commit script, as written, never gets to write, because it stops at the failing query above. The model assumes the files hold the tables the script builds, and treats persistence as the identity on tables (DLH_exoplanets_commit.py:208-223; DLH_exoplanets_storages_use.py:10-21).
- The printed join at DLH_exoplanets_storages_use.py:25-29 is display only. The `.head()` truncation of printed results is not modelled.
- Pivoting and plotting of the results is rendering.
- The derived `year`, `month`, `month_name`, `day` and `weekday_name` columns of `dim_date` are calls into the engine's date library. A date is an opaque value that the model only compares for equality.
- `CAST(releasedate AS DATE)` is a parameter of the model. A string the engine cannot cast aborts the statement; the model's cast is total and does not model that failure.
- SourceLoader.Lower: folds the ASCII letters `A`-`Z` only. The engine's `LOWER` also folds other Unicode letters.
- Numeric columns are mathematical reals and integers. Floating-point rounding and NaN are not modelled, and `discovery_year` is an integer.
- The row order of join outputs without `ORDER BY` is the model's nested-loop order. The engine promises no order there. Positional statements (row `i` of a join's output) hold for the model's order only; for the program, only the row count and which rows occur follow from them.
- Commit.Connection.AssembleFacts: requires the table not to be assembled already. The script runs the assembly once; running it again over the assembled table is not modelled.
- Rows whose sort keys tie under `ORDER BY` may come out in any order, so no order among them is claimed.
