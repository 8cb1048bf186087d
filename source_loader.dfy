/** Creation of `exoplanets`: the primary catalog, left outer joined to the
    supplementary catalog on the planet name compared without regard to
    case, keeping `pl_pubdate` and `releasedate` of the matching row. */
module SourceLoader {
  import opened Sql
  import opened Schema

  /** `LOWER` on one character. */
  function LowerChar(c: char): (r: char)
    ensures 'A' <= c <= 'Z' ==> 'a' <= r <= 'z' && r as int - c as int == 32
    ensures !('A' <= c <= 'Z') ==> r == c
  {
    if 'A' <= c <= 'Z' then (c as int + 32) as char else c
  }

  /** `LOWER(s)`. */
  function Lower(s: string): (r: string)
    ensures |r| == |s|
    ensures forall i :: 0 <= i < |s| ==> r[i] == LowerChar(s[i])
  {
    Map(s, LowerChar)
  }

  /** Lowering twice changes nothing more, so names that already match still
      match after either side is lowered again. */
  lemma LowerIdempotent(s: string)
    ensures Lower(Lower(s)) == Lower(s)
  {
  }

  /** Two characters that are equal, or the upper- and lower-case forms of
      one ASCII letter. */
  predicate SameLetterIgnoringCase(a: char, b: char)
  {
    a == b || ('A' <= a <= 'Z' && b as int == a as int + 32) || ('A' <= b <= 'Z' && a as int == b as int + 32)
  }

  lemma LowerCharMatches(a: char, b: char)
    ensures LowerChar(a) == LowerChar(b) <==> SameLetterIgnoringCase(a, b)
  {
  }

  /** `LOWER(a) = LOWER(b)` holds exactly when the two names have the same
      length and agree character by character up to the case of ASCII
      letters. */
  lemma LowerMatchesIgnoringCase(a: string, b: string)
    ensures Lower(a) == Lower(b) <==> |a| == |b| && forall i :: 0 <= i < |a| ==> SameLetterIgnoringCase(a[i], b[i])
  {
    if Lower(a) == Lower(b) {
      forall i | 0 <= i < |a|
        ensures SameLetterIgnoringCase(a[i], b[i])
      {
        assert Lower(a)[i] == Lower(b)[i];
        LowerCharMatches(a[i], b[i]);
      }
    }
    if |a| == |b| && forall i :: 0 <= i < |a| ==> SameLetterIgnoringCase(a[i], b[i]) {
      forall i | 0 <= i < |a|
        ensures Lower(a)[i] == Lower(b)[i]
      {
        LowerCharMatches(a[i], b[i]);
      }
    }
  }

  /** The join condition `LOWER(e.name) = LOWER(n.pl_name)`; a NULL on either
      side never satisfies it. */
  predicate NameMatches(p: Planet, n: Publication)
  {
    p.name.Some? && n.plName.Some? && Lower(p.name.value) == Lower(n.plName.value)
  }

  /** The supplementary rows that one primary row joins with. */
  function Matches(p: Planet, publications: seq<Publication>): seq<Publication>
  {
    Filter(publications, (n: Publication) => NameMatches(p, n))
  }

  /** The rows one primary row contributes to the `LEFT JOIN`: one per
      matching supplementary row, or a single row with NULL publication
      columns when nothing matches. */
  function EnrichRow(p: Planet, publications: seq<Publication>): (rows: seq<Exoplanet>)
    ensures |rows| == if Matches(p, publications) == [] then 1 else |Matches(p, publications)|
    ensures forall r :: r in rows ==> r.planet == p
    ensures Matches(p, publications) == [] ==> rows == [Exoplanet(p, None, None)]
    ensures forall n :: n in publications && NameMatches(p, n) ==>
      Exoplanet(p, n.plPubdate, n.releaseDate) in rows
    ensures forall r :: r in rows && Matches(p, publications) != [] ==>
      exists n :: n in publications && NameMatches(p, n) && r == Exoplanet(p, n.plPubdate, n.releaseDate)
  {
    var matches := Matches(p, publications);
    if matches == [] then [Exoplanet(p, None, None)]
    else
      var rows := Map(matches, (n: Publication) => Exoplanet(p, n.plPubdate, n.releaseDate));
      assert forall n :: n in matches ==> Exoplanet(p, n.plPubdate, n.releaseDate) in rows by {
        forall n | n in matches
          ensures Exoplanet(p, n.plPubdate, n.releaseDate) in rows
        {
          var k :| 0 <= k < |matches| && matches[k] == n;
          assert rows[k] == Exoplanet(p, n.plPubdate, n.releaseDate);
        }
      }
      assert forall r :: r in rows ==>
        exists n :: n in publications && NameMatches(p, n) && r == Exoplanet(p, n.plPubdate, n.releaseDate) by {
        forall r | r in rows
          ensures exists n :: n in publications && NameMatches(p, n) && r == Exoplanet(p, n.plPubdate, n.releaseDate)
        {
          var k :| 0 <= k < |rows| && rows[k] == r;
          assert matches[k] in matches;
          assert r == Exoplanet(p, matches[k].plPubdate, matches[k].releaseDate);
        }
      }
      rows
  }

  /** `CREATE TABLE exoplanets AS SELECT e.*, n.pl_pubdate, n.releasedate
      FROM <primary> e LEFT JOIN <supplementary> n ON LOWER(e.name) = LOWER(n.pl_name)`. */
  function Enrich(primary: seq<Planet>, publications: seq<Publication>): seq<Exoplanet>
  {
    FlatMap(primary, p => EnrichRow(p, publications))
  }

  /** The lowered `pl_name` values of the supplementary catalog are unique. */
  ghost predicate UniqueLoweredNames(publications: seq<Publication>)
  {
    forall i, j :: 0 <= i < j < |publications| && publications[i].plName.Some? && publications[j].plName.Some? ==>
      Lower(publications[i].plName.value) != Lower(publications[j].plName.value)
  }

  /** The left join loses no primary row and invents none: every primary row
      appears with its columns unchanged, every result row comes from a
      primary row, and there are at least as many result rows as primary
      rows. */
  lemma EnrichKeepsEveryRow(primary: seq<Planet>, publications: seq<Publication>)
    ensures |Enrich(primary, publications)| >= |primary|
    ensures forall p :: p in primary ==> exists r :: r in Enrich(primary, publications) && r.planet == p
    ensures forall r :: r in Enrich(primary, publications) ==> r.planet in primary
  {
    var f := p => EnrichRow(p, publications);
    FlatMapAtLeastOne(primary, f);
    forall p | p in primary
      ensures exists r :: r in Enrich(primary, publications) && r.planet == p
    {
      var r := f(p)[0];
      FlatMapMembers(primary, f, r);
    }
    forall r | r in Enrich(primary, publications)
      ensures r.planet in primary
    {
      FlatMapMembers(primary, f, r);
    }
  }

  /** With unique lowered `pl_name` values no row fans out: the result has
      one row per primary row, and each row carries the publication columns
      of its match, or NULLs when it has none. */
  lemma EnrichNoFanOut(primary: seq<Planet>, publications: seq<Publication>)
    requires UniqueLoweredNames(publications)
    ensures |Enrich(primary, publications)| == |primary|
    ensures forall i :: 0 <= i < |primary| ==> Enrich(primary, publications)[i].planet == primary[i]
    ensures forall i :: 0 <= i < |primary| && Matches(primary[i], publications) == [] ==>
      Enrich(primary, publications)[i] == Exoplanet(primary[i], None, None)
    ensures forall i, n :: 0 <= i < |primary| && n in publications && NameMatches(primary[i], n) ==>
      Enrich(primary, publications)[i] == Exoplanet(primary[i], n.plPubdate, n.releaseDate)
  {
    var f := p => EnrichRow(p, publications);
    forall p | p in primary
      ensures |f(p)| == 1
    {
      var pred := (n: Publication) => NameMatches(p, n);
      CountIfAtMostOne(publications, pred);
      FilterLength(publications, pred);
    }
    FlatMapExactlyOne(primary, f);
  }

  /** A primary row whose name matches two supplementary rows fans out: the
      result has more rows than the primary catalog. */
  lemma EnrichFanOut(primary: seq<Planet>, publications: seq<Publication>, k: int, i: int, j: int)
    requires 0 <= k < |primary| && 0 <= i < j < |publications|
    requires NameMatches(primary[k], publications[i]) && NameMatches(primary[k], publications[j])
    ensures |Enrich(primary, publications)| > |primary|
  {
    var f := p => EnrichRow(p, publications);
    var pred := (n: Publication) => NameMatches(primary[k], n);
    CountIfTwo(publications, pred, i, j);
    FilterLength(publications, pred);
    assert primary[k] in primary && |f(primary[k])| >= 2;
    FlatMapAtLeastOne(primary, f);
  }

  /** A name and a `pl_name` that differ only in case join. */
  lemma EnrichExample()
    ensures
      var kepler := Planet(Some("Kepler-1b"), Some(500.0), Some(12.0), None, Some(2011), None, None, None, []);
      Enrich([kepler], [Publication(Some("kepler-1b"), None, Some("2012-01-01"))])
        == [Exoplanet(kepler, None, Some("2012-01-01"))]
  {
    var kepler := Planet(Some("Kepler-1b"), Some(500.0), Some(12.0), None, Some(2011), None, None, None, []);
    var n := Publication(Some("kepler-1b"), None, Some("2012-01-01"));
    assert Lower("Kepler-1b") == Lower("kepler-1b");
    assert Matches(kepler, [n]) == [n];
  }
}
