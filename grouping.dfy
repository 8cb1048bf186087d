/** `GROUP BY <columns> ... COUNT(*) ... ORDER BY <column>`: the shape shared
    by every aggregate query of the analysis stage.  A query first produces
    its joined row stream, one group value per joined row; this module turns
    that stream into the result table. */
module Grouping {
  import opened Sql
  import opened Ordering

  /** One result row: the group columns and `COUNT(*)` (`num_planets`). */
  datatype Counted<G> = Counted(group: G, count: nat)

  /** The grouping before `ORDER BY`: one row per group value in `groups`,
      counting the joined rows of that group.  `groups` is the order in which
      the engine's aggregate operator emits the groups, which SQL leaves
      unspecified. */
  function GroupCount<G(==)>(joined: seq<G>, groups: seq<G>): seq<Counted<G>>
  {
    if groups == [] then []
    else [Counted(groups[0], Count(joined, groups[0]))] + GroupCount(joined, groups[1..])
  }

  /** Sum of the `COUNT(*)` column. */
  function SumCounts<G>(rows: seq<Counted<G>>): nat
  {
    if rows == [] then 0 else rows[0].count + SumCounts(rows[1..])
  }

  /** The full query tail: group, count, then order by `key`. */
  function Aggregate<G(==)>(joined: seq<G>, groups: seq<G>, key: Counted<G> -> SortKey): seq<Counted<G>>
  {
    SortBy(GroupCount(joined, groups), key)
  }

  /** No two result rows belong to the same group. */
  ghost predicate DistinctGroups<G>(rows: seq<Counted<G>>)
  {
    forall i, j :: 0 <= i < j < |rows| ==> rows[i].group != rows[j].group
  }

  /** `rows` is the grouped count of `joined`: one row per group that occurs
      in it and no other, each counting the joined rows of its group, so that
      the counts add up to the number of joined rows. */
  ghost predicate IsGroupedCount<G>(rows: seq<Counted<G>>, joined: seq<G>)
  {
    && DistinctGroups(rows)
    && (forall r :: r in rows ==> r.count == Count(joined, r.group) && r.count >= 1)
    && (set r | r in rows :: r.group) == Elements(joined)
    && SumCounts(rows) == |joined|
  }

  lemma {:induction false} GroupCountRows<G>(joined: seq<G>, groups: seq<G>, r: Counted<G>)
    ensures r in GroupCount(joined, groups) <==> r.group in groups && r.count == Count(joined, r.group)
  {
    if groups != [] {
      GroupCountRows(joined, groups[1..], r);
      assert r.group in groups <==> r.group == groups[0] || r.group in groups[1..];
    }
  }

  lemma {:induction false} GroupCountDistinct<G>(joined: seq<G>, groups: seq<G>)
    requires Distinct(groups)
    ensures DistinctGroups(GroupCount(joined, groups))
  {
    if groups != [] {
      GroupCountDistinct(joined, groups[1..]);
      var rows := GroupCount(joined, groups);
      forall j | 0 < j < |rows|
        ensures rows[0].group != rows[j].group
      {
        GroupCountRows(joined, groups[1..], rows[j]);
        assert rows[j] in GroupCount(joined, groups[1..]);
      }
    }
  }

  /** Counting one more joined row `x` adds one to the sum exactly when its
      group is listed. */
  lemma {:induction false} SumCountsStep<G>(x: G, rest: seq<G>, groups: seq<G>)
    ensures SumCounts(GroupCount([x] + rest, groups)) == Count(groups, x) + SumCounts(GroupCount(rest, groups))
  {
    if groups != [] {
      SumCountsStep(x, rest, groups[1..]);
      assert ([x] + rest)[1..] == rest;
    }
  }

  /** Listing every group once counts every joined row once. */
  lemma {:induction false} SumCountsGroups<G>(joined: seq<G>, groups: seq<G>)
    requires Distinct(groups)
    requires Elements(joined) <= Elements(groups)
    ensures SumCounts(GroupCount(joined, groups)) == |joined|
  {
    if joined == [] {
      SumCountsEmpty(groups);
    } else {
      var x, rest := joined[0], joined[1..];
      assert joined == [x] + rest;
      assert Elements(rest) <= Elements(joined);
      SumCountsGroups(rest, groups);
      SumCountsStep(x, rest, groups);
      assert x in Elements(joined);
      CountDistinct(groups, x);
    }
  }

  lemma {:induction false} SumCountsEmpty<G>(groups: seq<G>)
    ensures SumCounts(GroupCount([], groups)) == 0
  {
    if groups != [] {
      SumCountsEmpty(groups[1..]);
    }
  }

  lemma {:induction false} SumCountsInsert<G>(x: Counted<G>, rows: seq<Counted<G>>, key: Counted<G> -> SortKey)
    ensures SumCounts(Insert(x, rows, key)) == x.count + SumCounts(rows)
  {
    if rows != [] && !KeyLe(key(x), key(rows[0])) {
      SumCountsInsert(x, rows[1..], key);
    }
  }

  lemma {:induction false} SumCountsSortBy<G>(rows: seq<Counted<G>>, key: Counted<G> -> SortKey)
    ensures SumCounts(SortBy(rows, key)) == SumCounts(rows)
  {
    if rows != [] {
      SumCountsSortBy(rows[1..], key);
      SumCountsInsert(rows[0], SortBy(rows[1..], key), key);
    }
  }

  lemma {:induction false} InsertDistinctGroups<G>(x: Counted<G>, rows: seq<Counted<G>>, key: Counted<G> -> SortKey)
    requires DistinctGroups(rows)
    requires forall r :: r in rows ==> r.group != x.group
    ensures DistinctGroups(Insert(x, rows, key))
  {
    if rows != [] && !KeyLe(key(x), key(rows[0])) {
      InsertDistinctGroups(x, rows[1..], key);
      var tail := Insert(x, rows[1..], key);
      var r := Insert(x, rows, key);
      forall j | 0 < j < |r|
        ensures r[0].group != r[j].group
      {
        assert r[j] in multiset(tail);
        assert r[j] == x || r[j] in rows[1..];
      }
    }
  }

  lemma {:induction false} SortByDistinctGroups<G>(rows: seq<Counted<G>>, key: Counted<G> -> SortKey)
    requires DistinctGroups(rows)
    ensures DistinctGroups(SortBy(rows, key))
  {
    if rows != [] {
      SortByDistinctGroups(rows[1..], key);
      var sorted := SortBy(rows[1..], key);
      forall r | r in sorted
        ensures r.group != rows[0].group
      {
        assert r in multiset(rows[1..]);
      }
      InsertDistinctGroups(rows[0], sorted, key);
    }
  }

  /** The aggregate query returns exactly the grouped count of its joined
      rows, in the order `ORDER BY` asks for, whatever order the engine lists
      the groups in. */
  lemma AggregateCorrect<G>(joined: seq<G>, groups: seq<G>, key: Counted<G> -> SortKey)
    requires Enumerates(groups, Elements(joined))
    ensures IsGroupedCount(Aggregate(joined, groups, key), joined)
    ensures SortedBy(Aggregate(joined, groups, key), key)
  {
    var unsorted := GroupCount(joined, groups);
    var rows := Aggregate(joined, groups, key);
    GroupCountDistinct(joined, groups);
    SortByDistinctGroups(unsorted, key);
    SumCountsGroups(joined, groups);
    SumCountsSortBy(unsorted, key);
    forall r | r in rows
      ensures r.count == Count(joined, r.group) && r.count >= 1
    {
      assert r in multiset(unsorted);
      GroupCountRows(joined, groups, r);
      assert r.group in Elements(joined);
      CountBounds(joined, r.group);
    }
    forall g | g in Elements(joined)
      ensures g in (set r | r in rows :: r.group)
    {
      assert g in Elements(groups);
      var c := Counted(g, Count(joined, g));
      GroupCountRows(joined, groups, c);
      assert c in multiset(rows);
    }
    forall r | r in rows
      ensures r.group in Elements(joined)
    {
      assert r in multiset(unsorted);
      GroupCountRows(joined, groups, r);
    }
  }
}
