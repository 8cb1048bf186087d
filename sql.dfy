/** Relational building blocks shared by every statement of the pipeline:
    SQL NULL, the row stream of a nested-loop join, counting, and what it
    means for a sequence of rows to list a set of values once each. */
module Sql {

  /** A nullable column value; `None` is SQL NULL. */
  datatype Option<+T> = None | Some(value: T)

  /** A scalar function applied to a nullable value: NULL stays NULL. */
  function MapOption<T, U>(o: Option<T>, f: T -> U): (r: Option<U>)
    ensures r.Some? <==> o.Some?
    ensures o.Some? ==> r.value == f(o.value)
  {
    match o
    case None => None
    case Some(v) => Some(f(v))
  }

  /** A projection applied to every row. */
  function Map<A, B>(xs: seq<A>, f: A -> B): (r: seq<B>)
    ensures |r| == |xs|
    ensures forall i :: 0 <= i < |xs| ==> r[i] == f(xs[i])
  {
    seq(|xs|, i requires 0 <= i < |xs| => f(xs[i]))
  }

  /** The rows that satisfy `p`, in order (a WHERE clause). */
  function Filter<T(!new)>(xs: seq<T>, p: T -> bool): (r: seq<T>)
    ensures |r| <= |xs|
    ensures forall y :: y in r <==> y in xs && p(y)
  {
    if xs == [] then []
    else (if p(xs[0]) then [xs[0]] else []) + Filter(xs[1..], p)
  }

  /** `f(x)` for every row `x`, concatenated in order: the output of a
      nested-loop join whose inner side for `x` is `f(x)`. */
  function FlatMap<A, B>(xs: seq<A>, f: A -> seq<B>): seq<B>
  {
    if xs == [] then [] else f(xs[0]) + FlatMap(xs[1..], f)
  }

  /** Every combination of a row of `left` with a row of `right`: a join of
      two independent match lists. */
  function Cross<A, B, C>(left: seq<A>, right: seq<B>, f: (A, B) -> C): seq<C>
  {
    FlatMap(left, a => Map(right, b => f(a, b)))
  }

  /** Number of rows equal to `x`. */
  function Count<T(==)>(xs: seq<T>, x: T): nat
  {
    if xs == [] then 0 else (if xs[0] == x then 1 else 0) + Count(xs[1..], x)
  }

  /** Number of rows satisfying `p`. */
  function CountIf<T>(xs: seq<T>, p: T -> bool): nat
  {
    if xs == [] then 0 else (if p(xs[0]) then 1 else 0) + CountIf(xs[1..], p)
  }

  /** The values occurring in a sequence. */
  function Elements<T>(xs: seq<T>): set<T>
  {
    set x | x in xs
  }

  /** No value occurs twice. */
  ghost predicate Distinct<T>(xs: seq<T>)
  {
    forall i, j :: 0 <= i < j < |xs| ==> xs[i] != xs[j]
  }

  /** `listed` names every value of `values` exactly once, in some order:
      what a `SELECT DISTINCT` hands on to the next operator. */
  ghost predicate Enumerates<T>(listed: seq<T>, values: set<T>)
  {
    Distinct(listed) && Elements(listed) == values
  }

  lemma {:induction false} DistinctCardinality<T>(xs: seq<T>)
    requires Distinct(xs)
    ensures |Elements(xs)| == |xs|
  {
    if xs != [] {
      DistinctCardinality(xs[1..]);
      assert Elements(xs) == {xs[0]} + Elements(xs[1..]);
      assert xs[0] !in Elements(xs[1..]);
    }
  }

  lemma {:induction false} CountBounds<T>(xs: seq<T>, x: T)
    ensures Count(xs, x) <= |xs|
    ensures Count(xs, x) >= 1 <==> x in xs
  {
    if xs != [] {
      CountBounds(xs[1..], x);
      assert x in xs <==> x == xs[0] || x in xs[1..];
    }
  }

  /** In a sequence without repetitions each member occurs exactly once. */
  lemma {:induction false} CountDistinct<T>(xs: seq<T>, x: T)
    requires Distinct(xs)
    ensures Count(xs, x) == if x in xs then 1 else 0
  {
    if xs != [] {
      CountDistinct(xs[1..], x);
      assert x in xs <==> x == xs[0] || x in xs[1..];
    }
  }

  lemma {:induction false} FlatMapMembers<A, B>(xs: seq<A>, f: A -> seq<B>, y: B)
    ensures y in FlatMap(xs, f) <==> exists x :: x in xs && y in f(x)
  {
    if xs != [] {
      FlatMapMembers(xs[1..], f, y);
      assert forall x :: x in xs <==> x == xs[0] || x in xs[1..];
    }
  }

  /** When every row contributes one or no output row, the output has as
      many rows as there are contributing input rows. */
  lemma {:induction false} FlatMapAtMostOne<A, B>(xs: seq<A>, f: A -> seq<B>, p: A -> bool)
    requires forall x :: x in xs ==> |f(x)| == if p(x) then 1 else 0
    ensures |FlatMap(xs, f)| == CountIf(xs, p)
  {
    if xs != [] {
      assert xs[0] in xs;
      FlatMapAtMostOne(xs[1..], f, p);
    }
  }

  /** When every row contributes exactly one output row, the output lines up
      with the input row for row. */
  lemma {:induction false} FlatMapExactlyOne<A, B>(xs: seq<A>, f: A -> seq<B>)
    requires forall x :: x in xs ==> |f(x)| == 1
    ensures |FlatMap(xs, f)| == |xs|
    ensures forall i :: 0 <= i < |xs| ==> FlatMap(xs, f)[i] == f(xs[i])[0]
  {
    if xs != [] {
      assert xs[0] in xs;
      FlatMapExactlyOne(xs[1..], f);
      forall i | 0 <= i < |xs|
        ensures FlatMap(xs, f)[i] == f(xs[i])[0]
      {
        if i > 0 {
          assert xs[i] == xs[1..][i - 1];
        }
      }
    }
  }

  /** When every row contributes at least one output row, no row is lost,
      and one row with two contributions makes the output strictly longer. */
  lemma {:induction false} FlatMapAtLeastOne<A, B>(xs: seq<A>, f: A -> seq<B>)
    requires forall x :: x in xs ==> |f(x)| >= 1
    ensures |FlatMap(xs, f)| >= |xs|
    ensures (exists x :: x in xs && |f(x)| >= 2) ==> |FlatMap(xs, f)| > |xs|
  {
    if xs != [] {
      assert xs[0] in xs;
      FlatMapAtLeastOne(xs[1..], f);
      assert forall x :: x in xs <==> x == xs[0] || x in xs[1..];
    }
  }

  lemma {:induction false} CrossLength<A, B, C>(left: seq<A>, right: seq<B>, f: (A, B) -> C)
    ensures |Cross(left, right, f)| == |left| * |right|
  {
    if left != [] {
      CrossLength(left[1..], right, f);
      calc {
        |Cross(left, right, f)|;
        |Map(right, b => f(left[0], b))| + |Cross(left[1..], right, f)|;
        |right| + (|left| - 1) * |right|;
      }
    }
  }

  /** A cross product of two lists of at most one row each: one row exactly
      when both sides have one. */
  lemma CrossOfSingletons<A, B, C>(left: seq<A>, right: seq<B>, f: (A, B) -> C)
    requires |left| <= 1 && |right| <= 1
    ensures |Cross(left, right, f)| == if |left| == 1 && |right| == 1 then 1 else 0
    ensures |left| == 1 && |right| == 1 ==> Cross(left, right, f) == [f(left[0], right[0])]
  {
    CrossLength(left, right, f);
    if |left| == 1 && |right| == 1 {
      assert left[1..] == [];
    }
  }

  lemma {:induction false} FilterLength<T(!new)>(xs: seq<T>, p: T -> bool)
    ensures |Filter(xs, p)| == CountIf(xs, p)
  {
    if xs != [] {
      FilterLength(xs[1..], p);
    }
  }

  /** At most one row satisfies `p` when no two rows do. */
  lemma {:induction false} CountIfAtMostOne<T>(xs: seq<T>, p: T -> bool)
    requires forall i, j :: 0 <= i < j < |xs| && p(xs[i]) ==> !p(xs[j])
    ensures CountIf(xs, p) <= 1
  {
    if xs != [] {
      CountIfAtMostOne(xs[1..], p);
      if p(xs[0]) {
        CountIfNone(xs[1..], p);
      }
    }
  }

  lemma {:induction false} CountIfNone<T>(xs: seq<T>, p: T -> bool)
    requires forall i :: 0 <= i < |xs| ==> !p(xs[i])
    ensures CountIf(xs, p) == 0
  {
    if xs != [] {
      CountIfNone(xs[1..], p);
    }
  }

  lemma {:induction false} CountIfAtLeast<T>(xs: seq<T>, p: T -> bool, i: int)
    requires 0 <= i < |xs| && p(xs[i])
    ensures CountIf(xs, p) >= 1
  {
    if i > 0 {
      CountIfAtLeast(xs[1..], p, i - 1);
    }
  }

  /** Two different rows satisfying `p` make at least two. */
  lemma {:induction false} CountIfTwo<T>(xs: seq<T>, p: T -> bool, i: int, j: int)
    requires 0 <= i < j < |xs| && p(xs[i]) && p(xs[j])
    ensures CountIf(xs, p) >= 2
  {
    if i > 0 {
      CountIfTwo(xs[1..], p, i - 1, j - 1);
    } else {
      CountIfAtLeast(xs[1..], p, j - 1);
    }
  }

  /** Two tables that agree row by row on whether `p` and `q` hold have the
      same number of rows satisfying them. */
  lemma {:induction false} CountIfPointwise<A, B>(xs: seq<A>, p: A -> bool, ys: seq<B>, q: B -> bool)
    requires |xs| == |ys|
    requires forall i :: 0 <= i < |xs| ==> p(xs[i]) == q(ys[i])
    ensures CountIf(xs, p) == CountIf(ys, q)
  {
    if xs != [] {
      CountIfPointwise(xs[1..], p, ys[1..], q);
    }
  }
}
