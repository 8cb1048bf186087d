/** `ORDER BY` as the engine evaluates it: one sort column, numbers by value,
    text by code point (the default binary collation), NULLs after every
    non-NULL value (the default `NULLS LAST` for ascending order).  A
    descending numeric column is sorted on its negation. */
module Ordering {

  /** The value of the sort column of one result row. */
  datatype SortKey = Num(n: int) | Text(s: string) | Null

  /** Lexicographic order on strings, character by character. */
  predicate TextLe(a: string, b: string)
  {
    if a == [] then true
    else if b == [] then false
    else if a[0] != b[0] then a[0] < b[0]
    else TextLe(a[1..], b[1..])
  }

  /** The order `ORDER BY` sorts on; different kinds never meet in one
      column except a text column with NULLs. */
  predicate KeyLe(a: SortKey, b: SortKey)
  {
    match (a, b)
    case (Num(x), Num(y)) => x <= y
    case (Text(x), Text(y)) => TextLe(x, y)
    case (Null, Null) => true
    case (Null, _) => false
    case (_, Null) => true
    case (Num(_), Text(_)) => true
    case (Text(_), Num(_)) => false
  }

  lemma {:induction false} TextLeTotal(a: string, b: string)
    ensures TextLe(a, b) || TextLe(b, a)
  {
    if a != [] && b != [] && a[0] == b[0] {
      TextLeTotal(a[1..], b[1..]);
    }
  }

  lemma {:induction false} TextLeTransitive(a: string, b: string, c: string)
    requires TextLe(a, b) && TextLe(b, c)
    ensures TextLe(a, c)
  {
    if a != [] && b != [] && c != [] && a[0] == b[0] && b[0] == c[0] {
      TextLeTransitive(a[1..], b[1..], c[1..]);
    }
  }

  /** Any two sort keys are comparable. */
  lemma KeyLeTotal(a: SortKey, b: SortKey)
    ensures KeyLe(a, b) || KeyLe(b, a)
  {
    if a.Text? && b.Text? {
      TextLeTotal(a.s, b.s);
    }
  }

  lemma KeyLeTransitive(a: SortKey, b: SortKey, c: SortKey)
    requires KeyLe(a, b) && KeyLe(b, c)
    ensures KeyLe(a, c)
  {
    if a.Text? && b.Text? && c.Text? {
      TextLeTransitive(a.s, b.s, c.s);
    }
  }

  /** Rows appear in non-decreasing order of their sort key. */
  ghost predicate SortedBy<T>(rows: seq<T>, key: T -> SortKey)
  {
    forall i, j :: 0 <= i < j < |rows| ==> KeyLe(key(rows[i]), key(rows[j]))
  }

  /** Places `x` before the first row whose key is not below it. */
  function Insert<T>(x: T, rows: seq<T>, key: T -> SortKey): (r: seq<T>)
    ensures multiset(r) == multiset(rows) + multiset{x}
    ensures SortedBy(rows, key) ==> SortedBy(r, key)
  {
    if rows == [] then [x]
    else if KeyLe(key(x), key(rows[0])) then
      var r := [x] + rows;
      assert SortedBy(rows, key) ==> SortedBy(r, key) by {
        if SortedBy(rows, key) {
          forall j | 0 < j < |r|
            ensures KeyLe(key(r[0]), key(r[j]))
          {
            if j > 1 {
              KeyLeTransitive(key(x), key(rows[0]), key(r[j]));
            }
          }
        }
      }
      r
    else
      var tail := Insert(x, rows[1..], key);
      var r := [rows[0]] + tail;
      assert rows == [rows[0]] + rows[1..];
      assert SortedBy(rows, key) ==> SortedBy(r, key) by {
        if SortedBy(rows, key) {
          assert SortedBy(rows[1..], key);
          KeyLeTotal(key(x), key(rows[0]));
          forall j | 0 < j < |r|
            ensures KeyLe(key(r[0]), key(r[j]))
          {
            assert r[j] in multiset(tail);
            assert r[j] == x || r[j] in rows[1..];
          }
        }
      }
      r
  }

  /** `ORDER BY key`: a permutation of the rows, sorted on the key.  Which of
      several rows with equal keys comes first is not part of the contract. */
  function SortBy<T>(rows: seq<T>, key: T -> SortKey): (r: seq<T>)
    ensures multiset(r) == multiset(rows)
    ensures SortedBy(r, key)
  {
    if rows == [] then []
    else
      assert rows == [rows[0]] + rows[1..];
      Insert(rows[0], SortBy(rows[1..], key), key)
  }
}
