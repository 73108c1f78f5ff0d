/**
 Relational operators that the pipeline's SQL queries are built from:
 the ordering Spark uses for string columns, ORDER BY (a sort by one
 string key), SELECT DISTINCT (duplicate elimination) and the column
 projection applied to every row of a table.
 */
module Relational {

  /** Lexicographic order on strings, character by character, as Spark
      compares string columns in ORDER BY. */
  predicate StrLe(a: string, b: string)
    decreases |a|
  {
    |a| == 0 || (|b| > 0 && (a[0] < b[0] || (a[0] == b[0] && StrLe(a[1..], b[1..]))))
  }

  lemma {:induction false} StrLeTotal(a: string, b: string)
    ensures StrLe(a, b) || StrLe(b, a)
    decreases |a|
  {
    if |a| > 0 && |b| > 0 && a[0] == b[0] {
      StrLeTotal(a[1..], b[1..]);
    }
  }

  lemma {:induction false} StrLeTransitive(a: string, b: string, c: string)
    requires StrLe(a, b) && StrLe(b, c)
    ensures StrLe(a, c)
    decreases |a|
  {
    if |a| > 0 && a[0] == b[0] && b[0] == c[0] {
      StrLeTransitive(a[1..], b[1..], c[1..]);
    }
  }

  /** The rows of `s` appear in non-decreasing order of `key`. */
  predicate SortedBy<T>(s: seq<T>, key: T -> string)
  {
    forall i, j :: 0 <= i < j < |s| ==> StrLe(key(s[i]), key(s[j]))
  }

  /** Every row of `s` has a key at least `k`. */
  predicate AllAtLeast<T>(k: string, s: seq<T>, key: T -> string)
  {
    forall i :: 0 <= i < |s| ==> StrLe(k, key(s[i]))
  }

  lemma AllAtLeastPermutation<T>(k: string, a: seq<T>, b: seq<T>, key: T -> string)
    requires multiset(a) == multiset(b) && AllAtLeast(k, b, key)
    ensures AllAtLeast(k, a, key)
  {
    forall i | 0 <= i < |a| ensures StrLe(k, key(a[i])) {
      assert a[i] in multiset(b);
      var j :| 0 <= j < |b| && b[j] == a[i];
    }
  }

  lemma ConsSorted<T>(x: T, s: seq<T>, key: T -> string)
    requires SortedBy(s, key) && AllAtLeast(key(x), s, key)
    ensures SortedBy([x] + s, key)
  {
  }

  /** Inserts `x` into the sorted `s` in front of the first row with a
      key at least as large (the step of a stable insertion sort). */
  function Insert<T>(x: T, s: seq<T>, key: T -> string): (r: seq<T>)
    requires SortedBy(s, key)
    ensures multiset(r) == multiset(s) + multiset{x}
    ensures SortedBy(r, key)
    decreases |s|
  {
    if s == [] then [x]
    else if StrLe(key(x), key(s[0])) then
      InsertFront(x, s, key);
      [x] + s
    else
      var rest := Insert(x, s[1..], key);
      InsertBehind(x, s, rest, key);
      assert s == [s[0]] + s[1..];
      [s[0]] + rest
  }

  lemma InsertFront<T>(x: T, s: seq<T>, key: T -> string)
    requires SortedBy(s, key) && s != [] && StrLe(key(x), key(s[0]))
    ensures SortedBy([x] + s, key)
  {
    forall i | 0 <= i < |s| ensures StrLe(key(x), key(s[i])) {
      if i > 0 {
        StrLeTransitive(key(x), key(s[0]), key(s[i]));
      }
    }
    ConsSorted(x, s, key);
  }

  lemma InsertBehind<T>(x: T, s: seq<T>, rest: seq<T>, key: T -> string)
    requires SortedBy(s, key) && s != [] && !StrLe(key(x), key(s[0]))
    requires SortedBy(rest, key) && multiset(rest) == multiset(s[1..]) + multiset{x}
    ensures SortedBy([s[0]] + rest, key)
  {
    StrLeTotal(key(x), key(s[0]));
    var pool := s[1..] + [x];
    forall i | 0 <= i < |pool| ensures StrLe(key(s[0]), key(pool[i])) {
      if i < |s| - 1 {
        assert pool[i] == s[i + 1];
      }
    }
    AllAtLeastPermutation(key(s[0]), rest, pool, key);
    ConsSorted(s[0], rest, key);
  }

  /** ORDER BY `key`: the same rows (with their multiplicities) in
      non-decreasing key order. */
  function SortBy<T>(s: seq<T>, key: T -> string): (r: seq<T>)
    ensures multiset(r) == multiset(s)
    ensures SortedBy(r, key)
    decreases |s|
  {
    if s == [] then []
    else
      assert s == [s[0]] + s[1..];
      Insert(s[0], SortBy(s[1..], key), key)
  }

  /** No row occurs twice. */
  predicate NoDuplicates<T(==)>(s: seq<T>)
  {
    forall i, j :: 0 <= i < j < |s| ==> s[i] != s[j]
  }

  /** SELECT DISTINCT: each row of `s` exactly once. */
  function Distinct<T(==,!new)>(s: seq<T>): (r: seq<T>)
    ensures NoDuplicates(r)
    ensures forall x :: x in r <==> x in s
    ensures |r| <= |s|
  {
    if s == [] then []
    else if s[0] in s[1..] then Distinct(s[1..])
    else [s[0]] + Distinct(s[1..])
  }

  lemma {:induction false} NoDuplicatesCount<T>(s: seq<T>, x: T)
    requires NoDuplicates(s)
    ensures multiset(s)[x] <= 1
  {
    if s != [] {
      assert s == [s[0]] + s[1..];
      assert NoDuplicates(s[1..]) by {
        forall i, j | 0 <= i < j < |s| - 1 ensures s[1..][i] != s[1..][j] {
          assert s[1..][i] == s[i + 1] && s[1..][j] == s[j + 1];
        }
      }
      NoDuplicatesCount(s[1..], x);
      if x == s[0] {
        assert x !in s[1..] by {
          forall k | 0 <= k < |s| - 1 ensures s[1..][k] != x {
            assert s[1..][k] == s[k + 1];
          }
        }
      }
    }
  }

  /** Rearranging a table keeps it free of duplicates. */
  lemma NoDuplicatesPermutation<T>(a: seq<T>, b: seq<T>)
    requires multiset(a) == multiset(b) && NoDuplicates(a)
    ensures NoDuplicates(b)
  {
    forall i, j | 0 <= i < j < |b| ensures b[i] != b[j] {
      if b[i] == b[j] {
        assert b == b[..i] + [b[i]] + b[i + 1..j] + [b[j]] + b[j + 1..];
        assert multiset(b)[b[i]] >= 2;
        NoDuplicatesCount(a, b[i]);
        assert false;
      }
    }
  }

  /** SELECT DISTINCT ... ORDER BY `key`. */
  function DistinctSorted<T(==,!new)>(s: seq<T>, key: T -> string): (r: seq<T>)
    ensures NoDuplicates(r)
    ensures forall x :: x in r <==> x in s
    ensures SortedBy(r, key)
  {
    var d := Distinct(s);
    var r := SortBy(d, key);
    NoDuplicatesPermutation(d, r);
    assert forall x :: x in r <==> x in multiset(d);
    r
  }

  /** The column projection `f` applied to every row, in order. */
  function MapRows<A, B>(s: seq<A>, f: A -> B): (r: seq<B>)
    ensures |r| == |s|
    ensures forall i :: 0 <= i < |s| ==> r[i] == f(s[i])
  {
    seq(|s|, i requires 0 <= i < |s| => f(s[i]))
  }

  lemma MapRowsMember<A, B>(s: seq<A>, f: A -> B, y: B)
    ensures y in MapRows(s, f) <==> exists x :: x in s && f(x) == y
  {
  }

  /** How many rows of `s` the projection `f` maps to `y`. */
  function Occurrences<A, B(==)>(s: seq<A>, f: A -> B, y: B): nat
    decreases |s|
  {
    if s == [] then 0 else (if f(s[0]) == y then 1 else 0) + Occurrences(s[1..], f, y)
  }

  /** A projection keeps one output row per input row: `y` occurs in the
      projected table exactly as often as input rows project to it. */
  lemma {:induction false} MapRowsMultiplicity<A, B>(s: seq<A>, f: A -> B, y: B)
    ensures multiset(MapRows(s, f))[y] == Occurrences(s, f, y)
    decreases |s|
  {
    if s != [] {
      MapRowsMultiplicity(s[1..], f, y);
      assert MapRows(s, f) == [f(s[0])] + MapRows(s[1..], f);
    }
  }
}
