/** Python's `sorted(xs, key=k)`.  A sort key is given here as the relation
    `le(a, b)`, read "k(a) <= k(b)"; Python's sort is stable, so the result is
    the ordered permutation of `xs` that keeps elements with equal keys in
    their input order.  SortBy is an insertion sort with those three
    properties (SortByIsPermutation, SortBySorts, SortByIsStable). */
module Sorting {

  /** The relation a sort key induces: total and transitive. */
  ghost predicate TotalPreorder<T(!new)>(le: (T, T) -> bool) {
    && (forall a, b :: le(a, b) || le(b, a))
    && (forall a, b, c :: le(a, b) && le(b, c) ==> le(a, c))
  }

  ghost predicate SortedBy<T>(s: seq<T>, le: (T, T) -> bool) {
    forall i, j :: 0 <= i < j < |s| ==> le(s[i], s[j])
  }

  /** `a` and `b` have equal sort keys. */
  predicate SameKey<T>(le: (T, T) -> bool, a: T, b: T) {
    le(a, b) && le(b, a)
  }

  /** The elements of `s` whose key equals the key of `e`, in their order in `s`. */
  function KeyClass<T>(s: seq<T>, le: (T, T) -> bool, e: T): seq<T> {
    if s == [] then []
    else (if SameKey(le, s[0], e) then [s[0]] else []) + KeyClass(s[1..], le, e)
  }

  /** Puts `x` in front of the first element whose key is not below the key of `x`. */
  function Insert<T>(x: T, s: seq<T>, le: (T, T) -> bool): (r: seq<T>)
    ensures multiset(r) == multiset(s) + multiset{x}
  {
    if s == [] || le(x, s[0]) then [x] + s
    else
      assert s == [s[0]] + s[1..];
      [s[0]] + Insert(x, s[1..], le)
  }

  /** `sorted(s, key=...)`. */
  function SortBy<T>(s: seq<T>, le: (T, T) -> bool): (r: seq<T>)
    ensures multiset(r) == multiset(s)
    ensures |r| == |s|
  {
    if s == [] then []
    else
      assert s == [s[0]] + s[1..];
      Insert(s[0], SortBy(s[1..], le), le)
  }

  lemma SortByIsPermutation<T>(s: seq<T>, le: (T, T) -> bool)
    ensures multiset(SortBy(s, le)) == multiset(s)
    ensures forall x :: x in SortBy(s, le) <==> x in s
  {
    var r := SortBy(s, le);
    forall x
      ensures x in r <==> x in s
    {
      assert x in r <==> x in multiset(r);
      assert x in s <==> x in multiset(s);
    }
  }

  lemma {:induction false} InsertSorts<T(!new)>(x: T, s: seq<T>, le: (T, T) -> bool)
    requires TotalPreorder(le) && SortedBy(s, le)
    ensures SortedBy(Insert(x, s, le), le)
    decreases |s|
  {
    if s == [] || le(x, s[0]) {
    } else {
      var t := Insert(x, s[1..], le);
      InsertSorts(x, s[1..], le);
      forall y | y in t
        ensures le(s[0], y)
      {
        assert y in multiset(t);
        if y != x {
          assert y in multiset(s[1..]);
          var j :| 0 <= j < |s[1..]| && s[1..][j] == y;
          assert s[j + 1] == y;
        }
      }
      var r := [s[0]] + t;
      forall i, j | 0 <= i < j < |r|
        ensures le(r[i], r[j])
      {
        if i == 0 {
          assert r[j] == t[j - 1];
          assert t[j - 1] in t;
        } else {
          assert r[i] == t[i - 1] && r[j] == t[j - 1];
        }
      }
    }
  }

  /** The result is ordered by the key. */
  lemma {:induction false} SortBySorts<T(!new)>(s: seq<T>, le: (T, T) -> bool)
    requires TotalPreorder(le)
    ensures SortedBy(SortBy(s, le), le)
    decreases |s|
  {
    if s != [] {
      SortBySorts(s[1..], le);
      InsertSorts(s[0], SortBy(s[1..], le), le);
    }
  }

  lemma {:induction false} KeyClassOfCons<T>(x: T, s: seq<T>, le: (T, T) -> bool, e: T)
    ensures KeyClass([x] + s, le, e) == (if SameKey(le, x, e) then [x] else []) + KeyClass(s, le, e)
  {
    assert ([x] + s)[1..] == s;
  }

  /** Inserting `x` in front of the elements with a greater key leaves every
      class of equal keys in the order it has in `[x] + s`. */
  lemma {:induction false} InsertIsStable<T(!new)>(x: T, s: seq<T>, le: (T, T) -> bool, e: T)
    requires TotalPreorder(le)
    ensures KeyClass(Insert(x, s, le), le, e) == KeyClass([x] + s, le, e)
    decreases |s|
  {
    if s == [] || le(x, s[0]) {
    } else {
      var y, rest := s[0], s[1..];
      assert s == [y] + rest;
      var cx := if SameKey(le, x, e) then [x] else [];
      var cy := if SameKey(le, y, e) then [y] else [];
      InsertIsStable(x, rest, le, e);
      KeyClassOfCons(y, Insert(x, rest, le), le, e);
      KeyClassOfCons(x, rest, le, e);
      KeyClassOfCons(x, s, le, e);
      KeyClassOfCons(y, rest, le, e);
      // The key of y is below the key of x, so at most one of them has the key of e.
      NotBothSameKey(le, x, y, e);
      assert cx == [] || cy == [];
      calc {
        KeyClass(Insert(x, s, le), le, e);
        cy + KeyClass(Insert(x, rest, le), le, e);
        cy + (cx + KeyClass(rest, le, e));
        cx + (cy + KeyClass(rest, le, e));
        KeyClass([x] + s, le, e);
      }
    }
  }

  lemma NotBothSameKey<T(!new)>(le: (T, T) -> bool, x: T, y: T, e: T)
    requires TotalPreorder(le) && !le(x, y)
    ensures !(SameKey(le, x, e) && SameKey(le, y, e))
  {
  }

  /** Elements with equal keys keep their input order. */
  lemma {:induction false} SortByIsStable<T(!new)>(s: seq<T>, le: (T, T) -> bool, e: T)
    requires TotalPreorder(le)
    ensures KeyClass(SortBy(s, le), le, e) == KeyClass(s, le, e)
    decreases |s|
  {
    if s != [] {
      SortByIsStable(s[1..], le, e);
      InsertIsStable(s[0], SortBy(s[1..], le), le, e);
      KeyClassOfCons(s[0], SortBy(s[1..], le), le, e);
      assert s == [s[0]] + s[1..];
      KeyClassOfCons(s[0], s[1..], le, e);
    }
  }
}
