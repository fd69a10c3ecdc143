/**
 * Array.prototype.sort with a comparator, Set-based de-duplication, and the
 * default string order. JavaScript's sort is stable: for a total preorder the
 * stable sorted permutation is unique, so the insertion sort below returns the
 * same sequence as the engine's sort.
 */
module Sorting {

  import opened Seqs

  /** `le` is total and transitive (a comparator that never contradicts itself). */
  ghost predicate TotalPreorder<T(!new)>(le: (T, T) -> bool)
  {
    && (forall a, b :: le(a, b) || le(b, a))
    && (forall a, b, c :: le(a, b) && le(b, c) ==> le(a, c))
  }

  /** Every pair of positions is in `le` order. */
  ghost predicate Sorted<T(!new)>(s: seq<T>, le: (T, T) -> bool)
  {
    forall i, j :: 0 <= i < j < |s| ==> le(s[i], s[j])
  }

  /** Inserts `x` before the first element it does not follow. */
  function Insert<T(!new)>(x: T, s: seq<T>, le: (T, T) -> bool): (r: seq<T>)
    ensures |r| == |s| + 1
    ensures multiset(r) == multiset(s) + multiset{x}
  {
    if s == [] then [x]
    else if le(x, s[0]) then [x] + s
    else
      assert s == [s[0]] + s[1..];
      [s[0]] + Insert(x, s[1..], le)
  }

  /** Inserting into a sorted sequence keeps it sorted. */
  lemma {:induction false} InsertSorted<T(!new)>(x: T, s: seq<T>, le: (T, T) -> bool)
    requires TotalPreorder(le) && Sorted(s, le)
    ensures Sorted(Insert(x, s, le), le)
  {
    if s != [] && !le(x, s[0]) {
      var rest := Insert(x, s[1..], le);
      InsertSorted(x, s[1..], le);
      assert s == [s[0]] + s[1..];
      assert forall y :: y in multiset(rest) ==> le(s[0], y);
      assert forall k :: 0 <= k < |rest| ==> rest[k] in multiset(rest);
    }
  }

  /** `s.sort(cmp)` where `cmp(a, b) <= 0` exactly when `le(a, b)`. */
  function SortBy<T(!new)>(s: seq<T>, le: (T, T) -> bool): (r: seq<T>)
    ensures |r| == |s|
    ensures multiset(r) == multiset(s)
  {
    if s == [] then []
    else
      assert s == [s[0]] + s[1..];
      Insert(s[0], SortBy(s[1..], le), le)
  }

  /** Sorting keeps exactly the values it was given. */
  lemma SortByMembers<T(!new)>(s: seq<T>, le: (T, T) -> bool)
    ensures forall x :: x in SortBy(s, le) <==> x in s
  {
    var r := SortBy(s, le);
    assert forall x :: x in r <==> x in multiset(r);
    assert forall x :: x in s <==> x in multiset(s);
  }

  /** For a total preorder the sort's result is ordered. */
  lemma {:induction false} SortBySorted<T(!new)>(s: seq<T>, le: (T, T) -> bool)
    requires TotalPreorder(le)
    ensures Sorted(SortBy(s, le), le)
  {
    if s != [] {
      SortBySorted(s[1..], le);
      InsertSorted(s[0], SortBy(s[1..], le), le);
    }
  }

  /** The elements that `le` ranks equal to `x`. */
  function TiedWith<T(!new)>(le: (T, T) -> bool, x: T): T -> bool
  {
    y => le(x, y) && le(y, x)
  }

  /** Inserting `y` puts it in front of every element tied with it. */
  lemma {:induction false} InsertTied<T(!new)>(y: T, t: seq<T>, le: (T, T) -> bool, x: T)
    requires TotalPreorder(le) && TiedWith(le, x)(y)
    ensures Filter(Insert(y, t, le), TiedWith(le, x)) == [y] + Filter(t, TiedWith(le, x))
  {
    var e := TiedWith(le, x);
    if t == [] {
      assert Insert(y, t, le) == [y];
      assert [y][1..] == [];
    } else if le(y, t[0]) {
      var u := [y] + t;
      assert Insert(y, t, le) == u;
      assert u[1..] == t && u[0] == y;
    } else {
      InsertTied(y, t[1..], le, x);
      assert !e(t[0]) by { NotBothTied(y, t[0], le, x); }
      var rest := Insert(y, t[1..], le);
      var u := [t[0]] + rest;
      assert Insert(y, t, le) == u;
      assert u[1..] == rest && u[0] == t[0];
      assert Filter(u, e) == Filter(rest, e);
      assert Filter(t, e) == Filter(t[1..], e);
    }
  }

  /** Inserting `y` leaves the elements outside `y`'s tie class where they were. */
  lemma {:induction false} InsertUntied<T(!new)>(y: T, t: seq<T>, le: (T, T) -> bool, x: T)
    requires !TiedWith(le, x)(y)
    ensures Filter(Insert(y, t, le), TiedWith(le, x)) == Filter(t, TiedWith(le, x))
  {
    var e := TiedWith(le, x);
    if t == [] {
      assert Insert(y, t, le) == [y];
      assert [y][1..] == [];
    } else if le(y, t[0]) {
      var u := [y] + t;
      assert Insert(y, t, le) == u;
      assert u[1..] == t && u[0] == y;
    } else {
      InsertUntied(y, t[1..], le, x);
      var rest := Insert(y, t[1..], le);
      var u := [t[0]] + rest;
      assert Insert(y, t, le) == u;
      assert u[1..] == rest && u[0] == t[0];
      if e(t[0]) {
        assert Filter(u, e) == [t[0]] + Filter(rest, e);
        assert Filter(t, e) == [t[0]] + Filter(t[1..], e);
      } else {
        assert Filter(u, e) == Filter(rest, e);
        assert Filter(t, e) == Filter(t[1..], e);
      }
    }
  }

  /** An element that `y` does not precede cannot share `y`'s tie class. */
  lemma NotBothTied<T(!new)>(y: T, z: T, le: (T, T) -> bool, x: T)
    requires TotalPreorder(le) && !le(y, z)
    ensures !(TiedWith(le, x)(y) && TiedWith(le, x)(z))
  {
  }

  /** The sort is stable: elements tied under `le` keep their input order. */
  lemma {:induction false} SortByStable<T(!new)>(s: seq<T>, le: (T, T) -> bool, x: T)
    requires TotalPreorder(le)
    ensures Filter(SortBy(s, le), TiedWith(le, x)) == Filter(s, TiedWith(le, x))
  {
    var e := TiedWith(le, x);
    if s != [] {
      var sorted := SortBy(s[1..], le);
      assert SortBy(s, le) == Insert(s[0], sorted, le);
      SortByStable(s[1..], le, x);
      if e(s[0]) {
        InsertTied(s[0], sorted, le, x);
        assert Filter(s, e) == [s[0]] + Filter(s[1..], e);
      } else {
        InsertUntied(s[0], sorted, le, x);
        assert Filter(s, e) == Filter(s[1..], e);
      }
    }
  }

  /** No value occurs twice. */
  ghost predicate NoDuplicates<T(!new)>(s: seq<T>)
  {
    forall i, j :: 0 <= i < j < |s| ==> s[i] != s[j]
  }

  /** `[...new Set(s)]`: the same values as `s`, each exactly once. */
  function Dedupe<T(==,!new)>(s: seq<T>): (r: seq<T>)
    ensures forall x :: x in r <==> x in s
    ensures NoDuplicates(r)
    decreases |s|
  {
    if s == [] then []
    else
      var head := s[0];
      var rest := Dedupe(Filter(s[1..], y => y != head));
      assert s == [head] + s[1..];
      assert forall k :: 0 <= k < |rest| ==> rest[k] in rest;
      [head] + rest
  }

  /** A duplicate-free sequence holds each value at most once. */
  lemma {:induction false} NoDuplicatesCount<T(!new)>(s: seq<T>, x: T)
    requires NoDuplicates(s)
    ensures multiset(s)[x] <= 1
  {
    if s != [] {
      assert s == [s[0]] + s[1..];
      NoDuplicatesCount(s[1..], x);
      if s[0] == x {
        assert x !in s[1..];
      }
    }
  }

  /** A value at two positions occurs at least twice. */
  lemma RepeatedCount<T(!new)>(b: seq<T>, i: nat, j: nat)
    requires i < j < |b| && b[i] == b[j]
    ensures multiset(b)[b[i]] >= 2
  {
    assert b == b[..i] + [b[i]] + b[i + 1..j] + [b[j]] + b[j + 1..];
  }

  /** Having the same elements as a duplicate-free sequence makes one duplicate-free. */
  lemma NoDuplicatesTransfer<T(!new)>(a: seq<T>, b: seq<T>)
    requires NoDuplicates(a) && multiset(a) == multiset(b)
    ensures NoDuplicates(b)
  {
    forall i, j | 0 <= i < j < |b| ensures b[i] != b[j] {
      if b[i] == b[j] {
        RepeatedCount(b, i, j);
        NoDuplicatesCount(a, b[i]);
      }
    }
  }

  /**
   * The default order of `sort()` on strings: lexicographic by character code.
   * Characters are code points here; JavaScript compares UTF-16 code units.
   */
  predicate LexLe(a: string, b: string)
    decreases |a|
  {
    a == [] || (b != [] && (a[0] < b[0] || (a[0] == b[0] && LexLe(a[1..], b[1..]))))
  }

  lemma {:induction false} LexLeTotal(a: string, b: string)
    ensures LexLe(a, b) || LexLe(b, a)
    decreases |a|
  {
    if a != [] && b != [] && a[0] == b[0] {
      LexLeTotal(a[1..], b[1..]);
    }
  }

  lemma {:induction false} LexLeTransitive(a: string, b: string, c: string)
    requires LexLe(a, b) && LexLe(b, c)
    ensures LexLe(a, c)
    decreases |a|
  {
    if a != [] && a[0] == b[0] && b[0] == c[0] {
      LexLeTransitive(a[1..], b[1..], c[1..]);
    }
  }

  lemma {:induction false} LexLeAntisymmetric(a: string, b: string)
    requires LexLe(a, b) && LexLe(b, a)
    ensures a == b
    decreases |a|
  {
    if a != [] {
      LexLeAntisymmetric(a[1..], b[1..]);
      assert a == [a[0]] + a[1..] && b == [b[0]] + b[1..];
    }
  }

  /** The string order is a total preorder, so `SortBy` applies to it; it is also antisymmetric. */
  lemma LexLeIsTotalPreorder()
    ensures TotalPreorder(LexLe)
    ensures forall a, b :: LexLe(a, b) && LexLe(b, a) ==> a == b
  {
    forall a, b | LexLe(a, b) && LexLe(b, a) ensures a == b {
      LexLeAntisymmetric(a, b);
    }
    forall a, b ensures LexLe(a, b) || LexLe(b, a) {
      LexLeTotal(a, b);
    }
    forall a, b, c | LexLe(a, b) && LexLe(b, c) ensures LexLe(a, c) {
      LexLeTransitive(a, b, c);
    }
  }
}
