/**
 * The in-memory mirrors the stores keep of backend tables: `findIndex` by a
 * key, then index assignment, `push` or `unshift`.
 */
module Mirror {

  /** `s.findIndex(v => key(v) === k)`: the first position whose key is `k`, or -1. */
  function IndexOf<T, K(==)>(s: seq<T>, key: T -> K, k: K): (i: int)
    ensures -1 <= i < |s|
    ensures i == -1 <==> forall j :: 0 <= j < |s| ==> key(s[j]) != k
    ensures 0 <= i ==> key(s[i]) == k && forall j :: 0 <= j < i ==> key(s[j]) != k
  {
    if s == [] then -1
    else if key(s[0]) == k then 0
    else
      var i := IndexOf(s[1..], key, k);
      assert forall j :: 1 <= j < |s| ==> s[j] == s[1..][j - 1];
      if i == -1 then -1 else i + 1
  }

  /** The loop behind `findIndex`. */
  method FindIndex<T, K(==)>(s: seq<T>, key: T -> K, k: K) returns (i: int)
    ensures i == IndexOf(s, key, k)
  {
    i := 0;
    while i < |s|
      invariant 0 <= i <= |s|
      invariant forall j :: 0 <= j < i ==> key(s[j]) != k
    {
      if key(s[i]) == k {
        return;
      }
      i := i + 1;
    }
    i := -1;
  }

  /** `i = s.findIndex(...); if (i !== -1) s[i] = x`: replace the first match, if any. */
  function ReplaceFirst<T, K(==)>(s: seq<T>, key: T -> K, k: K, x: T): (r: seq<T>)
    ensures |r| == |s|
    ensures IndexOf(s, key, k) == -1 ==> r == s
    ensures IndexOf(s, key, k) != -1 ==> r[IndexOf(s, key, k)] == x
    ensures forall j :: 0 <= j < |s| && j != IndexOf(s, key, k) ==> r[j] == s[j]
  {
    var i := IndexOf(s, key, k);
    if i == -1 then s else s[i := x]
  }

  /** Replace the first entry with `x`'s key, or else `push` `x` at the end. */
  function UpsertAppend<T, K(==)>(s: seq<T>, key: T -> K, x: T): (r: seq<T>)
    ensures IndexOf(s, key, key(x)) == -1 ==> r == s + [x]
    ensures IndexOf(s, key, key(x)) != -1 ==> r == ReplaceFirst(s, key, key(x), x)
  {
    if IndexOf(s, key, key(x)) == -1 then s + [x] else ReplaceFirst(s, key, key(x), x)
  }

  /** Replace the first entry with key `k`, or else `unshift` `x` at the front. */
  function UpsertPrepend<T, K(==)>(s: seq<T>, key: T -> K, k: K, x: T): (r: seq<T>)
    ensures IndexOf(s, key, k) == -1 ==> r == [x] + s
    ensures IndexOf(s, key, k) != -1 ==> r == ReplaceFirst(s, key, k, x)
  {
    if IndexOf(s, key, k) == -1 then [x] + s else ReplaceFirst(s, key, k, x)
  }

  /** After replacing the first match, looking the key up again finds the new entry. */
  lemma ReplaceFirstThenFind<T, K>(s: seq<T>, key: T -> K, x: T)
    requires IndexOf(s, key, key(x)) != -1
    ensures IndexOf(ReplaceFirst(s, key, key(x), x), key, key(x)) == IndexOf(s, key, key(x))
  {
    var i := IndexOf(s, key, key(x));
    var r := ReplaceFirst(s, key, key(x), x);
    assert forall j :: 0 <= j < i ==> key(r[j]) != key(x);
    IndexOfUnique(r, key, key(x), i);
  }

  /** The position of the first match is the only one with its two properties. */
  lemma IndexOfUnique<T, K>(s: seq<T>, key: T -> K, k: K, i: nat)
    requires i < |s| && key(s[i]) == k && forall j :: 0 <= j < i ==> key(s[j]) != k
    ensures IndexOf(s, key, k) == i
  {
  }

  /** After an upsert the key is present and its first entry is the upserted one. */
  lemma UpsertAppendThenFind<T, K>(s: seq<T>, key: T -> K, x: T)
    ensures var r := UpsertAppend(s, key, x);
      var i := IndexOf(r, key, key(x));
      0 <= i && r[i] == x
  {
    var r := UpsertAppend(s, key, x);
    if IndexOf(s, key, key(x)) == -1 {
      assert forall j :: 0 <= j < |s| ==> key(r[j]) != key(x);
      IndexOfUnique(r, key, key(x), |s|);
    } else {
      ReplaceFirstThenFind(s, key, x);
    }
  }

  /** After a prepending upsert the key is present and its first entry is the upserted one. */
  lemma UpsertPrependThenFind<T, K>(s: seq<T>, key: T -> K, x: T)
    ensures var r := UpsertPrepend(s, key, key(x), x);
      var i := IndexOf(r, key, key(x));
      0 <= i && r[i] == x
  {
    var r := UpsertPrepend(s, key, key(x), x);
    if IndexOf(s, key, key(x)) == -1 {
      IndexOfUnique(r, key, key(x), 0);
    } else {
      ReplaceFirstThenFind(s, key, x);
    }
  }
}
