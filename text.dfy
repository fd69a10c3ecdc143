/**
 * The string operations the endpoints and the composable use: `trim`,
 * `toLowerCase`, `replace` of a single character, `includes`, `join`, and
 * the decimal text of an integer inside a template literal.
 */
module Text {

  /** The characters `String.prototype.trim` removes: white space and line terminators. */
  predicate IsJsWhitespace(c: char)
  {
    || c == '\t' || c == '\n' || c == '\U{000B}' || c == '\U{000C}' || c == '\r' || c == ' '
    || c == '\U{00A0}' || c == '\U{1680}' || ('\U{2000}' <= c <= '\U{200A}')
    || c == '\U{2028}' || c == '\U{2029}' || c == '\U{202F}' || c == '\U{205F}'
    || c == '\U{3000}' || c == '\U{FEFF}'
  }

  predicate AllWhitespace(s: string)
  {
    forall k :: 0 <= k < |s| ==> IsJsWhitespace(s[k])
  }

  /** `s` without its leading white space. */
  function TrimStart(s: string): (r: string)
    ensures |r| <= |s| && r == s[|s| - |r|..]
    ensures AllWhitespace(s[..|s| - |r|])
    ensures r == [] || !IsJsWhitespace(r[0])
  {
    if s == [] || !IsJsWhitespace(s[0]) then s
    else
      var r := TrimStart(s[1..]);
      assert s[1..][..|s| - 1 - |r|] == s[1..|s| - |r|];
      r
  }

  /** `s` without its trailing white space. */
  function TrimEnd(s: string): (r: string)
    ensures |r| <= |s| && r == s[..|r|]
    ensures AllWhitespace(s[|r|..])
    ensures r == [] || !IsJsWhitespace(r[|r| - 1])
  {
    if s == [] || !IsJsWhitespace(s[|s| - 1]) then s
    else
      var r := TrimEnd(s[..|s| - 1]);
      assert s[..|s| - 1][|r|..] == s[|r|..|s| - 1];
      r
  }

  /** `r` is `s` with the white space `s[..i]` before it and only white space after it. */
  predicate TrimmedAt(s: string, r: string, i: int)
  {
    && 0 <= i && i + |r| <= |s| && r == s[i..i + |r|]
    && AllWhitespace(s[..i]) && AllWhitespace(s[i + |r|..])
  }

  /** `r` neither starts nor ends with white space. */
  predicate Unpadded(r: string)
  {
    r == [] || (!IsJsWhitespace(r[0]) && !IsJsWhitespace(r[|r| - 1]))
  }

  /**
   * `s.trim()`: the part of `s` between its leading and its trailing white
   * space, which neither starts nor ends with white space.
   */
  function Trim(s: string): (r: string)
    ensures exists i :: 0 <= i <= |s| && TrimmedAt(s, r, i)
    ensures Unpadded(r)
  {
    var t := TrimStart(s);
    var r := TrimEnd(t);
    TrimPieces(s, t, r);
    r
  }

  lemma TrimPieces(s: string, t: string, r: string)
    requires |t| <= |s| && t == s[|s| - |t|..] && AllWhitespace(s[..|s| - |t|])
    requires t == [] || !IsJsWhitespace(t[0])
    requires |r| <= |t| && r == t[..|r|] && AllWhitespace(t[|r|..])
    requires r == [] || !IsJsWhitespace(r[|r| - 1])
    ensures TrimmedAt(s, r, |s| - |t|)
    ensures Unpadded(r)
  {
    var i := |s| - |t|;
    SliceOfSuffix(s, i, |r|);
    TrimEnds(t, r);
  }

  /** Slicing a suffix is slicing the whole. */
  lemma SliceOfSuffix(s: string, i: nat, n: nat)
    requires i + n <= |s|
    ensures s[i..][..n] == s[i..i + n]
    ensures s[i..][n..] == s[i + n..]
  {
  }

  lemma TrimEnds(t: string, r: string)
    requires t == [] || !IsJsWhitespace(t[0])
    requires |r| <= |t| && r == t[..|r|]
    requires r == [] || !IsJsWhitespace(r[|r| - 1])
    ensures Unpadded(r)
  {
    if r != [] {
      assert r[0] == t[0];
    }
  }

  /** Trimming twice is trimming once. */
  lemma TrimIdempotent(s: string)
    ensures Trim(Trim(s)) == Trim(s)
  {
  }

  /** Leading white space does not reach past `TrimStart`. */
  lemma {:induction false} TrimStartPadded(w: string, s: string)
    requires AllWhitespace(w)
    ensures TrimStart(w + s) == TrimStart(s)
  {
    if w != [] {
      assert (w + s)[1..] == w[1..] + s;
      TrimStartPadded(w[1..], s);
    } else {
      assert w + s == s;
    }
  }

  /** Trailing white space does not reach past `TrimEnd`. */
  lemma {:induction false} TrimEndPadded(s: string, w: string)
    requires AllWhitespace(w)
    ensures TrimEnd(s + w) == TrimEnd(s)
    decreases |w|
  {
    if w != [] {
      assert (s + w)[..|s + w| - 1] == s + w[..|w| - 1];
      TrimEndPadded(s, w[..|w| - 1]);
    } else {
      assert s + w == s;
    }
  }

  /** What follows a non-blank string survives `TrimStart` untouched. */
  lemma {:induction false} TrimStartAppend(s: string, w: string)
    ensures TrimStart(s) != [] ==> TrimStart(s + w) == TrimStart(s) + w
    ensures TrimStart(s) == [] && AllWhitespace(w) ==> TrimStart(s + w) == []
  {
    if s == [] {
      assert s + w == w;
      if AllWhitespace(w) {
        TrimStartPadded(w, []);
        assert w + [] == w;
      }
    } else if IsJsWhitespace(s[0]) {
      assert (s + w)[0] == s[0] && (s + w)[1..] == s[1..] + w;
      assert TrimStart(s) == TrimStart(s[1..]);
      assert TrimStart(s + w) == TrimStart(s[1..] + w);
      TrimStartAppend(s[1..], w);
    } else {
      assert (s + w)[0] == s[0];
    }
  }

  /** `trim` ignores any white space added around a string. */
  lemma TrimPadded(w: string, s: string, w': string)
    requires AllWhitespace(w) && AllWhitespace(w')
    ensures Trim(w + s + w') == Trim(s)
  {
    assert w + s + w' == w + (s + w');
    TrimStartPadded(w, s + w');
    TrimStartAppend(s, w');
    var t := TrimStart(s + w');
    assert Trim(w + s + w') == TrimEnd(t);
    assert Trim(s) == TrimEnd(TrimStart(s));
    if TrimStart(s) != [] {
      TrimEndPadded(TrimStart(s), w');
    } else {
      assert t == [];
    }
  }

  /** `toLowerCase` on one character (ASCII letters only). */
  function LowerChar(c: char): char
  {
    if 'A' <= c <= 'Z' then (c as int + 32) as char else c
  }

  /** `s.toLowerCase()`, character by character. */
  function ToLower(s: string): (r: string)
    ensures |r| == |s|
    ensures forall k :: 0 <= k < |s| ==> r[k] == LowerChar(s[k])
  {
    seq(|s|, k requires 0 <= k < |s| => LowerChar(s[k]))
  }

  /** Lowering case works piece by piece and leaves white space alone. */
  lemma ToLowerAppend(a: string, b: string)
    ensures ToLower(a + b) == ToLower(a) + ToLower(b)
  {
  }

  lemma ToLowerWhitespace(w: string)
    requires AllWhitespace(w)
    ensures ToLower(w) == w
  {
  }

  /** Lowering case twice is lowering it once. */
  lemma ToLowerIdempotent(s: string)
    ensures ToLower(ToLower(s)) == ToLower(s)
  {
  }

  /**
   * `a.toLowerCase().trim() === b.toLowerCase().trim()`: the comparison
   * of a student's answer with the correct one.
   */
  predicate AnswersMatch(a: string, b: string)
  {
    Trim(ToLower(a)) == Trim(ToLower(b))
  }

  /** The comparison is unaffected by white space around the answer. */
  lemma AnswersMatchPadded(w: string, a: string, w': string, b: string)
    requires AllWhitespace(w) && AllWhitespace(w')
    ensures AnswersMatch(w + a + w', b) <==> AnswersMatch(a, b)
  {
    ToLowerAppend(w + a, w');
    ToLowerAppend(w, a);
    ToLowerWhitespace(w);
    ToLowerWhitespace(w');
    TrimPadded(w, ToLower(a), w');
  }

  /** The comparison is unaffected by the answer's letter case. */
  lemma AnswersMatchLowered(a: string, b: string)
    ensures AnswersMatch(ToLower(a), b) <==> AnswersMatch(a, b)
  {
    ToLowerIdempotent(a);
  }

  /** `sub` occurs in `s` starting at position `i`. */
  predicate OccursAt(s: string, sub: string, i: int)
  {
    0 <= i && i + |sub| <= |s| && s[i..i + |sub|] == sub
  }

  /** `s.includes(sub)`. */
  predicate Contains(s: string, sub: string)
  {
    exists i :: 0 <= i <= |s| - |sub| && OccursAt(s, sub, i)
  }

  lemma ContainsMiddle(a: string, b: string, c: string)
    ensures Contains(a + b + c, b)
  {
    assert OccursAt(a + b + c, b, |a|);
  }

  lemma ContainsStart(a: string, b: string)
    ensures Contains(a + b, a)
  {
    assert (a + b)[0..|a|] == a;
    assert OccursAt(a + b, a, 0);
  }

  lemma ContainsEnd(a: string, b: string)
    ensures Contains(a + b, b)
  {
    assert (a + b)[|a|..|a| + |b|] == b;
    assert OccursAt(a + b, b, |a|);
  }

  lemma ContainsLeft(a: string, b: string, x: string)
    requires Contains(a, x)
    ensures Contains(a + b, x)
  {
    var i :| 0 <= i <= |a| - |x| && OccursAt(a, x, i);
    assert (a + b)[i..i + |x|] == a[i..i + |x|];
    assert OccursAt(a + b, x, i);
  }

  lemma ContainsRight(a: string, b: string, x: string)
    requires Contains(b, x)
    ensures Contains(a + b, x)
  {
    var i :| 0 <= i <= |b| - |x| && OccursAt(b, x, i);
    assert (a + b)[|a| + i..|a| + i + |x|] == b[i..i + |x|];
    assert OccursAt(a + b, x, |a| + i);
  }

  lemma ContainsTransitive(s: string, m: string, x: string)
    requires Contains(s, m) && Contains(m, x)
    ensures Contains(s, x)
  {
    var i :| 0 <= i <= |s| - |m| && OccursAt(s, m, i);
    var j :| 0 <= j <= |m| - |x| && OccursAt(m, x, j);
    var y := s[i + j..i + j + |x|];
    assert forall k :: 0 <= k < |x| ==> y[k] == m[j + k] == x[k];
    assert y == x;
    assert OccursAt(s, x, i + j);
  }

  /** `s.replace(a, b)` with single characters: only the first `a` becomes `b`. */
  function ReplaceFirstChar(s: string, a: char, b: char): (r: string)
    ensures |r| == |s|
    ensures a !in s ==> r == s
    ensures a in s ==> exists i :: 0 <= i < |s| && s[i] == a && a !in s[..i] && r == s[i := b]
  {
    if s == [] then []
    else if s[0] == a then [b] + s[1..]
    else
      var rest := ReplaceFirstChar(s[1..], a, b);
      ReplaceShift(s, a, b, rest);
      [s[0]] + rest
  }

  /** A first `a` in the tail, after a head that is not `a`, is the first `a` of the whole. */
  lemma ReplaceShift(s: string, a: char, b: char, rest: string)
    requires s != [] && s[0] != a
    requires a in s[1..] ==> exists i :: 0 <= i < |s[1..]| && s[1..][i] == a && a !in s[1..][..i] && rest == s[1..][i := b]
    ensures a in s ==> exists i :: 0 <= i < |s| && s[i] == a && a !in s[..i] && [s[0]] + rest == s[i := b]
  {
    assert s == [s[0]] + s[1..];
    if a in s[1..] {
      var i :| 0 <= i < |s[1..]| && s[1..][i] == a && a !in s[1..][..i] && rest == s[1..][i := b];
      assert s[..i + 1] == [s[0]] + s[1..][..i];
      assert [s[0]] + rest == s[i + 1 := b];
    }
  }

  /** `items.join(sep)`. */
  function Join(items: seq<string>, sep: string): string
  {
    if |items| == 0 then ""
    else if |items| == 1 then items[0]
    else items[0] + (sep + Join(items[1..], sep))
  }

  /** Every item occurs in the joined text. */
  lemma {:induction false} JoinHolds(items: seq<string>, sep: string, k: nat)
    requires k < |items|
    ensures Contains(Join(items, sep), items[k])
  {
    if |items| == 1 {
      ContainsStart(items[0], "");
      assert items[0] + "" == items[0];
    } else {
      var rest := Join(items[1..], sep);
      assert Join(items, sep) == items[0] + (sep + rest);
      if k == 0 {
        ContainsStart(items[0], sep + rest);
      } else {
        JoinHolds(items[1..], sep, k - 1);
        JoinHoldsTail(items[0], sep, rest, items[k]);
      }
    }
  }

  lemma JoinHoldsTail(head: string, sep: string, rest: string, x: string)
    requires Contains(rest, x)
    ensures Contains(head + (sep + rest), x)
  {
    ContainsRight(sep, rest, x);
    ContainsRight(head, sep + rest, x);
  }

  /** An item of the first part of the items occurs in the joined text. */
  lemma JoinHoldsFirst(a: seq<string>, b: seq<string>, sep: string, k: nat)
    requires k < |a|
    ensures Contains(Join(a + b, sep), a[k])
  {
    JoinHolds(a + b, sep, k);
    assert (a + b)[k] == a[k];
  }

  /** An item of the second part of the items occurs in the joined text. */
  lemma JoinHoldsSecond(a: seq<string>, b: seq<string>, sep: string, k: nat)
    requires k < |b|
    ensures Contains(Join(a + b, sep), b[k])
  {
    JoinHolds(a + b, sep, |a| + k);
    assert (a + b)[|a| + k] == b[k];
  }

  /** A piece of a text that occurs in `s` occurs in `s`. */
  lemma ContainsPiece(s: string, pre: string, x: string, post: string)
    requires Contains(s, pre + x + post)
    ensures Contains(s, x)
  {
    ContainsMiddle(pre, x, post);
    ContainsTransitive(s, pre + x + post, x);
  }

  /** The end of a text that occurs in `s` occurs in `s`. */
  /** A text holding `head + mid + tail` holds its head and its tail. */
  lemma ContainsEnds(s: string, head: string, mid: string, tail: string)
    requires Contains(s, head + mid + tail)
    ensures Contains(s, head) && Contains(s, tail)
  {
    assert head + mid + tail == head + (mid + tail);
    ContainsStart(head, mid + tail);
    ContainsTransitive(s, head + mid + tail, head);
    ContainsEnd(head + mid, tail);
    ContainsTransitive(s, head + mid + tail, tail);
  }

  lemma ContainsSuffixPiece(s: string, pre: string, x: string)
    requires Contains(s, pre + x)
    ensures Contains(s, x)
  {
    ContainsEnd(pre, x);
    ContainsTransitive(s, pre + x, x);
  }

  /** `"${s}"` inside a template. */
  function Quoted(s: string): (r: string)
    ensures |r| == |s| + 2 && r[0] == '"' && r[|r| - 1] == '"' && r[1..|r| - 1] == s
  {
    "\"" + s + "\""
  }

  /** The decimal digit for 0..9. */
  function DigitChar(d: int): char
    requires 0 <= d < 10
  {
    ('0' as int + d) as char
  }

  predicate IsDigit(c: char)
  {
    '0' <= c <= '9'
  }

  /** The decimal text of a natural number, most significant digit first, no leading zeros. */
  function NatToString(n: nat): (r: string)
    ensures |r| >= 1 && forall k :: 0 <= k < |r| ==> IsDigit(r[k])
    ensures |r| > 1 ==> r[0] != '0'
  {
    if n < 10 then [DigitChar(n)] else NatToString(n / 10) + [DigitChar(n % 10)]
  }

  /** Reading decimal digits back into a number. */
  function DigitsValue(s: string): (r: nat)
    requires forall k :: 0 <= k < |s| ==> IsDigit(s[k])
  {
    if s == [] then 0
    else
      assert IsDigit(s[|s| - 1]);
      10 * DigitsValue(s[..|s| - 1]) + (s[|s| - 1] as int - '0' as int)
  }

  /** The decimal text reads back as the number it was made from. */
  lemma {:induction false} NatToStringRoundTrip(n: nat)
    ensures DigitsValue(NatToString(n)) == n
  {
    if n >= 10 {
      NatToStringRoundTrip(n / 10);
      var s := NatToString(n);
      assert s[..|s| - 1] == NatToString(n / 10);
    }
  }

  /** Different numbers have different decimal texts. */
  lemma NatToStringInjective(m: nat, n: nat)
    requires NatToString(m) == NatToString(n)
    ensures m == n
  {
    NatToStringRoundTrip(m);
    NatToStringRoundTrip(n);
  }

  /** `${n}` for an integer-valued number. */
  function IntToString(n: int): (r: string)
    ensures n >= 0 ==> r == NatToString(n)
    ensures n < 0 ==> r == "-" + NatToString(-n)
  {
    if n >= 0 then NatToString(n) else "-" + NatToString(-n)
  }

  /** `${b}` for a boolean. */
  function BoolToString(b: bool): (r: string)
    ensures b <==> r == "true"
  {
    if b then "true" else "false"
  }
}
