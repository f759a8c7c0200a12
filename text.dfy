/**
 * Text primitives with the meaning the profiler's Java code relies on:
 * substring search (String.indexOf, Collections.indexOfSubList), String.split
 * with its removal of trailing empty strings, String.strip, decimal
 * formatting with %d, Integer.parseInt / Long.parseLong, and the 32-bit
 * wrap-around of int arithmetic.
 */
module Text {

  datatype Option<T> = None | Some(value: T)

  const INT_MIN: int := -0x8000_0000
  const INT_MAX: int := 0x7fff_ffff
  const LONG_MIN: int := -0x8000_0000_0000_0000
  const LONG_MAX: int := 0x7fff_ffff_ffff_ffff

  // ---------------------------------------------------------------------
  // Substring search

  predicate OccursAt<T(==)>(s: seq<T>, t: seq<T>, k: nat)
  {
    k + |t| <= |s| && s[k..k + |t|] == t
  }

  /** The first position at or after `from` where `t` occurs in `s`. */
  function IndexOfFrom<T(==)>(s: seq<T>, t: seq<T>, from: nat): (r: Option<nat>)
    ensures r.Some? ==> from <= r.value && OccursAt(s, t, r.value)
    ensures r.Some? ==> forall j :: from <= j < r.value ==> !OccursAt(s, t, j)
    ensures r.None? ==> forall j :: from <= j ==> !OccursAt(s, t, j)
    decreases |s| - from
  {
    if from + |t| > |s| then None
    else if s[from..from + |t|] == t then Some(from)
    else IndexOfFrom(s, t, from + 1)
  }

  function IndexOf<T(==)>(s: seq<T>, t: seq<T>): Option<nat>
  {
    IndexOfFrom(s, t, 0)
  }

  predicate Contains(s: string, t: string)
  {
    IndexOf(s, t).Some?
  }

  predicate StartsWith(s: string, p: string)
  {
    |p| <= |s| && s[..|p|] == p
  }

  /** An occurrence found in a prefix is still the first one once more is appended. */
  lemma {:induction false} IndexOfFromAppend<T>(p: seq<T>, q: seq<T>, t: seq<T>, from: nat)
    requires IndexOfFrom(p, t, from).Some?
    ensures IndexOfFrom(p + q, t, from) == IndexOfFrom(p, t, from)
    decreases |p| - from
  {
    assert (p + q)[from..from + |t|] == p[from..from + |t|];
    if p[from..from + |t|] != t {
      IndexOfFromAppend(p, q, t, from + 1);
    }
  }

  lemma OccursAtShift<T>(a: seq<T>, s: seq<T>, t: seq<T>, k: nat)
    ensures OccursAt(a + s, t, |a| + k) <==> OccursAt(s, t, k)
  {
    if k + |t| <= |s| {
      assert (a + s)[|a| + k..|a| + k + |t|] == s[k..k + |t|];
    }
  }

  /** Every occurrence inside a slice is an occurrence in the whole sequence. */
  lemma ContainsSlice(s: string, lo: nat, hi: nat, t: string)
    requires lo <= hi <= |s|
    requires Contains(s[lo..hi], t)
    ensures exists k :: lo <= k && k + |t| <= hi && OccursAt(s, t, k)
  {
    var k := IndexOf(s[lo..hi], t).value;
    assert s[lo + k..lo + k + |t|] == s[lo..hi][k..k + |t|];
    assert OccursAt(s, t, lo + k);
  }

  // ---------------------------------------------------------------------
  // Character classes

  /** The class `\s` of java.util.regex (no UNICODE_CHARACTER_CLASS flag). */
  predicate IsRegexSpace(c: char)
  {
    c == ' ' || c == '\t' || c == '\n' || c == '\U{000B}' || c == '\U{000C}' || c == '\r'
  }

  /** Character.isWhitespace, which String.strip uses (space, line and paragraph separators except the non-breaking ones). */
  predicate IsJavaWhitespace(c: char)
  {
    || IsRegexSpace(c)
    || ('\U{001C}' <= c <= '\U{001F}')
    || c == '\U{1680}' || ('\U{2000}' <= c <= '\U{2006}') || ('\U{2008}' <= c <= '\U{200A}')
    || c == '\U{2028}' || c == '\U{2029}' || c == '\U{205F}' || c == '\U{3000}'
  }

  /** The line terminators that the regex `.` does not match. */
  predicate IsLineTerminator(c: char)
  {
    c == '\n' || c == '\r' || c == '\U{0085}' || c == '\U{2028}' || c == '\U{2029}'
  }

  /** A text cut at its line terminators: no match of a pattern none of whose pieces matches a terminator crosses a cut. */
  function Lines(s: string): (r: seq<string>)
    ensures |r| >= 1
    ensures forall i, j :: 0 <= i < |r| && 0 <= j < |r[i]| ==> !IsLineTerminator(r[i][j])
  {
    if s == [] then [[]]
    else
      var rest := Lines(s[1..]);
      if IsLineTerminator(s[0]) then [[]] + rest
      else
        assert forall j :: 0 < j < |[s[0]] + rest[0]| ==> ([s[0]] + rest[0])[j] == rest[0][j - 1];
        [[s[0]] + rest[0]] + rest[1..]
  }

  predicate IsDigit(c: char)
  {
    '0' <= c <= '9'
  }

  predicate AllDigits(s: string)
  {
    forall i :: 0 <= i < |s| ==> IsDigit(s[i])
  }

  predicate Lacks(s: string, c: char)
  {
    forall i :: 0 <= i < |s| ==> s[i] != c
  }

  // ---------------------------------------------------------------------
  // String.split

  /** The separators the profiler splits on: a literal string, `\s`, or `\s+`. */
  datatype Separator = Literal(text: string) | WhiteChar | WhiteRun
  {
    predicate Valid() { Literal? ==> |text| > 0 }
  }

  function WhiteRunLength(s: string, k: nat): (n: nat)
    ensures k + n <= |s| || (k >= |s| && n == 0)
    ensures forall i :: k <= i < k + n ==> IsRegexSpace(s[i])
    decreases |s| - k
  {
    if k < |s| && IsRegexSpace(s[k]) then 1 + WhiteRunLength(s, k + 1) else 0
  }

  /** How many characters the separator matches at position k (0: no match there). */
  function MatchLength(s: string, k: nat, sep: Separator): (n: nat)
    requires sep.Valid()
    ensures n > 0 ==> k + n <= |s|
  {
    match sep
    case Literal(t) => if OccursAt(s, t, k) then |t| else 0
    case WhiteChar => if k < |s| && IsRegexSpace(s[k]) then 1 else 0
    case WhiteRun => if k < |s| then WhiteRunLength(s, k) else 0
  }

  /** Leftmost separator match at or after `from`. */
  function FirstSeparator(s: string, sep: Separator, from: nat): (r: Option<nat>)
    requires sep.Valid()
    ensures r.Some? ==> from <= r.value < |s| && MatchLength(s, r.value, sep) > 0
    ensures r.Some? ==> forall j :: from <= j < r.value ==> MatchLength(s, j, sep) == 0
    ensures r.None? ==> forall j :: from <= j < |s| ==> MatchLength(s, j, sep) == 0
    decreases |s| - from
  {
    if from >= |s| then None
    else if MatchLength(s, from, sep) > 0 then Some(from)
    else FirstSeparator(s, sep, from + 1)
  }

  /** All pieces between separator matches, trailing empty pieces included. */
  function Pieces(s: string, sep: Separator): (p: seq<string>)
    requires sep.Valid()
    ensures |p| >= 1
    decreases |s|
  {
    match FirstSeparator(s, sep, 0)
    case None => [s]
    case Some(k) => [s[..k]] + Pieces(s[k + MatchLength(s, k, sep)..], sep)
  }

  function DropTrailingEmpty(p: seq<string>): (r: seq<string>)
    ensures |r| <= |p| && r == p[..|r|]
    ensures |r| > 0 ==> r[|r| - 1] != ""
    ensures forall i :: |r| <= i < |p| ==> p[i] == ""
  {
    if |p| > 0 && p[|p| - 1] == "" then DropTrailingEmpty(p[..|p| - 1]) else p
  }

  /** String.split(regex): the input itself when nothing matches, otherwise the pieces without trailing empty ones. */
  function Split(s: string, sep: Separator): (r: seq<string>)
    requires sep.Valid()
  {
    if FirstSeparator(s, sep, 0).None? then [s] else DropTrailingEmpty(Pieces(s, sep))
  }

  /** With a one-character separator absent from `a`, the first separator sits right after `a`. */
  lemma {:induction false} FirstSeparatorAfter(a: string, c: char, b: string, from: nat)
    requires from <= |a| && Lacks(a, c)
    ensures FirstSeparator(a + [c] + b, Literal([c]), from) == Some(|a|)
    decreases |a| - from
  {
    var s := a + [c] + b;
    if from < |a| {
      assert s[from..from + 1] == [a[from]];
      FirstSeparatorAfter(a, c, b, from + 1);
    } else {
      assert s[from..from + 1] == [c];
    }
  }

  lemma {:induction false} NoSeparator(b: string, c: char, from: nat)
    requires Lacks(b, c)
    ensures FirstSeparator(b, Literal([c]), from) == None
    decreases |b| - from
  {
    if from < |b| {
      if from + 1 <= |b| {
        assert b[from..from + 1] == [b[from]];
      }
      NoSeparator(b, c, from + 1);
    }
  }

  /** `a c b` split on `c`, when neither `a` nor `b` holds `c` and `b` is not empty, is `[a, b]`. */
  lemma SplitTwo(a: string, c: char, b: string)
    requires Lacks(a, c) && Lacks(b, c) && b != ""
    ensures Split(a + [c] + b, Literal([c])) == [a, b]
  {
    var s := a + [c] + b;
    FirstSeparatorAfter(a, c, b, 0);
    NoSeparator(b, c, 0);
    assert s[..|a|] == a;
    assert s[|a| + 1..] == b;
    assert Pieces(s, Literal([c])) == [a, b];
  }

  /** A text without the separator splits into itself. */
  lemma SplitNone(b: string, c: char)
    requires Lacks(b, c)
    ensures Split(b, Literal([c])) == [b]
  {
    NoSeparator(b, c, 0);
  }

  lemma SuffixAfter(a: string, c: char, b: string, k: nat)
    requires k < |a|
    ensures (a + [c] + b)[k + 1..] == a[k + 1..] + [c] + b
  {
  }

  /** The first cut of `a c b` on `c` falls within `a` or on the `c` after it. */
  lemma FirstCut(a: string, c: char, b: string) returns (k: nat)
    ensures k <= |a|
    ensures Pieces(a + [c] + b, Literal([c])) == [(a + [c] + b)[..k]] + Pieces((a + [c] + b)[k + 1..], Literal([c]))
  {
    var s := a + [c] + b;
    var sep := Literal([c]);
    assert s[|a|..|a| + 1] == [c];
    assert MatchLength(s, |a|, sep) == 1;
    k := FirstSeparator(s, sep, 0).value;
    assert MatchLength(s, k, sep) == 1;
  }

  /** p is non-empty and ends with x. */
  predicate EndsWith<T(==)>(p: seq<T>, x: T)
  {
    p != [] && p[|p| - 1] == x
  }

  /** The last piece of `a c b` split on `c` is `b`, when `b` is non-empty and lacks `c`. */
  lemma {:induction false} LastPiece(a: string, c: char, b: string)
    requires Lacks(b, c) && b != ""
    ensures EndsWith(Pieces(a + [c] + b, Literal([c])), b)
    decreases |a|
  {
    var k := FirstCut(a, c, b);
    if k < |a| {
      SuffixAfter(a, c, b, k);
      LastPiece(a[k + 1..], c, b);
    } else {
      TailAfter(a, c, b);
      NoSeparator(b, c, 0);
    }
    LastOfCons((a + [c] + b)[..k], Pieces((a + [c] + b)[k + 1..], Literal([c])), b);
  }

  lemma TailAfter(a: string, c: char, b: string)
    ensures (a + [c] + b)[|a| + 1..] == b
  {
  }

  lemma LastOfCons<T>(x: T, p: seq<T>, y: T)
    requires EndsWith(p, y)
    ensures EndsWith([x] + p, y)
  {
  }

  lemma SplitLast(a: string, c: char, b: string)
    requires Lacks(b, c) && b != ""
    ensures EndsWith(Split(a + [c] + b, Literal([c])), b)
  {
    var s := a + [c] + b;
    assert s[|a|..|a| + 1] == [c];
    assert MatchLength(s, |a|, Literal([c])) > 0;
    LastPiece(a, c, b);
  }

  // ---------------------------------------------------------------------
  // String.strip and String.replace("\r\n", "\n")

  function StripLeading(s: string): (r: string)
    ensures |r| <= |s| && r == s[|s| - |r|..]
    ensures r == [] || !IsJavaWhitespace(r[0])
  {
    if |s| > 0 && IsJavaWhitespace(s[0]) then StripLeading(s[1..]) else s
  }

  function StripTrailing(s: string): (r: string)
    ensures |r| <= |s| && r == s[..|r|]
    ensures r == [] || !IsJavaWhitespace(r[|r| - 1])
  {
    if |s| > 0 && IsJavaWhitespace(s[|s| - 1]) then StripTrailing(s[..|s| - 1]) else s
  }

  function Strip(s: string): string
  {
    StripTrailing(StripLeading(s))
  }

  lemma StripNoop(s: string)
    requires s == [] || (!IsJavaWhitespace(s[0]) && !IsJavaWhitespace(s[|s| - 1]))
    ensures Strip(s) == s
  {
  }

  function ReplaceCrlf(s: string): (r: string)
    ensures |r| <= |s|
  {
    if |s| >= 2 && s[0] == '\r' && s[1] == '\n' then "\n" + ReplaceCrlf(s[2..])
    else if |s| == 0 then ""
    else [s[0]] + ReplaceCrlf(s[1..])
  }

  // ---------------------------------------------------------------------
  // Decimal numbers

  function DigitChar(d: nat): (c: char)
    requires d < 10
    ensures IsDigit(c) && c as int - '0' as int == d
  {
    ('0' as int + d) as char
  }

  /** Decimal text of n, as `%d` prints a non-negative int. */
  function NatToString(n: nat): string
    decreases n
  {
    if n < 10 then [DigitChar(n)] else NatToString(n / 10) + [DigitChar(n % 10)]
  }

  function IntToString(i: int): string
  {
    if i < 0 then "-" + NatToString(-i) else NatToString(i)
  }

  function DigitsValue(s: string): nat
    requires AllDigits(s)
  {
    if s == [] then 0 else DigitsValue(s[..|s| - 1]) * 10 + (s[|s| - 1] as int - '0' as int)
  }

  /** The decimal text of n is a non-empty run of digits that reads back as n. */
  lemma {:induction false} NatToStringRoundTrip(n: nat)
    ensures var s := NatToString(n); s != [] && AllDigits(s) && DigitsValue(s) == n
    decreases n
  {
    if n >= 10 {
      NatToStringRoundTrip(n / 10);
      var s, p, d := NatToString(n), NatToString(n / 10), DigitChar(n % 10);
      assert s == p + [d];
      assert s[..|s| - 1] == p && s[|s| - 1] == d;
      assert DigitsValue(s) == DigitsValue(p) * 10 + n % 10;
    }
  }

  /** Integer.parseInt / Long.parseLong on ASCII text: optional sign, digits, range [lo, hi]. */
  function ParseJavaInt(s: string, lo: int, hi: int): (r: Option<int>)
    ensures r.Some? ==> lo <= r.value <= hi
  {
    if |s| == 0 then None
    else
      var negative := s[0] == '-';
      var digits := if s[0] == '-' || s[0] == '+' then s[1..] else s;
      if |digits| == 0 || !AllDigits(digits) then None
      else
        var v: int := if negative then -(DigitsValue(digits) as int) else DigitsValue(digits);
        if lo <= v <= hi then Some(v) else None
  }

  lemma ParseNatToString(n: nat, lo: int, hi: int)
    requires lo <= n <= hi
    ensures ParseJavaInt(NatToString(n), lo, hi) == Some(n)
  {
    NatToStringRoundTrip(n);
  }

  // ---------------------------------------------------------------------
  // 32-bit int arithmetic

  /** The int that Java keeps of the mathematical value v (two's complement wrap-around). */
  function Wrap32(v: int): (r: int)
    ensures INT_MIN <= r <= INT_MAX
    ensures (r - v) % 0x1_0000_0000 == 0
  {
    (v - INT_MIN) % 0x1_0000_0000 + INT_MIN
  }
}
