/**
 * The CPU sampler (CPUPerfService). Each update reads one `top` listing and
 * queues the pair (usage of the target package, usage of the whole device);
 * each dump averages the queued pairs and divides them by the core count.
 *
 * The regular expressions of acquireCPUData are modelled by what they match:
 * `.` never crosses a line terminator and neither `[\d.]`, ` ` nor `%` is
 * one, so every match lies inside one line of the output, and the matches
 * of a listing are those of its lines in order.
 */
module Cpu {
  import opened Text
  import opened Sampler

  datatype CpuSample = CpuSample(proc: real, total: real)

  /** A Java double as a division by an int can leave it. */
  datatype Double = Finite(value: real) | PositiveInfinity | NegativeInfinity | NaN

  function Divide(x: real, n: int): Double
  {
    if n != 0 then Finite(x / n as real)
    else if x > 0.0 then PositiveInfinity
    else if x < 0.0 then NegativeInfinity
    else NaN
  }

  // ---------------------------------------------------------------------
  // The package name is pasted into the pattern unquoted, so each '.' in it
  // matches any character but a line terminator.

  predicate CharMatches(p: char, c: char)
  {
    if p == '.' then !IsLineTerminator(c) else p == c
  }

  /** pkg[j..] matches the text from position k + j. */
  predicate MatchesFrom(text: string, pkg: string, k: nat, j: nat)
    decreases |pkg| - j
  {
    j >= |pkg| || (k + j < |text| && CharMatches(pkg[j], text[k + j]) && MatchesFrom(text, pkg, k, j + 1))
  }

  predicate FindPattern(text: string, pkg: string, k: nat)
    decreases |text| - k
  {
    k <= |text| && (MatchesFrom(text, pkg, k, 0) || FindPattern(text, pkg, k + 1))
  }

  predicate PatternOccurs(text: string, pkg: string)
  {
    FindPattern(text, pkg, 0)
  }

  lemma {:induction false} LiteralMatchesFrom(text: string, pkg: string, k: nat, j: nat)
    requires OccursAt(text, pkg, k) && j <= |pkg|
    ensures MatchesFrom(text, pkg, k, j)
    decreases |pkg| - j
  {
    if j < |pkg| {
      assert text[k..k + |pkg|][j] == text[k + j];
      LiteralMatchesFrom(text, pkg, k, j + 1);
    }
  }

  lemma {:induction false} FindPatternReaches(text: string, pkg: string, i: nat, k: nat)
    requires i <= k <= |text| && MatchesFrom(text, pkg, k, 0)
    ensures FindPattern(text, pkg, i)
    decreases k - i
  {
    if i < k {
      FindPatternReaches(text, pkg, i + 1, k);
    }
  }

  /** A literal occurrence of the package name is also a match of the pattern built from it. */
  lemma LiteralOccurrenceMatches(text: string, pkg: string)
    requires Contains(text, pkg)
    ensures PatternOccurs(text, pkg)
  {
    var k := IndexOf(text, pkg).value;
    LiteralMatchesFrom(text, pkg, k, 0);
    FindPatternReaches(text, pkg, 0, k);
  }

  /** The converse fails: the pattern built from "com.a" also matches "comxa". */
  lemma WildcardMatchesOtherNames()
    ensures PatternOccurs("comxa", "com.a") && !Contains("comxa", "com.a")
  {
    assert MatchesFrom("comxa", "com.a", 0, 0);
    assert !OccursAt("comxa", "com.a", 0);
  }

  // ---------------------------------------------------------------------
  // Numbers

  /** The class `[\d.]`. */
  predicate IsNumChar(c: char)
  {
    IsDigit(c) || c == '.'
  }

  /** The end of the longest run of `[\d.]` characters from i. */
  function RunEnd(line: string, i: nat): (e: nat)
    requires i <= |line|
    ensures i <= e <= |line|
    ensures forall k :: i <= k < e ==> IsNumChar(line[k])
    ensures e == |line| || !IsNumChar(line[e])
    decreases |line| - i
  {
    if i < |line| && IsNumChar(line[i]) then RunEnd(line, i + 1) else i
  }

  /** The end of the longest run of digits from i. */
  function DigitsEnd(s: string, i: nat): (e: nat)
    requires i <= |s|
    ensures i <= e <= |s|
    ensures forall k :: i <= k < e ==> IsDigit(s[k])
    ensures e == |s| || !IsDigit(s[e])
    decreases |s| - i
  {
    if i < |s| && IsDigit(s[i]) then DigitsEnd(s, i + 1) else i
  }

  function Pow10(n: nat): (r: nat)
    ensures r >= 1
  {
    if n == 0 then 1 else 10 * Pow10(n - 1)
  }

  /**
   * Double.parseDouble of a `[\d.]+` capture: digits, optionally a point and
   * more digits, and at least one digit in all. Anything else (a second
   * point, a lone point) is a NumberFormatException (None).
   */
  function ParseDouble(s: string): (r: Option<real>)
    ensures r.Some? ==> r.value >= 0.0
  {
    var k := DigitsEnd(s, 0);
    var whole := s[..k];
    assert AllDigits(whole);
    if k == |s| then (if k > 0 then Some(DigitsValue(whole) as real) else None)
    else if s[k] != '.' then None
    else
      var frac := s[k + 1..];
      if AllDigits(frac) && k + |frac| > 0 then
        var fraction := DigitsValue(frac) as real / Pow10(|frac|) as real;
        QuotientNonNegative(DigitsValue(frac) as real, Pow10(|frac|) as real);
        Some(DigitsValue(whole) as real + fraction)
      else None
  }

  lemma QuotientNonNegative(x: real, y: real)
    requires x >= 0.0 && y >= 1.0
    ensures 0.0 <= x / y <= x
  {
  }

  lemma {:induction false} DigitsEndAll(s: string, i: nat)
    requires i <= |s| && AllDigits(s)
    ensures DigitsEnd(s, i) == |s|
    decreases |s| - i
  {
    if i < |s| {
      DigitsEndAll(s, i + 1);
    }
  }

  /** The decimal text of a whole number parses back to that number. */
  lemma ParseDoubleOfNat(n: nat)
    ensures ParseDouble(NatToString(n)) == Some(n as real)
  {
    var s := NatToString(n);
    NatToStringRoundTrip(n);
    DigitsEndAll(s, 0);
    assert s[..|s|] == s;
  }

  /** A fraction is read with its point; a capture with two points throws. */
  lemma ParseDoubleExamples()
    ensures ParseDouble("12.5") == Some(12.5)
    ensures ParseDouble(".5") == Some(0.5)
    ensures ParseDouble("1.2.3") == None
    ensures ParseDouble(".") == None
  {
    assert DigitsEnd("12.5", 0) == 2;
    assert "12.5"[..2] == "12" && "12.5"[3..] == "5";
    assert DigitsValue("12") == 12;
    assert DigitsEnd(".5", 0) == 0;
    assert ".5"[..0] == "" && ".5"[1..] == "5";
    assert DigitsEnd("1.2.3", 0) == 1;
    assert "1.2.3"[2..][1] == '.';
    assert DigitsEnd(".", 0) == 0;
    assert "."[1..] == "";
  }

  // ---------------------------------------------------------------------
  // What the patterns capture in one line

  /**
   * A place where ` +([\d.]+)` can follow a greedy `.*`: a space right before
   * a `[\d.]` character. Greedy `.*` gives back as little as it can, so it
   * stops at the last such space.
   */
  predicate Candidate(line: string, p: nat)
  {
    p + 1 < |line| && line[p] == ' ' && IsNumChar(line[p + 1])
  }

  /** The number captured after the space at p. */
  function NumberAfter(line: string, p: nat): string
    requires p < |line|
  {
    line[p + 1..RunEnd(line, p + 1)]
  }

  /** The last candidate at or after `from`. */
  function LastCandidate(line: string, from: nat): (r: Option<nat>)
    ensures r.Some? ==> from <= r.value && Candidate(line, r.value)
    ensures r.Some? ==> forall p :: r.value < p ==> !Candidate(line, p)
    ensures r.None? ==> forall p :: from <= p ==> !Candidate(line, p)
    decreases |line| - from
  {
    if from >= |line| then None
    else match LastCandidate(line, from + 1)
      case Some(p) => Some(p)
      case None => if Candidate(line, from) then Some(from) else None
  }

  /**
   * `<pkg>.* +([\d.]+)` tried at the start positions k, k + 1, ... of a line:
   * the capture of the first start where the package pattern matches and a
   * candidate follows it.
   */
  function CurrentCapture(line: string, pkg: string, k: nat): Option<string>
    decreases |line| + 1 - k
  {
    if k > |line| then None
    else if MatchesFrom(line, pkg, k, 0) && LastCandidate(line, k + |pkg|).Some? then
      Some(NumberAfter(line, LastCandidate(line, k + |pkg|).value))
    else CurrentCapture(line, pkg, k + 1)
  }

  /**
   * A place where `.* +([\d.]+)% +.*<pkg>.*` can stop its first `.*`: a
   * candidate whose number is followed by '%', a space, and later by a match
   * of the package pattern.
   */
  predicate LegacyCandidate(line: string, pkg: string, p: nat)
  {
    Candidate(line, p) &&
    var e := RunEnd(line, p + 1);
    e + 1 < |line| && line[e] == '%' && line[e + 1] == ' ' && FindPattern(line, pkg, e + 2)
  }

  /** The last legacy candidate at or after `from`: the greedy leading `.*` again stops as late as it can. */
  function LastLegacy(line: string, pkg: string, from: nat): (r: Option<nat>)
    ensures r.Some? ==> from <= r.value && LegacyCandidate(line, pkg, r.value)
    ensures r.Some? ==> forall p :: r.value < p ==> !LegacyCandidate(line, pkg, p)
    ensures r.None? ==> forall p :: from <= p ==> !LegacyCandidate(line, pkg, p)
    decreases |line| - from
  {
    if from >= |line| then None
    else match LastLegacy(line, pkg, from + 1)
      case Some(p) => Some(p)
      case None => if LegacyCandidate(line, pkg, from) then Some(from) else None
  }

  /** The process pattern's capture in one line: the current format, or the legacy one. */
  function ProcCapture(line: string, pkg: string, legacy: bool): Option<string>
  {
    if !legacy then CurrentCapture(line, pkg, 0)
    else match LastLegacy(line, pkg, 0)
      case Some(p) => Some(NumberAfter(line, p))
      case None => None
  }

  /** The `([\d.]+)%` captures of a line from i on, left to right. */
  function PercentCaptures(line: string, i: nat): seq<string>
    decreases |line| - i
  {
    if i >= |line| then []
    else if !IsNumChar(line[i]) then PercentCaptures(line, i + 1)
    else
      var e := RunEnd(line, i);
      if e < |line| && line[e] == '%' then [line[i..e]] + PercentCaptures(line, e + 1)
      else PercentCaptures(line, e)
  }

  /** The device-total pattern's captures in one line: `.* +([\d.]+)` (current) or `([\d.]+)%` (legacy). */
  function TotalCapture(line: string, legacy: bool): seq<string>
  {
    if legacy then PercentCaptures(line, 0)
    else match LastCandidate(line, 0)
      case Some(p) => [NumberAfter(line, p)]
      case None => []
  }

  function ProcCaptures(rows: seq<string>, pkg: string, legacy: bool): seq<string>
  {
    if rows == [] then []
    else (match ProcCapture(rows[0], pkg, legacy) case Some(c) => [c] case None => []) + ProcCaptures(rows[1..], pkg, legacy)
  }

  function TotalCaptures(rows: seq<string>, legacy: bool): seq<string>
  {
    if rows == [] then [] else TotalCapture(rows[0], legacy) + TotalCaptures(rows[1..], legacy)
  }

  // ---------------------------------------------------------------------
  // Properties of the captures

  /** In the current format the process number comes after a match of the package pattern, and it is the last candidate of its line. */
  lemma {:induction false} CurrentCaptureAfterPackage(line: string, pkg: string, k: nat)
    requires CurrentCapture(line, pkg, k).Some?
    ensures exists m: nat, p: nat :: (k <= m && MatchesFrom(line, pkg, m, 0) && m + |pkg| <= p && Candidate(line, p)
      && (forall q :: p < q ==> !Candidate(line, q))
      && CurrentCapture(line, pkg, k).value == NumberAfter(line, p))
    decreases |line| + 1 - k
  {
    if !(MatchesFrom(line, pkg, k, 0) && LastCandidate(line, k + |pkg|).Some?) {
      CurrentCaptureAfterPackage(line, pkg, k + 1);
    } else {
      var p := LastCandidate(line, k + |pkg|).value;
      assert MatchesFrom(line, pkg, k, 0) && k + |pkg| <= p && Candidate(line, p);
    }
  }

  /** A number only before the package is not taken in the current format: `  5 com.foo` contributes nothing. */
  lemma NumberBeforePackageIgnored()
    ensures ProcCapture("  5 com.foo", "com.foo", false) == None
  {
    var line, pkg := "  5 com.foo", "com.foo";
    forall k | 0 <= k < 4
      ensures !MatchesFrom(line, pkg, k, 0)
    {
      assert line[k] != 'c';
    }
    forall k | 0 <= k <= |line|
      ensures !(MatchesFrom(line, pkg, k, 0) && LastCandidate(line, k + |pkg|).Some?)
    {
      MatchWithinText(line, pkg, k, 0);
    }
    CurrentCaptureNone(line, pkg, 0);
  }

  /** A match of the package pattern ends inside the text. */
  lemma {:induction false} MatchWithinText(text: string, pkg: string, k: nat, j: nat)
    requires j <= |pkg|
    ensures MatchesFrom(text, pkg, k, j) && k + j <= |text| ==> k + |pkg| <= |text|
    decreases |pkg| - j
  {
    if j < |pkg| {
      MatchWithinText(text, pkg, k, j + 1);
    }
  }

  lemma {:induction false} CurrentCaptureNone(line: string, pkg: string, k: nat)
    requires forall m :: k <= m <= |line| ==> !(MatchesFrom(line, pkg, m, 0) && LastCandidate(line, m + |pkg|).Some?)
    ensures CurrentCapture(line, pkg, k) == None
    decreases |line| + 1 - k
  {
    if k <= |line| {
      CurrentCaptureNone(line, pkg, k + 1);
    }
  }

  /** In the legacy format the process number is followed by '%' and the package comes after it. */
  lemma LegacyCaptureIsPercent(line: string, pkg: string)
    requires ProcCapture(line, pkg, true).Some?
    ensures exists p: nat :: (Candidate(line, p)
      && var e := RunEnd(line, p + 1);
         e + 1 < |line| && line[e] == '%' && FindPattern(line, pkg, e + 2)
         && ProcCapture(line, pkg, true).value == line[p + 1..e])
  {
    var p := LastLegacy(line, pkg, 0).value;
    assert LegacyCandidate(line, pkg, p);
  }

  /** A row of the legacy table yields its `%` column, not the number that follows it. */
  lemma LegacyRowExample()
    ensures ProcCapture(" 12% S 50 com.a", "com.a", true) == Some("12")
  {
    var line, pkg := " 12% S 50 com.a", "com.a";
    assert MatchesFrom(line, pkg, 10, 0);
    FindPatternReaches(line, pkg, 5, 10);
    assert RunEnd(line, 1) == 3;
    assert LegacyCandidate(line, pkg, 0);
    assert RunEnd(line, 7) == 9;
    forall p | 0 < p
      ensures !LegacyCandidate(line, pkg, p)
    {
      if p != 6 {
        assert !Candidate(line, p);
      }
    }
    LastLegacyIs(line, pkg, 0, 0);
    assert line[1..3] == "12";
  }

  /** The last legacy candidate, once it is known to be the last one from `from` on. */
  lemma {:induction false} LastLegacyIs(line: string, pkg: string, from: nat, p: nat)
    requires from <= p && LegacyCandidate(line, pkg, p)
    requires forall q :: p < q ==> !LegacyCandidate(line, pkg, q)
    ensures LastLegacy(line, pkg, from) == Some(p)
    decreases p - from
  {
    if from < p {
      LastLegacyIs(line, pkg, from + 1, p);
    } else {
      var r := LastLegacy(line, pkg, from + 1);
      assert r.None?;
    }
  }

  lemma {:induction false} FindPatternLater(text: string, pkg: string, i: nat, j: nat)
    requires i <= j && FindPattern(text, pkg, j)
    ensures FindPattern(text, pkg, i)
    decreases j - i
  {
    if i < j {
      FindPatternLater(text, pkg, i + 1, j);
    }
  }

  /** A line without a match of the package pattern contributes no process number in either format. */
  lemma NoPackageNoCapture(line: string, pkg: string)
    requires !PatternOccurs(line, pkg)
    ensures ProcCapture(line, pkg, false) == None
    ensures ProcCapture(line, pkg, true) == None
  {
    if CurrentCapture(line, pkg, 0).Some? {
      CurrentCaptureAfterPackage(line, pkg, 0);
      var m, p :| 0 <= m && MatchesFrom(line, pkg, m, 0) && m + |pkg| <= p && Candidate(line, p);
      FindPatternReaches(line, pkg, 0, m);
    }
    if LastLegacy(line, pkg, 0).Some? {
      var p := LastLegacy(line, pkg, 0).value;
      FindPatternLater(line, pkg, 0, RunEnd(line, p + 1) + 2);
    }
  }

  // ---------------------------------------------------------------------
  // Summing the captures

  function Plus(v: real, r: Option<real>): Option<real>
  {
    match r
    case None => None
    case Some(x) => Some(v + x)
  }

  /** The process loop: every capture is parsed and added; one that does not parse throws (None). */
  function SumAll(caps: seq<string>): Option<real>
  {
    if caps == [] then Some(0.0)
    else match ParseDouble(caps[0])
      case None => None
      case Some(v) => Plus(v, SumAll(caps[1..]))
  }

  /** The device-total loop: captures are parsed and added up to, not including, the first zero. */
  function TotalUntilZero(caps: seq<string>): Option<real>
  {
    if caps == [] then Some(0.0)
    else match ParseDouble(caps[0])
      case None => None
      case Some(v) => if v == 0.0 then Some(0.0) else Plus(v, TotalUntilZero(caps[1..]))
  }

  /**
   * What acquireCPUData returns: the current listing is read when it mentions
   * the package, else the legacy one; a capture that does not parse is a
   * NumberFormatException (None).
   */
  function CpuReading(current: string, legacy: string, pkg: string): (r: Option<CpuSample>)
    ensures r.Some? ==> r.value.proc >= 0.0 && r.value.total >= 0.0
  {
    var oldTop := !Contains(current, pkg);
    var rows := Lines(if oldTop then legacy else current);
    var proc := SumAll(ProcCaptures(rows, pkg, oldTop));
    var total := TotalUntilZero(TotalCaptures(rows, oldTop));
    SumAllNonNegative(ProcCaptures(rows, pkg, oldTop));
    TotalNonNegative(TotalCaptures(rows, oldTop));
    if proc.None? || total.None? then None else Some(CpuSample(proc.value, total.value))
  }

  lemma {:induction false} SumAllNonNegative(caps: seq<string>)
    ensures SumAll(caps).Some? ==> SumAll(caps).value >= 0.0
  {
    if caps != [] {
      SumAllNonNegative(caps[1..]);
    }
  }

  lemma {:induction false} TotalNonNegative(caps: seq<string>)
    ensures TotalUntilZero(caps).Some? ==> TotalUntilZero(caps).value >= 0.0
  {
    if caps != [] {
      TotalNonNegative(caps[1..]);
    }
  }

  /** One capture that does not parse makes the whole reading throw. */
  lemma {:induction false} UnparsableCaptureThrows(caps: seq<string>, i: nat)
    requires i < |caps| && ParseDouble(caps[i]).None?
    ensures SumAll(caps) == None
    decreases i
  {
    if i > 0 {
      UnparsableCaptureThrows(caps[1..], i - 1);
    }
  }

  /** The sum of numbers that all parse. */
  function Total(values: seq<real>): real
  {
    if values == [] then 0.0 else values[0] + Total(values[1..])
  }

  predicate ParsesTo(caps: seq<string>, values: seq<real>)
  {
    |caps| == |values| && forall i :: 0 <= i < |caps| ==> ParseDouble(caps[i]) == Some(values[i])
  }

  /**
   * The device total is the plain sum of the numbers before the first zero;
   * what follows the zero is never parsed, so even a malformed number there
   * does not throw.
   */
  lemma {:induction false} TotalStopsAtFirstZero(a: seq<string>, values: seq<real>, zero: string, b: seq<string>)
    requires ParsesTo(a, values) && forall i :: 0 <= i < |values| ==> values[i] != 0.0
    requires ParseDouble(zero) == Some(0.0)
    ensures TotalUntilZero(a) == Some(Total(values))
    ensures TotalUntilZero(a + [zero] + b) == Some(Total(values))
    decreases |a|
  {
    if a != [] {
      assert (a + [zero] + b)[0] == a[0];
      assert (a + [zero] + b)[1..] == a[1..] + [zero] + b;
      assert ParsesTo(a[1..], values[1..]) by {
        forall i | 0 <= i < |a[1..]|
          ensures ParseDouble(a[1..][i]) == Some(values[1..][i])
        {
          assert ParseDouble(a[i + 1]) == Some(values[i + 1]);
        }
      }
      TotalStopsAtFirstZero(a[1..], values[1..], zero, b);
    } else {
      assert (a + [zero] + b)[0] == zero;
    }
  }

  /** The process loop over the captures of the listing. */
  method SumMatching(caps: seq<string>) returns (usage: Option<real>)
    ensures usage == SumAll(caps)
  {
    var sum := 0.0;
    var i := 0;
    while i < |caps|
      invariant 0 <= i <= |caps|
      invariant SumAll(caps) == Plus(sum, SumAll(caps[i..]))
    {
      assert caps[i..][0] == caps[i] && caps[i..][1..] == caps[i + 1..];
      var v := ParseDouble(caps[i]);
      if v.None? {
        return None;
      }
      PlusTwice(sum, v.value, SumAll(caps[i + 1..]));
      sum := sum + v.value;
      i := i + 1;
    }
    assert caps[i..] == [];
    return Some(sum);
  }

  lemma PlusTwice(a: real, b: real, r: Option<real>)
    ensures Plus(a, Plus(b, r)) == Plus(a + b, r)
  {
  }

  /** The device-total loop, with its break at the first zero. */
  method SumUntilZero(caps: seq<string>) returns (usage: Option<real>)
    ensures usage == TotalUntilZero(caps)
  {
    var sum := 0.0;
    var i := 0;
    while i < |caps|
      invariant 0 <= i <= |caps|
      invariant TotalUntilZero(caps) == Plus(sum, TotalUntilZero(caps[i..]))
    {
      assert caps[i..][0] == caps[i] && caps[i..][1..] == caps[i + 1..];
      var v := ParseDouble(caps[i]);
      if v.None? {
        return None;
      }
      if v.value == 0.0 {
        break;
      }
      PlusTwice(sum, v.value, TotalUntilZero(caps[i + 1..]));
      sum := sum + v.value;
      i := i + 1;
    }
    if i == |caps| {
      assert caps[i..] == [];
    }
    return Some(sum);
  }

  method AcquireCpuData(current: string, legacy: string, pkg: string) returns (sample: Option<CpuSample>)
    ensures sample == CpuReading(current, legacy, pkg)
  {
    var oldTop := false;
    var info := current;
    if !Contains(current, pkg) {
      oldTop := true;
      info := legacy;
    }
    var rows := Lines(info);
    var procUsage := SumMatching(ProcCaptures(rows, pkg, oldTop));
    if procUsage.None? {
      return None;
    }
    var totalUsage := SumUntilZero(TotalCaptures(rows, oldTop));
    if totalUsage.None? {
      return None;
    }
    sample := Some(CpuSample(procUsage.value, totalUsage.value));
  }

  // ---------------------------------------------------------------------
  // Averaging

  function SumSamples(q: seq<CpuSample>): CpuSample
  {
    if q == [] then CpuSample(0.0, 0.0)
    else var r := SumSamples(q[1..]); CpuSample(q[0].proc + r.proc, q[0].total + r.total)
  }

  /** The averages a dump reports before the division by cores; zero for an empty queue. */
  function Mean(q: seq<CpuSample>): CpuSample
  {
    if q == [] then CpuSample(0.0, 0.0)
    else var s := SumSamples(q); CpuSample(s.proc / |q| as real, s.total / |q| as real)
  }

  lemma {:induction false} SumSamplesBounds(q: seq<CpuSample>, lo: real, hi: real)
    requires forall i :: 0 <= i < |q| ==> lo <= q[i].proc <= hi
    ensures |q| as real * lo <= SumSamples(q).proc <= |q| as real * hi
    decreases |q|
  {
    if q != [] {
      SumSamplesBounds(q[1..], lo, hi);
    }
  }

  /** The reported average lies between the smallest and the largest sample. */
  lemma MeanBetween(q: seq<CpuSample>, lo: real, hi: real)
    requires q != []
    requires forall i :: 0 <= i < |q| ==> lo <= q[i].proc <= hi
    ensures lo <= Mean(q).proc <= hi
  {
    SumSamplesBounds(q, lo, hi);
    DivideBounds(SumSamples(q).proc, |q| as real, lo, hi);
  }

  /** Dividing by a positive count keeps a value between the scaled bounds. */
  lemma DivideBounds(s: real, n: real, lo: real, hi: real)
    requires n > 0.0 && n * lo <= s <= n * hi
    ensures lo <= s / n <= hi
  {
    var m := s / n;
    assert n * m == s;
    if m < lo {
      ScaleStrict(n, m, lo);
      assert false;
    }
    if m > hi {
      ScaleStrict(n, hi, m);
      assert false;
    }
  }

  lemma ScaleStrict(n: real, a: real, b: real)
    requires n > 0.0 && a < b
    ensures n * a < n * b
  {
    assert n * b - n * a == n * (b - a);
  }

  class CpuSampler {
    const base: BaseSampler<CpuSample>

    constructor ()
      ensures fresh(base)
      ensures base.dataQueue == [] && base.timer == 0 && !base.executorShutDown
      ensures base.updateTask == NoTask && base.dumpTask == NoTask
    {
      base := new BaseSampler<CpuSample>();
    }

    /**
     * Queues one reading. When a number does not parse, the exception leaves
     * the queue as it was and stops the periodic update task for good.
     */
    method Update(current: string, legacy: string, pkg: string) returns (completed: bool)
      modifies base`dataQueue, base`updateTask
      ensures completed <==> CpuReading(current, legacy, pkg).Some?
      ensures completed ==> base.dataQueue == old(base.dataQueue) + [CpuReading(current, legacy, pkg).value]
      ensures completed ==> base.updateTask == old(base.updateTask)
      ensures !completed ==> base.dataQueue == old(base.dataQueue) && base.updateTask == Suppress(old(base.updateTask))
    {
      var sample := AcquireCpuData(current, legacy, pkg);
      if sample.None? {
        base.UpdateThrew();
        return false;
      }
      base.dataQueue := base.dataQueue + [sample.value];
      return true;
    }

    /** Drains the queue and reports the two averages divided by the number of cores. */
    method Dump(cpuCores: int) returns (procUsage: Double, totalUsage: Double)
      modifies base`dataQueue
      ensures base.dataQueue == []
      ensures procUsage == Divide(Mean(old(base.dataQueue)).proc, cpuCores)
      ensures totalUsage == Divide(Mean(old(base.dataQueue)).total, cpuCores)
    {
      base.Dump();
      var queue := base.dataQueue;
      var proc := 0.0;
      var total := 0.0;
      var count := 0;
      while queue != []
        invariant 0 <= count <= |old(base.dataQueue)| && queue == old(base.dataQueue)[count..]
        invariant SumSamples(old(base.dataQueue)) == CpuSample(proc + SumSamples(queue).proc, total + SumSamples(queue).total)
      {
        var data := queue[0];
        proc := proc + data.proc;
        total := total + data.total;
        queue := queue[1..];
        count := count + 1;
      }
      base.dataQueue := queue;
      if count == 0 {
        proc := 0.0;
        total := 0.0;
      } else {
        proc := proc / count as real;
        total := total / count as real;
      }
      procUsage := Divide(proc, cpuCores);
      totalUsage := Divide(total, cpuCores);
    }
  }
}
