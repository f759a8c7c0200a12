/**
 * The small parsers of Device that turn one command output into one value:
 * the SDK level (getprop), the ABI to push the server for, the uid of the
 * target package (dumpsys package), the focused window (dumpsys window) and
 * the launcher package list (dumpsys package r activity and ps -A).
 */
module DeviceQueries {
  import opened Text

  // ---------------------------------------------------------------------
  // SDK level

  /** `Integer.parseInt` of the getprop text, 0 when it does not parse. */
  function SdkVersion(prop: string): (v: int)
    ensures INT_MIN <= v <= INT_MAX
  {
    match ParseJavaInt(prop, INT_MIN, INT_MAX)
    case Some(x) => x
    case None => 0
  }

  /** The decimal text of an SDK level reads back as that level. */
  lemma SdkVersionRoundTrip(n: nat)
    requires n <= INT_MAX
    ensures SdkVersion(NatToString(n)) == n
  {
    ParseNatToString(n, INT_MIN, INT_MAX);
  }

  /** A text with a character that is no digit and no leading sign gives the default 0. */
  lemma SdkVersionDefaultsToZero(prop: string, k: nat)
    requires 0 < k < |prop| && !IsDigit(prop[k])
    ensures SdkVersion(prop) == 0
  {
    var digits := if prop[0] == '-' || prop[0] == '+' then prop[1..] else prop;
    if digits == prop[1..] {
      assert digits[k - 1] == prop[k];
    } else {
      assert digits[k] == prop[k];
    }
  }

  // ---------------------------------------------------------------------
  // ABI

  /** The ABI list property, "Unknown" when getprop prints nothing. */
  function AbiList(prop: string): (abis: string)
    ensures abis != ""
    ensures prop != "" ==> abis == prop
  {
    if prop != "" then prop else "Unknown"
  }

  lemma ContainsPrefix(s: string, t: string, u: string)
    requires Contains(s, t) && StartsWith(t, u)
    ensures Contains(s, u)
  {
    var k := IndexOf(s, t).value;
    assert s[k..k + |u|] == t[..|u|];
    assert OccursAt(s, u, k);
  }

  lemma LacksFirst(s: string, t: string)
    requires t != [] && Lacks(s, t[0])
    ensures !Contains(s, t)
  {
  }

  /** The server build pushed for the ABI list: the first of x86_64, x86, arm64-v8a it mentions, else armeabi-v7a. */
  function ChooseAbi(abiList: string): (abi: string)
    ensures abi == "x86_64" <==> Contains(abiList, "x86_64")
    ensures abi == "x86" <==> Contains(abiList, "x86") && !Contains(abiList, "x86_64")
    ensures abi == "arm64-v8a" <==> Contains(abiList, "arm64-v8a") && !Contains(abiList, "x86")
    ensures abi == "armeabi-v7a" <==> !Contains(abiList, "x86") && !Contains(abiList, "arm64-v8a")
  {
    if Contains(abiList, "x86_64") then
      ContainsPrefix(abiList, "x86_64", "x86");
      "x86_64"
    else if Contains(abiList, "x86") then "x86"
    else if Contains(abiList, "arm64-v8a") then "arm64-v8a"
    else "armeabi-v7a"
  }

  /** A device whose ABI list cannot be read gets the 32-bit ARM build. */
  lemma UnknownAbiGetsArm()
    ensures ChooseAbi(AbiList("")) == "armeabi-v7a"
  {
    LacksFirst("Unknown", "x86");
    LacksFirst("Unknown", "arm64-v8a");
  }

  // ---------------------------------------------------------------------
  // The uid of the target package

  datatype UidOutcome =
    | NewUid(uid: int)   // the uid is replaced
    | KeepUid            // no userId= line, or a value that is not an int (caught)
    | UidCrash           // an index out of bounds escapes setTargetPackage

  /** The uid read from the first line of the grep for userId. */
  function ParseUid(uidInfo: string): (r: UidOutcome)
    ensures r.NewUid? ==> INT_MIN <= r.uid <= INT_MAX
  {
    var lines := Split(uidInfo, Literal("\n"));
    if |lines| == 0 then UidCrash else UidOfLine(Strip(lines[0]))
  }

  /** The uid of the stripped first line: the int after the first '='. */
  function UidOfLine(line: string): (r: UidOutcome)
    ensures r.NewUid? ==> INT_MIN <= r.uid <= INT_MAX
  {
    if !Contains(line, "userId=") then KeepUid
    else
      var parts := Split(line, Literal("="));
      if |parts| < 2 then UidCrash
      else match ParseJavaInt(parts[1], INT_MIN, INT_MAX)
        case Some(v) => NewUid(v)
        case None => KeepUid
  }

  /** A one-line reply without surrounding whitespace is read as it is. */
  lemma UidOfSingleLine(line: string)
    requires line != [] && Lacks(line, '\n')
    requires !IsJavaWhitespace(line[0]) && !IsJavaWhitespace(line[|line| - 1])
    ensures ParseUid(line) == UidOfLine(line)
  {
    SplitNone(line, '\n');
    StripNoop(line);
  }

  /** The first piece of a split is the text before the first separator. */
  lemma SplitFirst(a: string, c: char, b: string)
    requires a != "" && Lacks(a, c)
    ensures var r := Split(a + [c] + b, Literal([c])); |r| > 0 && r[0] == a
  {
    var s := a + [c] + b;
    FirstSeparatorAfter(a, c, b, 0);
    assert s[..|a|] == a;
    var p := Pieces(s, Literal([c]));
    assert p[0] == a;
  }

  lemma LacksDigits(s: string, c: char)
    requires AllDigits(s) && !IsDigit(c)
    ensures Lacks(s, c)
  {
  }

  /** Only the first line of the reply is read. */
  lemma UidOfFirstLine(line: string, rest: string)
    requires line != [] && Lacks(line, '\n')
    requires !IsJavaWhitespace(line[0]) && !IsJavaWhitespace(line[|line| - 1])
    ensures ParseUid(line + "\n" + rest) == UidOfLine(line)
  {
    assert line + "\n" + rest == line + ['\n'] + rest;
    SplitFirst(line, '\n', rest);
    StripNoop(line);
  }

  lemma UidOfDigits(u: nat)
    requires u <= INT_MAX
    ensures UidOfLine("userId=" + NatToString(u)) == NewUid(u)
  {
    var digits := NatToString(u);
    NatToStringRoundTrip(u);
    LacksDigits(digits, '=');
    UserIdFields(digits);
    ParseNatToString(u, INT_MIN, INT_MAX);
  }

  /** The line `userId=<uid>` gives that uid, whatever follows on later lines. */
  lemma UidRoundTrip(u: nat, rest: string)
    requires u <= INT_MAX
    ensures ParseUid("userId=" + NatToString(u) + "\n" + rest) == NewUid(u)
  {
    UidLineShape(u);
    UidOfFirstLine("userId=" + NatToString(u), rest);
    UidOfDigits(u);
  }

  lemma UidLineShape(u: nat)
    ensures var line := "userId=" + NatToString(u);
      line != [] && Lacks(line, '\n') && !IsJavaWhitespace(line[0]) && !IsJavaWhitespace(line[|line| - 1])
  {
    var digits := NatToString(u);
    var line := "userId=" + digits;
    NatToStringRoundTrip(u);
    assert line[0] == 'u';
    assert line[|line| - 1] == digits[|digits| - 1];
    LacksDigits(digits, '\n');
    assert Lacks(line, '\n') by {
      Segment(line, "userId=", digits, []);
    }
  }

  lemma UserIdFields(value: string)
    requires value != "" && Lacks(value, '=')
    ensures Contains("userId=" + value, "userId=")
    ensures Split("userId=" + value, Literal("=")) == ["userId", value]
  {
    var line := "userId=" + value;
    assert OccursAt(line, "userId=", 0);
    assert line == "userId" + ['='] + value;
    SplitTwo("userId", '=', value);
  }

  /** More text after the number (as in `userId=10061 gids=[3003]`) makes parseInt fail, and the uid is kept. */
  lemma UidWithTrailingFieldsKept(u: nat, more: string)
    requires more != "" && Lacks(more, '=') && Lacks(more, '\n') && !IsDigit(more[0])
    requires !IsJavaWhitespace(more[|more| - 1])
    ensures ParseUid("userId=" + NatToString(u) + more) == KeepUid
  {
    var value := NatToString(u) + more;
    TrailingValue(u, more);
    Concat3("userId=", NatToString(u), more);
    UserIdLine(value);
    UserIdFields(value);
  }

  /** A reply that is the single line `userId=<value>` is read as that line. */
  lemma UserIdLine(value: string)
    requires value != "" && Lacks(value, '\n') && !IsJavaWhitespace(value[|value| - 1])
    ensures ParseUid("userId=" + value) == UidOfLine("userId=" + value)
  {
    var line := "userId=" + value;
    assert Lacks(line, '\n') by {
      Segment(line, "userId=", value, []);
    }
    assert line[|line| - 1] == value[|value| - 1];
    UidOfSingleLine(line);
  }

  /** The number with the rest of the line after it: no '=', no line end, and not an int. */
  lemma TrailingValue(u: nat, more: string)
    requires more != "" && Lacks(more, '=') && Lacks(more, '\n') && !IsDigit(more[0])
    requires !IsJavaWhitespace(more[|more| - 1])
    ensures var value := NatToString(u) + more;
      value != "" && Lacks(value, '=') && Lacks(value, '\n') &&
      !IsJavaWhitespace(value[|value| - 1]) && ParseJavaInt(value, INT_MIN, INT_MAX).None?
  {
    var digits := NatToString(u);
    NatToStringRoundTrip(u);
    var value := digits + more;
    LacksDigits(digits, '\n');
    LacksDigits(digits, '=');
    Segment(value, digits, more, []);
    assert value[|value| - 1] == more[|more| - 1];
    DigitsThenOther(digits, more);
  }

  /** Digits followed by a non-digit do not parse as an int. */
  lemma DigitsThenOther(digits: string, more: string)
    requires digits != [] && AllDigits(digits) && more != [] && !IsDigit(more[0])
    ensures ParseJavaInt(digits + more, INT_MIN, INT_MAX).None?
  {
    var value := digits + more;
    assert value[0] == digits[0];
    assert value[|digits|] == more[0];
    assert !AllDigits(value);
  }

  /** A bare `userId=` leaves no second field: the index error escapes. */
  lemma UidWithoutValueCrashes()
    ensures ParseUid("userId=") == UidCrash
  {
    var line := "userId=";
    UidOfSingleLine(line);
    assert OccursAt(line, "userId=", 0);
    UserIdAlone();
  }

  lemma UserIdAlone()
    ensures Split("userId=", Literal("=")) == ["userId"]
  {
    var line := "userId=";
    var sep := Literal("=");
    assert line == "userId" + ['='] + [];
    FirstSeparatorAfter("userId", '=', [], 0);
    assert line[..6] == "userId" && line[7..] == [];
    assert Pieces(line, sep) == ["userId"] + Pieces([], sep);
  }

  // ---------------------------------------------------------------------
  // The focused window

  /** `String.replace` of one character by nothing. */
  function RemoveAll(s: string, c: char): (r: string)
    ensures Lacks(r, c) && |r| <= |s|
    ensures Lacks(s, c) ==> r == s
  {
    if s == [] then []
    else (if s[0] == c then [] else [s[0]]) + RemoveAll(s[1..], c)
  }

  lemma {:induction false} RemoveAllKeepsLack(s: string, c: char, d: char)
    requires Lacks(s, d)
    ensures Lacks(RemoveAll(s, c), d)
    decreases |s|
  {
    if s != [] {
      RemoveAllKeepsLack(s[1..], c, d);
    }
  }

  datatype FocusOutcome =
    | MoveToFront(name: string)  // the focused package is asked to the front of the list
    | NoMove
    | FocusCrash                 // an index out of bounds escapes checkCurrentPackage

  /**
   * The package of the focused window: the last space-separated token with
   * the braces removed, split at '/'. A package is moved to the front when
   * the token has exactly two parts and the package is not already first.
   */
  function FocusDecision(info: string, packageList: seq<string>): FocusOutcome
  {
    var activityInfo := Split(info, Literal(" "));
    if |activityInfo| == 0 then FocusCrash
    else
      var focusedWindow := RemoveAll(activityInfo[|activityInfo| - 1], '}');
      var packageInfo := Split(focusedWindow, Literal("/"));
      if |packageInfo| == 0 then FocusCrash
      else if |packageInfo| != 2 then NoMove
      else if packageList == [] then FocusCrash
      else if packageList[0] == packageInfo[0] then NoMove
      else MoveToFront(packageInfo[0])
  }

  predicate WindowPart(s: string)
  {
    s != "" && Lacks(s, ' ') && Lacks(s, '/') && Lacks(s, '}')
  }

  /**
   * A focus line ending in `<package>/<activity>}` names that package: it is
   * moved unless it is already first, and an empty package list makes the
   * check fail.
   */
  lemma FocusRoundTrip(prefix: string, pkg: string, activity: string, packageList: seq<string>)
    requires WindowPart(pkg) && WindowPart(activity)
    ensures FocusDecision(prefix + " " + pkg + "/" + activity + "}", packageList)
         == if packageList == [] then FocusCrash
            else if packageList[0] == pkg then NoMove
            else MoveToFront(pkg)
  {
    FocusToken(prefix, pkg, activity);
    FocusWindow(pkg, activity);
  }

  /** The last space-separated token of such a line is `<package>/<activity>}`. */
  lemma FocusToken(prefix: string, pkg: string, activity: string)
    requires WindowPart(pkg) && WindowPart(activity)
    ensures EndsWith(Split(prefix + " " + pkg + "/" + activity + "}", Literal(" ")), pkg + "/" + activity + "}")
  {
    var token := pkg + "/" + activity + "}";
    assert prefix + " " + pkg + "/" + activity + "}" == prefix + [' '] + token;
    assert Lacks(token, ' ');
    SplitLast(prefix, ' ', token);
  }

  /** Without its brace the token splits at '/' into the package and the activity. */
  lemma FocusWindow(pkg: string, activity: string)
    requires WindowPart(pkg) && WindowPart(activity)
    ensures Split(RemoveAll(pkg + "/" + activity + "}", '}'), Literal("/")) == [pkg, activity]
  {
    var token := pkg + "/" + activity + "}";
    assert RemoveAll(token, '}') == pkg + ['/'] + activity by {
      assert token == (pkg + ['/'] + activity) + ['}'];
      RemoveAllAppend(pkg + ['/'] + activity, ['}'], '}');
    }
    SplitTwo(pkg, '/', activity);
  }

  lemma {:induction false} RemoveAllAppend(a: string, b: string, c: char)
    requires Lacks(a, c) && (forall i :: 0 <= i < |b| ==> b[i] == c)
    ensures RemoveAll(a + b, c) == a
    decreases |a| + |b|
  {
    if a == [] {
      assert a + b == b;
      RemoveAllOf(b, c);
    } else {
      assert (a + b)[1..] == a[1..] + b;
      RemoveAllAppend(a[1..], b, c);
    }
  }

  lemma {:induction false} RemoveAllOf(b: string, c: char)
    requires forall i :: 0 <= i < |b| ==> b[i] == c
    ensures RemoveAll(b, c) == []
    decreases |b|
  {
    if b != [] {
      RemoveAllOf(b[1..], c);
    }
  }

  /** A last token without '/' (a window with no activity, as `null`) moves nothing. */
  lemma FocusWithoutActivity(prefix: string, window: string, packageList: seq<string>)
    requires window != "" && Lacks(window, ' ') && Lacks(window, '/')
    ensures FocusDecision(prefix + " " + window, packageList) == NoMove
  {
    assert prefix + " " + window == prefix + [' '] + window;
    SplitLast(prefix, ' ', window);
    RemoveAllKeepsLack(window, '}', '/');
    SplitNone(RemoveAll(window, '}'), '/');
  }

  // ---------------------------------------------------------------------
  // The launcher package list

  const MAIN_INTENT := "      android.intent.action.MAIN:"
  const INTENT := "      android.intent.action."

  datatype Section =
    | NoSection              // no MAIN header, or no header after it: the list becomes empty
    | Section(text: string)  // the text between the MAIN header (and one more character) and the next header
    | SectionCrash           // the next header starts right after the MAIN header: substring throws

  /** The raw text of the MAIN-intent section, before it is stripped. */
  function MainIntentBlock(packageInfo: string): (r: Section)
    ensures r.Section? ==> exists k: nat ::
      && OccursAt(packageInfo, MAIN_INTENT, k)
      && k + |MAIN_INTENT| + 1 + |r.text| <= |packageInfo|
      && packageInfo[k + |MAIN_INTENT| + 1..k + |MAIN_INTENT| + 1 + |r.text|] == r.text
      && OccursAt(packageInfo, INTENT, k + |MAIN_INTENT| + 1 + |r.text|)
    ensures r.Section? ==> !Contains(r.text, INTENT)
    ensures !Contains(packageInfo, MAIN_INTENT) ==> r == NoSection
  {
    match IndexOf(packageInfo, MAIN_INTENT)
    case None => NoSection
    case Some(start) =>
      match IndexOfFrom(packageInfo, INTENT, start + |MAIN_INTENT|)
      case None => NoSection
      case Some(end) =>
        var begin := start + |MAIN_INTENT| + 1;
        if begin > end then SectionCrash
        else
          var text := packageInfo[begin..end];
          assert !Contains(text, INTENT) by {
            if Contains(text, INTENT) {
              ContainsSlice(packageInfo, begin, end, INTENT);
            }
          }
          Section(text)
  }

  /** Where `.+` from k stops: the next line terminator, or the end of the text. */
  function LineEnd(s: string, k: nat): (e: nat)
    requires k <= |s|
    ensures k <= e <= |s|
    ensures forall i :: k <= i < e ==> !IsLineTerminator(s[i])
    ensures e < |s| ==> IsLineTerminator(s[e])
    decreases |s| - k
  {
    if k == |s| || IsLineTerminator(s[k]) then k else LineEnd(s, k + 1)
  }

  /** '\n' and '\r': the only characters that none of ` `, `\S` and `.` matches. */
  predicate IsBreak(c: char)
  {
    c == '\n' || c == '\r'
  }

  /** Where the piece that starts at k ends: the next '\n' or '\r', or the end of the text. */
  function BreakEnd(s: string, k: nat): (e: nat)
    requires k <= |s|
    ensures k <= e <= |s|
    ensures forall i :: k <= i < e ==> !IsBreak(s[i])
    ensures e < |s| ==> IsBreak(s[e])
    decreases |s| - k
  {
    if k == |s| || IsBreak(s[k]) then k else BreakEnd(s, k + 1)
  }

  /**
   * The text cut at '\n' and '\r'. No match of the name pattern holds either,
   * so the matches in the text are those in its pieces, in order. The other
   * line terminators (U+0085, U+2028, U+2029) stay inside a piece: `\S` runs
   * across them, and only `.` stops at them.
   */
  function SplitAtBreaks(s: string): (r: seq<string>)
    ensures |r| > 0
    decreases |s|
  {
    var e := BreakEnd(s, 0);
    if e == |s| then [s] else [s[..e]] + SplitAtBreaks(s[e + 1..])
  }

  function NonSpaceRun(s: string, k: nat): (n: nat)
    ensures k + n <= |s| || (k > |s| && n == 0)
    decreases |s| - k
  {
    if k < |s| && !IsRegexSpace(s[k]) then 1 + NonSpaceRun(s, k + 1) else 0
  }

  /** `/.+` can start at e: a '/' followed by a character that is not a line terminator. */
  predicate SlashThenMore(s: string, e: nat)
  {
    e + 1 < |s| && s[e] == '/' && !IsLineTerminator(s[e + 1])
  }

  /** The last place in s[lo..hi] where `/.+` can start. */
  function LastSlash(s: string, lo: nat, hi: nat): (r: Option<nat>)
    requires hi <= |s|
    ensures r.Some? ==> lo <= r.value < hi && SlashThenMore(s, r.value)
    ensures r.Some? ==> forall j :: r.value < j < hi ==> !SlashThenMore(s, j)
    ensures r.None? ==> forall j :: lo <= j < hi ==> !SlashThenMore(s, j)
    decreases hi
  {
    if hi <= lo then None
    else if SlashThenMore(s, hi - 1) then Some(hi - 1)
    else LastSlash(s, lo, hi - 1)
  }

  /** The eight spaces the pattern starts with. */
  const INDENT: string := "        "

  /** A match of the name pattern: its group and where the match ends. */
  datatype NameMatch = NameMatch(name: string, end: nat)

  /**
   * The name pattern ` {8}\S+ (\S+)/.+` tried at position p of one piece:
   * eight spaces, a token, one space, then the group runs to the last '/' of
   * the next token that a character other than a line terminator follows;
   * `.+` then runs to the next line terminator.
   */
  function MatchAt(line: string, p: nat): (r: Option<NameMatch>)
    ensures r.Some? ==> p < r.value.end <= |line|
  {
    if p + 8 > |line| || line[p..p + 8] != INDENT then None
    else
      var q := p + 8 + NonSpaceRun(line, p + 8);
      if q == p + 8 || q >= |line| || line[q] != ' ' then None
      else
        var r := q + 1 + NonSpaceRun(line, q + 1);
        match LastSlash(line, q + 2, r)
        case Some(e) => Some(NameMatch(line[q + 1..e], LineEnd(line, e + 1)))
        case None => None
  }

  /** `while (matcher.find())` over one piece: the leftmost match from p, then the search goes on where it ended. */
  function NamesFrom(line: string, p: nat): seq<string>
    decreases |line| - p
  {
    if p >= |line| then []
    else match MatchAt(line, p)
      case Some(m) => [m.name] + NamesFrom(line, m.end)
      case None => NamesFrom(line, p + 1)
  }

  function LineNames(line: string): seq<string>
  {
    NamesFrom(line, 0)
  }

  function NamesOf(lines: seq<string>): seq<string>
  {
    if lines == [] then [] else LineNames(lines[0]) + NamesOf(lines[1..])
  }

  /** The names the pattern captures in a text, in order. */
  function SectionNames(text: string): seq<string>
  {
    NamesOf(SplitAtBreaks(text))
  }

  /** As written: the section is stripped before the pattern runs. */
  function PackageNamesAsWritten(block: string): seq<string>
  {
    SectionNames(Strip(block))
  }

  /** Corrected: the pattern runs on the section with its indentation. */
  function PackageNames(block: string): seq<string>
  {
    SectionNames(block)
  }

  // One activity line of the section: `        <hash> <package>/<activity> filter <hash>`

  predicate Token(s: string)
  {
    s != [] && forall i :: 0 <= i < |s| ==> !IsJavaWhitespace(s[i]) && !IsLineTerminator(s[i])
  }

  datatype Entry = Entry(hash: string, name: string, activity: string, filter: string)

  predicate ValidEntry(e: Entry)
  {
    Token(e.hash) && Token(e.name) && Lacks(e.name, '/') && Token(e.activity) && Lacks(e.activity, '/') && Token(e.filter)
  }

  /** `<package>/<activity>` */
  function Component(e: Entry): string
  {
    e.name + ("/" + e.activity)
  }

  function EntryText(e: Entry): string
  {
    e.hash + (" " + (Component(e) + (" filter " + e.filter)))
  }

  function EntryLine(e: Entry): string
  {
    INDENT + EntryText(e)
  }

  function EntryNames(es: seq<Entry>): seq<string>
  {
    if es == [] then [] else [es[0].name] + EntryNames(es[1..])
  }

  /** The entries joined by line ends. */
  function Joined(es: seq<Entry>): string
    requires es != []
  {
    if |es| == 1 then EntryLine(es[0]) else EntryLine(es[0]) + "\n" + Joined(es[1..])
  }

  /** The section as the dump lays it out: every entry on its own line, each ended by a line end. */
  function Block(es: seq<Entry>): string
  {
    if es == [] then "" else EntryLine(es[0]) + "\n" + Block(es[1..])
  }

  predicate NoTerminator(s: string)
  {
    forall i :: 0 <= i < |s| ==> !IsLineTerminator(s[i])
  }

  lemma EntryTextShape(e: Entry)
    requires ValidEntry(e)
    ensures NoTerminator(EntryText(e)) && NoTerminator(EntryLine(e))
    ensures EntryText(e) != [] && !IsJavaWhitespace(EntryText(e)[0])
    ensures !IsJavaWhitespace(EntryText(e)[|EntryText(e)| - 1])
  {
    var t := EntryText(e);
    assert t[0] == e.hash[0];
    assert t[|t| - 1] == e.filter[|e.filter| - 1];
  }

  lemma NonSpaceRunIs(s: string, k: nat, n: nat)
    requires k + n <= |s|
    requires forall i :: k <= i < k + n ==> !IsRegexSpace(s[i])
    requires k + n < |s| ==> IsRegexSpace(s[k + n])
    ensures NonSpaceRun(s, k) == n
    decreases n
  {
    if n > 0 {
      NonSpaceRunIs(s, k + 1, n - 1);
    }
  }

  predicate NoSpace(s: string)
  {
    forall i :: 0 <= i < |s| ==> !IsRegexSpace(s[i])
  }

  lemma {:induction false} RunShift(x: string, y: string, k: nat)
    ensures NonSpaceRun(x + y, |x| + k) == NonSpaceRun(y, k)
    decreases |y| - k
  {
    if k < |y| {
      assert (x + y)[|x| + k] == y[k];
      if !IsRegexSpace(y[k]) {
        RunShift(x, y, k + 1);
      }
    }
  }

  /** A token followed by a space is one run of the non-space class. */
  lemma RunOfToken(t: string, y: string)
    requires NoSpace(t) && y != [] && IsRegexSpace(y[0])
    ensures NonSpaceRun(t + y, 0) == |t|
  {
    assert forall i :: 0 <= i < |t| ==> (t + y)[i] == t[i];
    assert (t + y)[|t|] == y[0];
    NonSpaceRunIs(t + y, 0, |t|);
  }

  lemma {:induction false} SlashShift(x: string, y: string, lo: nat, hi: nat)
    requires hi <= |y|
    ensures LastSlash(x + y, |x| + lo, |x| + hi)
         == match LastSlash(y, lo, hi) case Some(v) => Some(|x| + v) case None => None
    decreases hi
  {
    if lo < hi {
      assert (x + y)[|x| + hi - 1] == y[hi - 1];
      if hi < |y| {
        assert (x + y)[|x| + hi] == y[hi];
      }
      SlashShift(x, y, lo, hi - 1);
    }
  }

  lemma ComponentLastSlash(n: string, a: string, p: string)
    requires n != [] && Lacks(a, '/') && a != [] && !IsLineTerminator(a[0])
    ensures LastSlash((n + ("/" + a)) + p, 1, |n| + 1 + |a|) == Some(|n|)
  {
    var s := (n + ("/" + a)) + p;
    assert s[|n|] == '/' && s[|n| + 1] == a[0];
    assert forall j :: |n| < j < |n| + 1 + |a| ==> s[j] == a[j - |n| - 1];
    SlashAt(s, 1, |n| + 1 + |a|, |n|);
  }

  lemma Segment(line: string, pre: string, t: string, post: string)
    requires line == pre + t + post
    ensures forall i :: 0 <= i < |t| ==> line[|pre| + i] == t[i]
    ensures forall i :: 0 <= i < |post| ==> line[|pre| + |t| + i] == post[i]
  {
  }

  lemma SlashAt(line: string, lo: nat, hi: nat, e: nat)
    requires lo <= e < hi <= |line| && SlashThenMore(line, e)
    requires forall j :: e < j < hi ==> line[j] != '/'
    ensures LastSlash(line, lo, hi) == Some(e)
    decreases hi
  {
    if e < hi - 1 {
      SlashAt(line, lo, hi - 1, e);
    }
  }

  /** The pattern at the start of a line: indentation, a token ending at q, a space, the group up to the slash. */
  lemma MatchAtIs(line: string, q: nat, k: nat, m: nat)
    requires 8 < q && q + 1 + k < |line| && m < k
    requires NoTerminator(line)
    requires line[..8] == INDENT && line[q] == ' '
    requires NonSpaceRun(line, 8) == q - 8 && NonSpaceRun(line, q + 1) == k
    requires LastSlash(line, q + 1 + 1, q + 1 + k) == Some(q + 1 + m)
    ensures LineNames(line) == [line[q + 1..q + 1 + m]]
  {
    assert line[0..8] == line[..8];
    var e := q + 1 + m;
    assert LineEnd(line, e + 1) == |line|;
    assert MatchAt(line, 0) == Some(NameMatch(line[q + 1..e], |line|));
    assert NamesFrom(line, |line|) == [];
    assert [line[q + 1..e]] + [] == [line[q + 1..e]];
  }

  /** The group's run and its last slash keep their shape when text is put in front. */
  lemma Prefixed(x: string, y: string, lo: nat, k: nat, m: nat, at: nat)
    requires lo + k < |y| && m < k && at == |x| + lo
    requires NonSpaceRun(y, lo) == k && LastSlash(y, lo + 1, lo + k) == Some(lo + m)
    ensures NonSpaceRun(x + y, at) == k
    ensures LastSlash(x + y, at + 1, at + k) == Some(at + m)
    ensures (x + y)[at..at + m] == y[lo..lo + m]
  {
    RunShift(x, y, lo);
    SlashShift(x, y, lo + 1, lo + k);
    SliceShift(x, y, lo, lo + m);
  }

  lemma SliceShift(x: string, y: string, lo: nat, hi: nat)
    requires lo <= hi <= |y|
    ensures (x + y)[|x| + lo..|x| + hi] == y[lo..hi]
  {
    assert forall i :: lo <= i < hi ==> (x + y)[|x| + i] == y[i];
  }

  /** `<package>/<activity> filter <hash>`: the group runs to the slash, the run to the space. */
  lemma ComponentRun(e: Entry)
    requires ValidEntry(e)
    ensures var rest := Component(e) + (" filter " + e.filter);
      NonSpaceRun(rest, 0) == |Component(e)| && |Component(e)| < |rest| &&
      LastSlash(rest, 0 + 1, 0 + |Component(e)|) == Some(0 + |e.name|) &&
      rest[0..0 + |e.name|] == e.name && |e.name| < |Component(e)|
  {
    var c := Component(e);
    var p := " filter " + e.filter;
    assert NoSpace(c) by {
      assert forall i :: 0 <= i < |c| ==> c[i] == '/' || c[i] in e.name || c[i] in e.activity;
    }
    RunOfToken(c, p);
    ComponentLastSlash(e.name, e.activity, p);
    assert (c + p)[..|e.name|] == e.name;
  }

  /** The hash at the head of the line is one run of the non-space class. */
  lemma HashRun(indent: string, h: string, rest: string)
    requires |indent| == 8 && h != [] && NoSpace(h)
    ensures var line := indent + (h + (" " + rest));
      line[..8] == indent && NonSpaceRun(line, 8) == |h| && line[8 + |h|] == ' '
  {
    var line := indent + (h + (" " + rest));
    assert forall i :: 0 <= i < |h| ==> line[8 + i] == h[i];
    NonSpaceRunIs(line, 8, |h|);
  }

  /** `<hash> <rest>`: the group found at the head of rest is found after the hash and the space. */
  lemma GroupAfterHash(h: string, rest: string, k: nat, m: nat)
    requires 0 + k < |rest| && m < k
    requires NonSpaceRun(rest, 0) == k && LastSlash(rest, 0 + 1, 0 + k) == Some(0 + m)
    ensures var t, at := h + (" " + rest), |h| + 1;
      at + k < |t| &&
      NonSpaceRun(t, at) == k && LastSlash(t, at + 1, at + k) == Some(at + m) &&
      t[at..at + m] == rest[0..0 + m]
  {
    var s1 := " " + rest;
    Prefixed(" ", rest, 0, k, m, 1);
    Prefixed(h, s1, 1, k, m, |h| + 1);
  }

  lemma IndentedLineName(line: string, h: string, rest: string, k: nat, m: nat)
    requires line == INDENT + (h + (" " + rest)) && NoTerminator(line)
    requires h != [] && NoSpace(h)
    requires 0 + k < |rest| && m < k
    requires NonSpaceRun(rest, 0) == k && LastSlash(rest, 0 + 1, 0 + k) == Some(0 + m)
    ensures LineNames(line) == [rest[0..0 + m]]
  {
    IndentedLayout(line, h, rest, k, m);
    MatchAtIs(line, 8 + |h|, k, m);
  }

  /** Where the pattern's pieces sit in an indented line `<hash> <rest>`. */
  lemma IndentedLayout(line: string, h: string, rest: string, k: nat, m: nat)
    requires line == INDENT + (h + (" " + rest))
    requires h != [] && NoSpace(h)
    requires 0 + k < |rest| && m < k
    requires NonSpaceRun(rest, 0) == k && LastSlash(rest, 0 + 1, 0 + k) == Some(0 + m)
    ensures 8 < 8 + |h| && 8 + |h| + 1 + k < |line| && m < k
    ensures line[..8] == INDENT && line[8 + |h|] == ' '
    ensures NonSpaceRun(line, 8) == 8 + |h| - 8 && NonSpaceRun(line, 8 + |h| + 1) == k
    ensures LastSlash(line, 8 + |h| + 1 + 1, 8 + |h| + 1 + k) == Some(8 + |h| + 1 + m)
    ensures line[8 + |h| + 1..8 + |h| + 1 + m] == rest[0..0 + m]
  {
    var t := h + (" " + rest);
    GroupAfterHash(h, rest, k, m);
    Prefixed(INDENT, t, |h| + 1, k, m, 8 + |h| + 1);
    HashRun(INDENT, h, rest);
  }

  /** An activity line yields its package name, and nothing more. */
  lemma EntryLineName(e: Entry)
    requires ValidEntry(e)
    ensures LineNames(EntryLine(e)) == [e.name]
  {
    EntryTextShape(e);
    ComponentRun(e);
    assert NoSpace(e.hash);
    IndentedLineName(EntryLine(e), e.hash, Component(e) + (" filter " + e.filter), |Component(e)|, |e.name|);
  }

  predicate NoDoubleSpace(s: string)
  {
    forall i :: 0 <= i < |s| - 1 ==> !(s[i] == ' ' && s[i + 1] == ' ')
  }

  lemma {:induction false} NoDoubleSpaceNoName(line: string, p: nat)
    requires NoDoubleSpace(line)
    ensures NamesFrom(line, p) == []
    decreases |line| - p
  {
    if p < |line| {
      assert MatchAt(line, p) == None by {
        if p + 8 <= |line| {
          assert line[p..p + 8][0] == line[p] && line[p..p + 8][1] == line[p + 1];
        }
      }
      NoDoubleSpaceNoName(line, p + 1);
    }
  }

  /** Two texts without a double space keep none when joined, unless a space meets a space. */
  lemma NoDoubleSpaceJoin(x: string, y: string)
    requires NoDoubleSpace(x) && NoDoubleSpace(y)
    requires x == [] || y == [] || x[|x| - 1] != ' ' || y[0] != ' '
    ensures NoDoubleSpace(x + y)
  {
    var s := x + y;
    forall i | 0 <= i < |s| - 1
      ensures !(s[i] == ' ' && s[i + 1] == ' ')
    {
      if i + 1 < |x| {
        assert s[i] == x[i] && s[i + 1] == x[i + 1];
      } else if i >= |x| {
        assert s[i] == y[i - |x|] && s[i + 1] == y[i + 1 - |x|];
      }
    }
  }

  /** Once stripped, an activity line has lost the indentation the pattern needs. */
  lemma StrippedEntryHasNoName(e: Entry)
    requires ValidEntry(e)
    ensures LineNames(EntryText(e)) == []
  {
    var h, f := e.hash, e.filter;
    var c := Component(e);
    assert c[0] == e.name[0] && c[|c| - 1] == e.activity[|e.activity| - 1];
    assert NoSpace(c) by {
      assert forall i :: 0 <= i < |c| ==> c[i] == '/' || c[i] in e.name || c[i] in e.activity;
    }
    var filterWord := " filter ";
    assert NoDoubleSpace(filterWord);
    NoDoubleSpaceJoin(filterWord, f);
    var p := filterWord + f;
    NoDoubleSpaceJoin(c, p);
    assert (c + p)[0] == c[0];
    NoDoubleSpaceJoin(" ", c + p);
    NoDoubleSpaceJoin(h, " " + (c + p));
    NoDoubleSpaceNoName(EntryText(e), 0);
  }

  lemma SplitOfLine(s: string)
    requires NoTerminator(s)
    ensures SplitAtBreaks(s) == [s]
  {
    assert BreakEnd(s, 0) == |s|;
  }

  lemma SplitCons(a: string, b: string)
    requires NoTerminator(a)
    ensures SplitAtBreaks(a + "\n" + b) == [a] + SplitAtBreaks(b)
  {
    var s := a + "\n" + b;
    assert s[|a|] == '\n';
    assert forall i :: 0 <= i < |a| ==> s[i] == a[i];
    assert BreakEnd(s, 0) == |a|;
    assert s[..|a|] == a && s[|a| + 1..] == b;
  }

  lemma SplitOfPiece(s: string)
    requires forall i :: 0 <= i < |s| ==> !IsBreak(s[i])
    ensures SplitAtBreaks(s) == [s]
  {
  }

  /** The pattern matches at p: the indentation, a token ending at q, a space, and a group ending at e. */
  lemma MatchFound(s: string, p: nat, q: nat, e: nat)
    requires p + 8 <= |s| && s[p..p + 8] == INDENT
    requires q == p + 8 + NonSpaceRun(s, p + 8) && p + 8 < q < |s| && s[q] == ' '
    requires LastSlash(s, q + 2, q + 1 + NonSpaceRun(s, q + 1)) == Some(e)
    ensures MatchAt(s, p) == Some(NameMatch(s[q + 1..e], LineEnd(s, e + 1)))
  {
  }

  lemma NamesFromFound(s: string, p: nat, m: NameMatch)
    requires p < |s| && MatchAt(s, p) == Some(m)
    ensures NamesFrom(s, p) == [m.name] + NamesFrom(s, m.end)
  {
  }

  lemma NamesFromSkip(s: string, p: nat)
    requires p < |s| && MatchAt(s, p) == None
    ensures NamesFrom(s, p) == NamesFrom(s, p + 1)
  {
  }

  /**
   * U+2028 is a line terminator but not a space: a token runs across it, so
   * the line below still yields "p".
   */
  lemma SeparatorInsideToken(s: string)
    requires s == "        h\U{2028}x p/a"
    ensures PackageNames(s) == ["p"]
  {
    assert |s| == 15 && s[11] == ' ' && s[13] == '/' && s[14] == 'a';
    SplitOfPiece(s);
    assert s[0..8] == INDENT;
    NonSpaceRunIs(s, 8, 3);
    NonSpaceRunIs(s, 12, 3);
    SlashAt(s, 13, 15, 13);
    MatchFound(s, 0, 11, 13);
    assert s[12..13] == "p";
    NamesFromFound(s, 0, NameMatch("p", 15));
    assert NamesOf([s]) == LineNames(s) + NamesOf([]);
  }

  /**
   * `.+` stops at U+2028, and the search goes on after it within the same
   * piece: both entries of the line below are listed.
   */
  lemma SeparatorEndsMatch(s: string)
    requires s == "        h p/a\U{2028}        i q/b"
    ensures PackageNames(s) == ["p", "q"]
  {
    FirstOfTwo(s);
    BetweenTwo(s);
    SecondOfTwo(s);
    NamesFromFound(s, 0, NameMatch("p", 13));
    NamesFromSkip(s, 13);
    NamesFromFound(s, 14, NameMatch("q", 27));
    assert NamesOf([s]) == LineNames(s) + NamesOf([]);
  }

  lemma FirstOfTwo(s: string)
    requires s == "        h p/a\U{2028}        i q/b"
    ensures MatchAt(s, 0) == Some(NameMatch("p", 13))
  {
    FirstPieces(s);
    MatchFound(s, 0, 9, 11);
    assert s[10..11] == "p";
  }

  lemma FirstPieces(s: string)
    requires s == "        h p/a\U{2028}        i q/b"
    ensures s[0..8] == INDENT && s[9] == ' '
    ensures NonSpaceRun(s, 8) == 1 && NonSpaceRun(s, 10) == 4
    ensures LastSlash(s, 11, 14) == Some(11) && LineEnd(s, 12) == 13
  {
    assert |s| == 27 && s[9] == ' ' && s[11] == '/' && s[12] == 'a' && s[13] == '\U{2028}' && s[14] == ' ';
    assert s[0..8] == INDENT;
    NonSpaceRunIs(s, 8, 1);
    NonSpaceRunIs(s, 10, 4);
    SlashAt(s, 11, 14, 11);
  }

  lemma BetweenTwo(s: string)
    requires s == "        h p/a\U{2028}        i q/b"
    ensures MatchAt(s, 13) == None
    ensures |s| == 27 && SplitAtBreaks(s) == [s]
  {
    SplitOfPiece(s);
    assert |s| == 27;
    assert s[13] == '\U{2028}';
    var w := s[13..21];
    assert w[0] == s[13];
    assert INDENT[0] == ' ';
    assert w != INDENT;
  }

  lemma SecondOfTwo(s: string)
    requires s == "        h p/a\U{2028}        i q/b"
    ensures MatchAt(s, 14) == Some(NameMatch("q", 27))
  {
    assert |s| == 27 && s[23] == ' ' && s[25] == '/' && s[26] == 'b';
    assert s[14..22] == INDENT;
    NonSpaceRunIs(s, 22, 1);
    NonSpaceRunIs(s, 24, 3);
    SlashAt(s, 25, 27, 25);
    MatchFound(s, 14, 23, 25);
    assert s[24..25] == "q";
  }

  lemma NamesOfCons(l: string, ls: seq<string>)
    ensures NamesOf([l] + ls) == LineNames(l) + NamesOf(ls)
  {
    assert ([l] + ls)[1..] == ls;
  }

  /** Corrected: every activity line of the section contributes its package, in order. */
  lemma {:induction false} AllEntriesListed(es: seq<Entry>)
    requires forall i :: 0 <= i < |es| ==> ValidEntry(es[i])
    ensures PackageNames(Block(es)) == EntryNames(es)
    decreases |es|
  {
    if es == [] {
      assert SplitAtBreaks("") == [""];
      assert NamesFrom("", 0) == [];
    } else {
      EntryTextShape(es[0]);
      SplitCons(EntryLine(es[0]), Block(es[1..]));
      NamesOfCons(EntryLine(es[0]), SplitAtBreaks(Block(es[1..])));
      EntryLineName(es[0]);
      AllEntriesListed(es[1..]);
    }
  }

  lemma {:induction false} JoinedNames(es: seq<Entry>)
    requires es != [] && forall i :: 0 <= i < |es| ==> ValidEntry(es[i])
    ensures SectionNames(Joined(es)) == EntryNames(es)
    decreases |es|
  {
    var l := EntryLine(es[0]);
    EntryTextShape(es[0]);
    EntryLineName(es[0]);
    assert EntryNames(es) == [es[0].name] + EntryNames(es[1..]);
    if |es| == 1 {
      assert Joined(es) == l;
      SplitOfLine(l);
      NamesOfCons(l, []);
      assert [l] + [] == [l];
      assert SectionNames(Joined(es)) == [es[0].name];
      assert EntryNames(es[1..]) == [];
    } else {
      assert Joined(es) == l + "\n" + Joined(es[1..]);
      SplitCons(l, Joined(es[1..]));
      NamesOfCons(l, SplitAtBreaks(Joined(es[1..])));
      JoinedNames(es[1..]);
      assert SectionNames(Joined(es)) == [es[0].name] + SectionNames(Joined(es[1..]));
    }
  }

  lemma {:induction false} BlockIsJoined(es: seq<Entry>)
    requires es != []
    ensures Block(es) == Joined(es) + "\n"
    decreases |es|
  {
    if |es| > 1 {
      BlockIsJoined(es[1..]);
    }
  }

  lemma {:induction false} StripLeadingAppend(a: string, b: string)
    requires a != [] && !IsJavaWhitespace(a[|a| - 1])
    ensures StripLeading(a + b) == StripLeading(a) + b
    decreases |a|
  {
    if IsJavaWhitespace(a[0]) {
      assert (a + b)[1..] == a[1..] + b;
      StripLeadingAppend(a[1..], b);
    }
  }

  lemma {:induction false} JoinedEnds(es: seq<Entry>)
    requires es != [] && forall i :: 0 <= i < |es| ==> ValidEntry(es[i])
    ensures Joined(es) != [] && !IsJavaWhitespace(Joined(es)[|Joined(es)| - 1])
    decreases |es|
  {
    EntryTextShape(es[0]);
    if |es| == 1 {
      assert Joined(es)[|Joined(es)| - 1] == EntryText(es[0])[|EntryText(es[0])| - 1];
    } else {
      JoinedEnds(es[1..]);
      var j := Joined(es[1..]);
      assert Joined(es)[|Joined(es)| - 1] == j[|j| - 1];
    }
  }

  lemma {:induction false} StripLeadingWhite(w: string, t: string)
    requires forall i :: 0 <= i < |w| ==> IsJavaWhitespace(w[i])
    requires t != [] && !IsJavaWhitespace(t[0])
    ensures StripLeading(w + t) == t
    decreases |w|
  {
    if w == [] {
      assert w + t == t;
    } else {
      assert (w + t)[1..] == w[1..] + t;
      StripLeadingWhite(w[1..], t);
    }
  }

  /** What follows the first line of the joined entries. */
  function JoinedTail(es: seq<Entry>): string
    requires es != []
  {
    if |es| == 1 then "" else "\n" + Joined(es[1..])
  }

  lemma EmptyRight(a: string)
    ensures a + "" == a
  {
  }

  lemma Concat3(a: string, b: string, c: string)
    ensures a + (b + c) == a + b + c
  {
  }

  lemma JoinedSplit(es: seq<Entry>)
    requires es != []
    ensures Joined(es) == EntryLine(es[0]) + JoinedTail(es)
  {
    if |es| == 1 {
      EmptyRight(EntryLine(es[0]));
    } else {
      Concat3(EntryLine(es[0]), "\n", Joined(es[1..]));
    }
  }

  lemma StripTrailingNewline(x: string)
    requires x != [] && !IsJavaWhitespace(x[|x| - 1])
    ensures StripTrailing(x + "\n") == x
  {
    assert (x + "\n")[..|x|] == x;
  }

  /** Stripping an indented text that ends in a line end keeps the text between. */
  lemma StripIndented(w: string, t: string, tail: string)
    requires forall i :: 0 <= i < |w| ==> IsJavaWhitespace(w[i])
    requires t != [] && !IsJavaWhitespace(t[0])
    requires !IsJavaWhitespace((t + tail)[|t + tail| - 1])
    ensures Strip(w + (t + tail) + "\n") == t + tail
  {
    var x := t + tail;
    assert w + x + "\n" == w + (x + "\n");
    assert (x + "\n")[0] == t[0];
    StripLeadingWhite(w, x + "\n");
    StripTrailingNewline(x);
  }

  /** An indented entry text, whatever follows it on later lines, and a final line end, stripped. */
  lemma StripIndentedEntry(e: Entry, tail: string, block: string)
    requires ValidEntry(e)
    requires !IsJavaWhitespace((EntryText(e) + tail)[|EntryText(e) + tail| - 1])
    requires block == INDENT + (EntryText(e) + tail) + "\n"
    ensures Strip(block) == EntryText(e) + tail
  {
    EntryTextShape(e);
    StripIndented(INDENT, EntryText(e), tail);
  }

  /** The section as its first entry's text, indented, then the rest and the last line end. */
  lemma BlockShape(es: seq<Entry>)
    requires es != [] && forall i :: 0 <= i < |es| ==> ValidEntry(es[i])
    ensures Block(es) == INDENT + (EntryText(es[0]) + JoinedTail(es)) + "\n"
    ensures !IsJavaWhitespace((EntryText(es[0]) + JoinedTail(es))[|EntryText(es[0]) + JoinedTail(es)| - 1])
    ensures ValidEntry(es[0])
  {
    BlockIsJoined(es);
    JoinedEnds(es);
    JoinedSplit(es);
    var j, x := Joined(es), EntryText(es[0]) + JoinedTail(es);
    Concat3(INDENT, EntryText(es[0]), JoinedTail(es));
    assert j == INDENT + x;
    assert x[|x| - 1] == j[|j| - 1];
  }

  /** The stripped section: the first line without its indentation, the rest as it was, the last line end gone. */
  lemma StripBlock(es: seq<Entry>)
    requires es != [] && ValidEntry(es[0])
    requires Block(es) == INDENT + (EntryText(es[0]) + JoinedTail(es)) + "\n"
    requires !IsJavaWhitespace((EntryText(es[0]) + JoinedTail(es))[|EntryText(es[0]) + JoinedTail(es)| - 1])
    ensures Strip(Block(es)) == EntryText(es[0]) + JoinedTail(es)
  {
    StripIndentedEntry(es[0], JoinedTail(es), Block(es));
  }

  /**
   * As written: stripping the section removes the indentation of its first
   * line, so the first entry line contributes no package; its package is
   * still listed when a later line of the section names it.
   */
  lemma FirstEntryDropped(es: seq<Entry>)
    requires es != [] && forall i :: 0 <= i < |es| ==> ValidEntry(es[i])
    ensures PackageNamesAsWritten(Block(es)) == EntryNames(es[1..])
  {
    BlockShape(es);
    StripBlock(es);
    NamesAfterStrip(es, Strip(Block(es)));
  }

  lemma NamesAfterStrip(es: seq<Entry>, stripped: string)
    requires es != [] && forall i :: 0 <= i < |es| ==> ValidEntry(es[i])
    requires stripped == EntryText(es[0]) + JoinedTail(es)
    ensures SectionNames(stripped) == EntryNames(es[1..])
  {
    if |es| == 1 {
      LoneStrippedEntry(es[0]);
    } else {
      StrippedThenJoined(es[0], es[1..]);
    }
  }

  lemma LoneStrippedEntry(e: Entry)
    requires ValidEntry(e)
    ensures SectionNames(EntryText(e) + "") == []
  {
    var t := EntryText(e);
    EntryTextShape(e);
    StrippedEntryHasNoName(e);
    EmptyRight(t);
    SplitOfLine(t);
    NamesOfCons(t, []);
    assert [t] + [] == [t];
  }

  lemma StrippedThenJoined(e: Entry, rest: seq<Entry>)
    requires ValidEntry(e) && rest != [] && forall i :: 0 <= i < |rest| ==> ValidEntry(rest[i])
    ensures SectionNames(EntryText(e) + ("\n" + Joined(rest))) == EntryNames(rest)
  {
    var t := EntryText(e);
    EntryTextShape(e);
    StrippedEntryHasNoName(e);
    Concat3(t, "\n", Joined(rest));
    SplitCons(t, Joined(rest));
    NamesOfCons(t, SplitAtBreaks(Joined(rest)));
    JoinedNames(rest);
  }

  // ---------------------------------------------------------------------
  // Ordering the list

  /**
   * The list built from the captured names: a new name goes to the front
   * when the process listing mentions it and to the back otherwise; a name
   * seen before is skipped.
   */
  function PackageOrder(names: seq<string>, processInfo: string): seq<string>
  {
    if names == [] then []
    else
      var p := PackageOrder(names[..|names| - 1], processInfo);
      var name := names[|names| - 1];
      if name in p then p
      else if Contains(processInfo, name) then [name] + p
      else p + [name]
  }

  method BuildPackageList(names: seq<string>, processInfo: string) returns (packages: seq<string>)
    ensures packages == PackageOrder(names, processInfo)
  {
    packages := [];
    for i := 0 to |names|
      invariant packages == PackageOrder(names[..i], processInfo)
    {
      assert names[..i + 1][..i] == names[..i];
      var name := names[i];
      if name !in packages {
        if Contains(processInfo, name) {
          packages := [name] + packages;
        } else {
          packages := packages + [name];
        }
      }
    }
    assert names[..|names|] == names;
  }

  predicate Distinct(s: seq<string>)
  {
    forall i, j :: 0 <= i < j < |s| ==> s[i] != s[j]
  }

  /** Running packages come before the others. */
  predicate RunningFirst(s: seq<string>, processInfo: string)
  {
    forall i, j :: 0 <= i < j < |s| && Contains(processInfo, s[j]) ==> Contains(processInfo, s[i])
  }

  /** The list holds each captured name, and only those. */
  lemma {:induction false} PackageOrderMembers(names: seq<string>, processInfo: string)
    ensures forall x :: x in PackageOrder(names, processInfo) <==> x in names
    decreases |names|
  {
    if names != [] {
      var init := names[..|names| - 1];
      PackageOrderMembers(init, processInfo);
      forall x
        ensures x in names <==> x in init || x == names[|names| - 1]
      {
        if x in names {
          var i :| 0 <= i < |names| && names[i] == x;
          if i < |names| - 1 {
            assert init[i] == x;
          }
        }
      }
    }
  }

  /** No package is listed twice, however often the section names it. */
  lemma {:induction false} PackageOrderDistinct(names: seq<string>, processInfo: string)
    ensures Distinct(PackageOrder(names, processInfo))
    decreases |names|
  {
    if names != [] {
      var p := PackageOrder(names[..|names| - 1], processInfo);
      PackageOrderDistinct(names[..|names| - 1], processInfo);
      var name := names[|names| - 1];
      if name !in p {
        if Contains(processInfo, name) {
          DistinctCons(name, p);
        } else {
          DistinctSnoc(p, name);
        }
      }
    }
  }

  lemma DistinctCons(x: string, p: seq<string>)
    requires Distinct(p) && x !in p
    ensures Distinct([x] + p)
  {
    var r := [x] + p;
    forall i, j | 0 <= i < j < |r|
      ensures r[i] != r[j]
    {
      assert r[j] == p[j - 1];
      if i > 0 {
        assert r[i] == p[i - 1];
      }
    }
  }

  lemma DistinctSnoc(p: seq<string>, x: string)
    requires Distinct(p) && x !in p
    ensures Distinct(p + [x])
  {
    var r := p + [x];
    forall i, j | 0 <= i < j < |r|
      ensures r[i] != r[j]
    {
      assert r[i] == p[i];
      if j < |p| {
        assert r[j] == p[j];
      }
    }
  }

  /** Packages with a running process are listed before the others. */
  lemma {:induction false} PackageOrderRunningFirst(names: seq<string>, processInfo: string)
    ensures RunningFirst(PackageOrder(names, processInfo), processInfo)
    decreases |names|
  {
    if names != [] {
      var p := PackageOrder(names[..|names| - 1], processInfo);
      PackageOrderRunningFirst(names[..|names| - 1], processInfo);
      var name := names[|names| - 1];
      if name !in p {
        if Contains(processInfo, name) {
          RunningCons(name, p, processInfo);
        } else {
          IdleSnoc(p, name, processInfo);
        }
      }
    }
  }

  lemma RunningCons(x: string, p: seq<string>, processInfo: string)
    requires RunningFirst(p, processInfo) && Contains(processInfo, x)
    ensures RunningFirst([x] + p, processInfo)
  {
    var r := [x] + p;
    forall i, j | 0 <= i < j < |r| && Contains(processInfo, r[j])
      ensures Contains(processInfo, r[i])
    {
      assert r[j] == p[j - 1];
      if i > 0 {
        assert r[i] == p[i - 1];
      }
    }
  }

  lemma IdleSnoc(p: seq<string>, x: string, processInfo: string)
    requires RunningFirst(p, processInfo) && !Contains(processInfo, x)
    ensures RunningFirst(p + [x], processInfo)
  {
    var r := p + [x];
    forall i, j | 0 <= i < j < |r| && Contains(processInfo, r[j])
      ensures Contains(processInfo, r[i])
    {
      assert r[i] == p[i];
      assert r[j] == p[j];
    }
  }

  /**
   * What updatePackageList leaves in the list: nothing when the section is
   * missing, the list unchanged (None) when taking the section throws, and
   * otherwise the ordered names of the section.
   */
  function LauncherPackages(packageInfo: string, processInfo: string): (r: Option<seq<string>>)
    ensures r.None? <==> MainIntentBlock(packageInfo).SectionCrash?
    ensures !Contains(packageInfo, MAIN_INTENT) ==> r == Some([])
  {
    match MainIntentBlock(packageInfo)
    case NoSection => Some([])
    case SectionCrash => None
    case Section(text) => Some(PackageOrder(PackageNames(text), processInfo))
  }

  /** Without a launcher section the list is emptied. */
  lemma NoLauncherSectionEmptiesList(packageInfo: string, processInfo: string)
    requires !Contains(packageInfo, MAIN_INTENT)
    ensures LauncherPackages(packageInfo, processInfo) == Some([])
  {
  }
}
