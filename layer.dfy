/**
 * One compositor layer of the monitored package (Layer.java): its identity
 * (name and per-name ordinal), its visibility, and its geometry.
 */
module Layers {
  import opened Text

  datatype Layer = Layer(
    layerName: string,
    packageName: string,
    isVisible: bool,
    isSurfaceView: bool,
    id: int,
    w: int, h: int, x: int, y: int, z: int)

  const SURFACE_VIEW_PREFIX := "SurfaceView"
  const OVERLAY_PACKAGE := "incallui"

  /** The constructor: a layer starts visible exactly when it holds a buffer. */
  function NewLayer(name: string, packageName: string, buffer: bool, id: int,
                    w: int, h: int, x: int, y: int, z: int): (l: Layer)
    ensures l.isSurfaceView <==> StartsWith(name, SURFACE_VIEW_PREFIX)
    ensures l.isVisible == buffer
    ensures l.layerName == name && l.packageName == packageName && l.id == id
    ensures l.w == w && l.h == h && l.x == x && l.y == y && l.z == z
  {
    Layer(name, packageName, buffer, StartsWith(name, SURFACE_VIEW_PREFIX), id, w, h, x, y, z)
  }

  /**
   * Occlusion test: only layers of an in-call UI package can be covered, and
   * then only by a layer at least as high whose rectangle contains theirs.
   * The right and bottom edges are int sums, which wrap around.
   */
  predicate IsCoveredBy(a: Layer, b: Layer)
  {
    && a.z <= b.z
    && Contains(a.packageName, OVERLAY_PACKAGE)
    && a.x >= b.x && a.y >= b.y
    && Wrap32(a.x + a.w) <= Wrap32(b.x + b.w) && Wrap32(a.y + a.h) <= Wrap32(b.y + b.h)
  }

  /** The right and bottom edges of the layer fit an int, so their sums do not wrap. */
  predicate EdgesFit(l: Layer)
  {
    INT_MIN <= l.x + l.w <= INT_MAX && INT_MIN <= l.y + l.h <= INT_MAX
  }

  lemma WrapInRange(v: int)
    requires INT_MIN <= v <= INT_MAX
    ensures Wrap32(v) == v
  {
  }

  lemma CoveredOnlyInOverlayPackage(a: Layer, b: Layer)
    requires !Contains(a.packageName, OVERLAY_PACKAGE)
    ensures !IsCoveredBy(a, b)
  {
  }

  /** Without wrap-around, a covered layer lies below its cover and inside its rectangle. */
  lemma CoveredMeansInside(a: Layer, b: Layer)
    requires IsCoveredBy(a, b) && EdgesFit(a) && EdgesFit(b)
    ensures a.z <= b.z
    ensures b.x <= a.x && a.x + a.w <= b.x + b.w
    ensures b.y <= a.y && a.y + a.h <= b.y + b.h
  {
    WrapInRange(a.x + a.w);
    WrapInRange(b.x + b.w);
    WrapInRange(a.y + a.h);
    WrapInRange(b.y + b.h);
  }

  /** A layer whose right edge overflows wraps to a negative edge and counts as covered by a small layer. */
  lemma OverflowingLayerCovered()
    ensures var a := Layer("a", "com.incallui", true, false, 0, INT_MAX, 1, 10, 0, 0);
            var b := Layer("b", "", true, false, 0, 20, 20, 0, 0, 0);
            IsCoveredBy(a, b) && a.x + a.w > b.x + b.w
  {
    assert Wrap32(10 + INT_MAX) == INT_MIN + 9;
    WrapInRange(20);
    WrapInRange(1);
    WrapInRange(0);
    assert OccursAt("com.incallui", OVERLAY_PACKAGE, 4);
    assert IndexOf("com.incallui", OVERLAY_PACKAGE).Some?;
  }

  lemma CoveringIsTransitive(a: Layer, b: Layer, c: Layer)
    requires IsCoveredBy(a, b) && IsCoveredBy(b, c)
    requires EdgesFit(a) && EdgesFit(b) && EdgesFit(c)
    ensures IsCoveredBy(a, c)
  {
    CoveredMeansInside(a, b);
    WrapInRange(c.x + c.w);
    WrapInRange(c.y + c.h);
    WrapInRange(b.x + b.w);
    WrapInRange(b.y + b.h);
  }

  /** Layer.equals: name, ordinal and visibility; geometry and package are ignored. */
  predicate Equals(a: Layer, b: Layer)
  {
    a.isVisible == b.isVisible && a.id == b.id && a.layerName == b.layerName
  }

  lemma EqualsIsEquivalence(a: Layer, b: Layer, c: Layer)
    ensures Equals(a, a)
    ensures Equals(a, b) ==> Equals(b, a)
    ensures Equals(a, b) && Equals(b, c) ==> Equals(a, c)
  {
  }

  lemma EqualsIgnoresGeometry(a: Layer, packageName: string, w: int, h: int, x: int, y: int, z: int)
    ensures Equals(a, a.(packageName := packageName, w := w, h := h, x := x, y := y, z := z))
  {
  }

  /** String.hashCode: s[0]*31^(n-1) + ... + s[n-1], in 32-bit arithmetic. */
  function StringHash(s: string): (r: int)
    ensures INT_MIN <= r <= INT_MAX
  {
    if s == [] then 0 else Wrap32(31 * StringHash(s[..|s| - 1]) + s[|s| - 1] as int)
  }

  /** Layer.hashCode, built from the fields Layer.equals compares. */
  function HashCode(l: Layer): (r: int)
    ensures INT_MIN <= r <= INT_MAX
  {
    var r0 := StringHash(l.layerName);
    var r1 := Wrap32(31 * r0 + (if l.isVisible then 1 else 0));
    Wrap32(31 * r1 + l.id)
  }

  lemma EqualLayersHashEqually(a: Layer, b: Layer)
    requires Equals(a, b)
    ensures HashCode(a) == HashCode(b)
  {
  }

  // ---------------------------------------------------------------------
  // The label "Layer#<id>:<name>" and the pattern Layer#(\d*):(.*) that reads it back

  function ToString(l: Layer): (r: string)
    ensures StartsWith(r, "Layer#")
    ensures |l.layerName| + 7 < |r| && r[|r| - |l.layerName| - 1] == ':' && r[|r| - |l.layerName|..] == l.layerName
  {
    "Layer#" + IntToString(l.id) + ":" + l.layerName
  }

  function DigitRunLength(s: string, i: nat): (n: nat)
    ensures i + n <= |s| || n == 0
    decreases |s| - i
  {
    if i < |s| && IsDigit(s[i]) then 1 + DigitRunLength(s, i + 1) else 0
  }

  /** The text from i up to the first line terminator: what `.*` matches. */
  function LineRest(s: string, i: nat): (r: string)
    decreases |s| - i
  {
    if i < |s| && !IsLineTerminator(s[i]) then [s[i]] + LineRest(s, i + 1) else ""
  }

  /** One attempt of the pattern at position k, yielding its two groups. */
  function LabelAt(s: string, k: nat): Option<(string, string)>
  {
    if !OccursAt(s, "Layer#", k) then None
    else
      var n := DigitRunLength(s, k + 6);
      if k + 6 + n < |s| && s[k + 6 + n] == ':' then Some((s[k + 6..k + 6 + n], LineRest(s, k + 7 + n)))
      else None
  }

  /** Matcher.find: the leftmost position where the pattern matches. */
  function FindLabel(s: string, k: nat): Option<(string, string)>
    decreases |s| - k
  {
    if k > |s| then None
    else match LabelAt(s, k)
      case Some(g) => Some(g)
      case None => FindLabel(s, k + 1)
  }

  function ParseLayerLabel(s: string): Option<(string, string)>
  {
    FindLabel(s, 0)
  }

  lemma {:induction false} DigitRunOf(p: string, d: string, q: string)
    requires AllDigits(d) && q != [] && !IsDigit(q[0])
    ensures DigitRunLength(p + d + q, |p|) == |d|
    decreases |d|
  {
    var s := p + d + q;
    if d == [] {
      assert s[|p|] == q[0];
    } else {
      assert s[|p|] == d[0];
      assert s == (p + [d[0]]) + d[1..] + q;
      DigitRunOf(p + [d[0]], d[1..], q);
    }
  }

  lemma {:induction false} LineRestOf(p: string, t: string)
    requires forall i :: 0 <= i < |t| ==> !IsLineTerminator(t[i])
    ensures LineRest(p + t, |p|) == t
    decreases |t|
  {
    if t != [] {
      assert (p + t)[|p|] == t[0];
      assert p + t == (p + [t[0]]) + t[1..];
      LineRestOf(p + [t[0]], t[1..]);
    }
  }

  /** Reading back a label recovers the ordinal and the name (names hold no line terminator). */
  lemma LabelRoundTrip(l: Layer)
    requires l.id >= 0
    requires forall i :: 0 <= i < |l.layerName| ==> !IsLineTerminator(l.layerName[i])
    ensures match ParseLayerLabel(ToString(l))
      case Some((digits, name)) => AllDigits(digits) && DigitsValue(digits) == l.id && name == l.layerName
      case None => false
  {
    var d := NatToString(l.id);
    NatToStringRoundTrip(l.id);
    LabelOf(d, l.layerName);
  }

  lemma LabelOf(d: string, name: string)
    requires AllDigits(d)
    requires forall i :: 0 <= i < |name| ==> !IsLineTerminator(name[i])
    ensures LabelAt("Layer#" + d + ":" + name, 0) == Some((d, name))
  {
    var s := "Layer#" + d + ":" + name;
    assert s == "Layer#" + d + (":" + name);
    assert s[0..6] == "Layer#";
    DigitRunOf("Layer#", d, ":" + name);
    assert s[6 + |d|] == ':';
    assert s[6..6 + |d|] == d;
    LineRestOf("Layer#" + d + ":", name);
  }
}
