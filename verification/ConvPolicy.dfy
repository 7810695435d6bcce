/** The conversion provider's decisions: output extents under a size limit, and the licence class a text names. */
module ConvPolicy {
  import opened Floats

  // ---- Extents --------------------------------------------------------------------------------

  /** The largest scale at which `across` views side by side, and one view's height, stay within `max`. */
  function Scale(w: nat, h: nat, across: nat, max: nat): real
    requires w > 0 && h > 0 && across > 0
  {
    ScaleTo(max as real, across as real * w as real, h as real)
  }

  function ScaleTo(m: real, a: real, b: real): real
    requires a != 0.0 && b != 0.0
  {
    Least(1.0, Least(m / a, m / b))
  }

  function Least(a: real, b: real): real { if b < a then b else a }

  function Scaled(n: nat, s: real): nat
    requires s >= 0.0
  {
    var v := (n as real * s).Floor;
    if v <= 0 then 1 else v
  }

  lemma Divides(n: real, d: real)
    requires d > 0.0
    ensures n / d * d == n && (n > 0.0 ==> n / d > 0.0)
  {
    var q := n / d;
    assert q * d == n;
    if q <= 0.0 && n > 0.0 { Product(-q, d); }
  }

  predicate Fits(t: real, m: real, a: real, b: real) { t <= 1.0 && t * a <= m && t * b <= m }

  lemma LargestScale(m: real, a: real, b: real, t: real)
    requires a > 0.0 && b > 0.0 && m > 0.0
    ensures ScaleTo(m, a, b) > 0.0 && (t <= ScaleTo(m, a, b) <==> Fits(t, m, a, b))
  {
    Divides(m, a);
    Divides(m, b);
    Ordered(t, m / a, a);
    Ordered(t, m / b, b);
  }

  /** A scale keeps everything within the limit exactly when it is not above this one. */
  lemma ScaleIsLargest(w: nat, h: nat, across: nat, max: nat, t: real)
    requires w > 0 && h > 0 && across > 0 && max > 0
    ensures Scale(w, h, across, max) > 0.0
    ensures t <= Scale(w, h, across, max) <==> Fits(t, max as real, across as real * w as real, h as real)
  {
    ProductOfNats(across, w);
    LargestScale(max as real, across as real * w as real, h as real, t);
  }

  lemma ProductOfNats(a: nat, b: nat)
    requires a > 0 && b > 0
    ensures a as real * b as real > 0.0
  {
    StrictProduct(a as real, b as real);
  }

  lemma FloorFits(k: real, n: real, s: real, v: real, max: real)
    requires k > 0.0 && v <= n * s && s * (k * n) <= max
    ensures k * v <= max
  {
    Product(k, n * s - v);
    Regroup(k, n, s, v);
  }

  lemma ScaledFits(n: nat, s: real, k: nat, max: nat)
    requires s >= 0.0 && k > 0 && s * (k as real * n as real) <= max as real
    ensures k * Scaled(n, s) <= if max < k then k else max
  {
    var v := (n as real * s).Floor;
    if v > 0 {
      FloorFits(k as real, n as real, s, v as real, max as real);
      assert (k * v) as real == k as real * v as real;
    }
  }

  lemma ScaledShrinks(n: nat, s: real)
    requires 0.0 <= s <= 1.0 && n > 0
    ensures 1 <= Scaled(n, s) <= n
  {
    Product(n as real, 1.0 - s);
    assert n as real * (1.0 - s) == n as real - n as real * s;
  }

  lemma Regroup(k: real, n: real, s: real, v: real)
    ensures k * (n * s - v) == s * (k * n) - k * v
  {
  }

  function ViewsExtent(w: nat, h: nat, views: nat, arrayLayout: bool, max: nat): (nat, nat) {
    if w == 0 || h == 0 || views == 0 || max == 0 then (0, 0) else
    var across := if arrayLayout then 1 else views;
    var s := Scale(w, h, across, max);
    if s < 0.0 then (0, 0) else (Scaled(w, s) * across, Scaled(h, s))
  }

  predicate Usable(w: nat, h: nat, views: nat, max: nat) { w > 0 && h > 0 && views > 0 && max > 0 }

  /** The height fits; the width does exactly when the limit leaves a pixel for each view side by side.
      No view is wider or taller than the input. */
  predicate ExtentOk(r: (nat, nat), w: nat, h: nat, across: nat, max: nat) {
    && 1 <= r.1 <= max && r.1 <= h && across <= r.0 <= w * across
    && (r.0 <= max <==> across <= max) && r.0 <= (if max < across then across else max)
  }

  lemma ScaledExtentOk(w: nat, h: nat, across: nat, max: nat, s: real)
    requires w > 0 && h > 0 && across > 0 && max > 0 && 0.0 <= s
    requires Fits(s, max as real, across as real * w as real, h as real)
    ensures ExtentOk((Scaled(w, s) * across, Scaled(h, s)), w, h, across, max)
  {
    ScaledFits(w, s, across, max);
    ScaledFits(h, s, 1, max);
    ScaledShrinks(w, s);
    ScaledShrinks(h, s);
    Times(across, Scaled(w, s), w);
  }

  lemma ViewsFitIff(w: nat, h: nat, views: nat, arrayLayout: bool, max: nat)
    requires Usable(w, h, views, max)
    ensures ExtentOk(ViewsExtent(w, h, views, arrayLayout, max), w, h, if arrayLayout then 1 else views, max)
  {
    var across := if arrayLayout then 1 else views;
    var s := Scale(w, h, across, max);
    ScaleIsLargest(w, h, across, max, s);
    ScaledExtentOk(w, h, across, max, s);
  }

  lemma Times(k: nat, a: nat, b: nat)
    requires 1 <= a <= b
    ensures k <= a * k <= b * k && a * k == k * a
  {
  }

  /** What fits already is left alone. */
  lemma FittingViewsAreKept(w: nat, h: nat, views: nat, arrayLayout: bool, max: nat)
    requires Usable(w, h, views, max)
    requires h <= max && (if arrayLayout then 1 else views) * w <= max
    ensures ViewsExtent(w, h, views, arrayLayout, max) == (w * (if arrayLayout then 1 else views), h)
  {
    var across := if arrayLayout then 1 else views;
    assert (across * w) as real == across as real * w as real;
    ScaleIsLargest(w, h, across, max, 1.0);
  }

  function Rounded(n: nat, s: real, max: nat): nat
    requires s >= 0.0
  {
    var v := (n as real * s + 0.5).Floor;
    if v <= 0 then 1 else if v > max then max else v
  }

  function DepthExtent(w: nat, h: nat, maxEdge: nat): (nat, nat) {
    if w == 0 || h == 0 then (0, 0) else
    var edge := if w > h then w else h;
    if maxEdge == 0 || edge <= maxEdge then (w, h) else
    var s := maxEdge as real / edge as real;
    if s < 0.0 then (0, 0) else (Rounded(w, s, maxEdge), Rounded(h, s, maxEdge))
  }

  lemma RoundedOrder(a: nat, b: nat, s: real, max: nat)
    requires s >= 0.0 && a <= b && max >= 1
    ensures 1 <= Rounded(a, s, max) <= Rounded(b, s, max) <= max
  {
    Product(s, b as real - a as real);
    assert s * (b as real - a as real) == b as real * s - a as real * s;
  }

  /** A limited depth map is as long as the limit on its longer edge, never longer on the other, which
      stays the shorter one; without a limit, or within it, the input's extent is kept. */
  lemma DepthExtentFits(w: nat, h: nat, maxEdge: nat)
    requires w > 0 && h > 0
    ensures var r := DepthExtent(w, h, maxEdge);
            var edge := if w > h then w else h;
            if maxEdge == 0 || edge <= maxEdge then r == (w, h)
            else 1 <= r.0 <= maxEdge && 1 <= r.1 <= maxEdge
                 && (w >= h ==> r.0 == maxEdge && r.0 >= r.1) && (w <= h ==> r.1 == maxEdge && r.1 >= r.0)
  {
    var edge := if w > h then w else h;
    if maxEdge != 0 && edge > maxEdge {
      var s := maxEdge as real / edge as real;
      Divides(maxEdge as real, edge as real);
      assert edge as real * s == maxEdge as real;
      RoundedOrder(if w <= h then w else h, edge, s, maxEdge);
      RoundedOrder(w, w, s, maxEdge);
      RoundedOrder(h, h, s, maxEdge);
    }
  }

  /** Without an input or a limit there is no extent. */
  lemma NothingForNothing(w: nat, h: nat, views: nat, arrayLayout: bool, max: nat)
    requires w == 0 || h == 0 || views == 0 || max == 0
    ensures ViewsExtent(w, h, views, arrayLayout, max) == (0, 0)
    ensures w == 0 || h == 0 ==> DepthExtent(w, h, max) == (0, 0)
  {
  }

  /** A side is scaled and rounded down, but never to nothing. */
  lemma ScaledIs(n: nat, s: real)
    requires s >= 0.0
    ensures if n as real * s < 1.0 then Scaled(n, s) == 1
            else Scaled(n, s) as real <= n as real * s < Scaled(n, s) as real + 1.0
  {
  }

  /** No scale above this one fits. */
  ghost predicate Largest(s: real, m: real, a: real, b: real) {
    Fits(s, m, a, b) && forall t :: Fits(t, m, a, b) ==> t <= s
  }

  lemma OnlyOneIsLargest(s: real, m: real, a: real, b: real)
    requires Largest(s, m, a, b) && m > 0.0 && a > 0.0 && b > 0.0
    ensures s == ScaleTo(m, a, b)
  {
    LargestScale(m, a, b, s);
    LargestScale(m, a, b, ScaleTo(m, a, b));
  }

  lemma LargestIsScale(w: nat, h: nat, across: nat, max: nat, s: real)
    requires w > 0 && h > 0 && across > 0 && max > 0
    requires Largest(s, max as real, across as real * w as real, h as real)
    ensures s == Scale(w, h, across, max)
  {
    ProductOfNats(across, w);
    OnlyOneIsLargest(s, max as real, across as real * w as real, h as real);
  }

  /** Both sides of a view are scaled by the largest scale, from 1 down, that fits. */
  lemma ViewsExtentIs(w: nat, h: nat, views: nat, arrayLayout: bool, max: nat, across: nat, s: real)
    requires Usable(w, h, views, max) && s >= 0.0 && across == if arrayLayout then 1 else views
    requires Largest(s, max as real, across as real * w as real, h as real)
    ensures ViewsExtent(w, h, views, arrayLayout, max) == (Scaled(w, s) * across, Scaled(h, s))
  {
    LargestIsScale(w, h, across, max, s);
  }

  /** A limited depth map's sides are rounded to the nearest. */
  lemma RoundedIsNearest(n: nat, s: real, max: nat)
    requires s >= 0.0 && 1.0 <= n as real * s <= max as real
    ensures -0.5 <= Rounded(n, s, max) as real - n as real * s <= 0.5
  {
  }

  lemma DepthExtentIsNearest(w: nat, h: nat, maxEdge: nat, s: real)
    requires w > 0 && h > 0 && 0 < maxEdge < (if w > h then w else h)
    requires s == maxEdge as real / (if w > h then w else h) as real
    requires w as real * s >= 1.0 && h as real * s >= 1.0
    ensures var r := DepthExtent(w, h, maxEdge);
            -0.5 <= r.0 as real - w as real * s <= 0.5 && -0.5 <= r.1 as real - h as real * s <= 0.5
  {
    var edge := if w > h then w else h;
    Divides(maxEdge as real, edge as real);
    Product(s, edge as real - w as real);
    Product(s, edge as real - h as real);
    Spread(s, edge as real, w as real);
    Spread(s, edge as real, h as real);
    RoundedIsNearest(w, s, maxEdge);
    RoundedIsNearest(h, s, maxEdge);
  }

  lemma Spread(s: real, a: real, b: real)
    ensures s * (a - b) == a * s - b * s
  {
  }

  // ---- The licence ----------------------------------------------------------------------------

  function Lower(c: char): char { if 'A' <= c <= 'Z' then c - 'A' + 'a' else c }

  /** The needle stands at `at`, whatever the case of either. */
  ghost predicate StandsAt(hay: string, needle: string, at: nat) {
    at + |needle| <= |hay| && forall j :: 0 <= j < |needle| ==> Lower(hay[at + j]) == Lower(needle[j])
  }

  ghost predicate Contains(hay: string, needle: string) {
    needle != "" && exists at: nat :: StandsAt(hay, needle, at)
  }

  method MatchHere(hay: string, needle: string, at: nat) returns (r: bool)
    requires at < |hay| && needle != ""
    ensures r == StandsAt(hay, needle, at)
  {
    var j := 0;
    while at + j < |hay| && j < |needle| && Lower(hay[at + j]) == Lower(needle[j])
      invariant 0 <= j <= |needle| && at + j <= |hay|
      invariant forall k :: 0 <= k < j ==> Lower(hay[at + k]) == Lower(needle[k])
      decreases |needle| - j
    {
      j := j + 1;
    }
    r := j == |needle|;
  }

  /** contains_ci. */
  method ContainsCi(hay: string, needle: string) returns (r: bool)
    ensures r == Contains(hay, needle)
  {
    if needle == "" { return false; }
    var at := 0;
    while at < |hay|
      invariant 0 <= at <= |hay| && forall k: nat :: k < at ==> !StandsAt(hay, needle, k)
    {
      r := MatchHere(hay, needle, at);
      if r { return; }
      at := at + 1;
    }
    r := false;
    forall k: nat ensures !StandsAt(hay, needle, k) {
    }
  }

  datatype Licence = UnknownLicence | Commercial | ResearchOnly

  const RESTRICTED: seq<string> := [
    "internal", "non-commercial", "noncommercial", "non commercial", "research", "evaluation", "trial",
    "not for resale", "personal use"]

  /** The licence line, or the product name when there is no line. */
  function LicenceText(line: string, product: string): string { if line != "" then line else product }

  ghost predicate Restricted(text: string) {
    exists k :: 0 <= k < |RESTRICTED| && Contains(text, RESTRICTED[k])
  }

  /** The words that restrict. */
  lemma RestrictedIff(text: string)
    ensures Restricted(text) <==>
              || Contains(text, "internal") || Contains(text, "non-commercial") || Contains(text, "noncommercial")
              || Contains(text, "non commercial") || Contains(text, "research") || Contains(text, "evaluation")
              || Contains(text, "trial") || Contains(text, "not for resale") || Contains(text, "personal use")
  {
    assert RESTRICTED[0] == "internal" && RESTRICTED[1] == "non-commercial" && RESTRICTED[2] == "noncommercial";
    assert RESTRICTED[3] == "non commercial" && RESTRICTED[4] == "research" && RESTRICTED[5] == "evaluation";
    assert RESTRICTED[6] == "trial" && RESTRICTED[7] == "not for resale" && RESTRICTED[8] == "personal use";
  }

  /** leia_conv_licence_class: a restricting word wins over "commercial", whatever else the text says. */
  method LicenceClass(line: string, product: string) returns (r: Licence)
    ensures r == ResearchOnly <==> Restricted(LicenceText(line, product))
    ensures r == Commercial
            <==> !Restricted(LicenceText(line, product)) && Contains(LicenceText(line, product), "commercial")
  {
    var text := LicenceText(line, product);
    if text == "" { return UnknownLicence; }
    var k := 0;
    while k < |RESTRICTED|
      invariant 0 <= k <= |RESTRICTED| && forall j :: 0 <= j < k ==> !Contains(text, RESTRICTED[j])
    {
      var found := ContainsCi(text, RESTRICTED[k]);
      if found { return ResearchOnly; }
      k := k + 1;
    }
    var commercial := ContainsCi(text, "commercial");
    return if commercial then Commercial else UnknownLicence;
  }

  /** The order matters: what says "non-commercial" also says "commercial", and is not commercial. */
  lemma NonCommercialIsRestricted(text: string)
    requires Contains(text, "non-commercial")
    ensures Contains(text, "commercial") && Restricted(text)
  {
    assert RESTRICTED[1] == "non-commercial";
    var at: nat :| StandsAt(text, "non-commercial", at);
    var inner := "commercial";
    forall j | 0 <= j < |inner| ensures Lower(text[at + 4 + j]) == Lower(inner[j]) {
      assert inner[j] == "non-commercial"[4 + j];
      assert Lower(text[at + (4 + j)]) == Lower("non-commercial"[4 + j]);
    }
    assert StandsAt(text, inner, at + 4);
  }
}
