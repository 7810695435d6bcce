/**
 What a lifted image's camera and metadata are, number by number, in the inputs alone.
 */
module LiftExact {
  import opened Common
  import opened Floats
  import opened LiftDepth

  /** A finite number above 0. */
  ghost predicate Given(a: Float) { a.Fin? && a.v > 0.0 }

  /** At least 0: not NaN and not negative. */
  ghost predicate AtLeastZero(a: Float) { a.PosInf? || (a.Fin? && a.v >= 0.0) }

  ghost predicate IsLeast(m: real, a: real, b: real) { m <= a && m <= b && (m == a || m == b) }

  ghost predicate IsLargest(m: real, a: real, b: real) { m >= a && m >= b && (m == a || m == b) }

  // ---- The eyes -------------------------------------------------------------------------------

  lemma NominalIs(i: Input)
    ensures NominalZ(i) == if Given(i.nominalZ) then i.nominalZ.v else 0.5
  {
  }

  /** An application's rig is taken as it is; other eyes are scaled, y by both gains. What is not finite is
      centred, and an eye without a distance stands at the nominal one. */
  lemma EyeIs(i: Input, eyes: seq<Point>, k: nat)
    requires k < |eyes| && i.viewGain.Fin? && i.yGain.Fin?
    ensures var p, e := eyes[k], Eyes(i, eyes)[k];
      var rig := i.source == DisplayRig || i.source == CameraRig;
      && |Eyes(i, eyes)| == |eyes|
      && e.x == Fin(if !p.x.Fin? then 0.0 else if rig then p.x.v else i.viewGain.v * p.x.v)
      && e.y == Fin(if !p.y.Fin? then 0.0 else if rig then p.y.v else i.viewGain.v * i.yGain.v * p.y.v)
      && e.z == Fin(if Given(p.z) then p.z.v else if Given(i.nominalZ) then i.nominalZ.v else 0.5)
  {
  }

  /** Without eyes: two, half a baseline left and half a baseline right of the centre. */
  lemma DefaultPairIs(i: Input)
    requires !i.baseline.PosInf?
    ensures var b := if Given(i.baseline) then i.baseline.v else 0.063;
      var z := Fin(if Given(i.nominalZ) then i.nominalZ.v else 0.5);
      Eyes(i, []) == [Point(Fin(-0.5 * b), Fin(0.0), z), Point(Fin(0.5 * b), Fin(0.0), z)]
  {
  }

  // ---- The plane on the screen and the thickness ----------------------------------------------

  /** The convergence asked for, else the automatic one, else half way. */
  lemma WantedIs(i: Input)
    ensures AtLeastZero(i.convergence) ==>
              WantedH(i) == if i.convergence.Fin? && i.convergence.v <= 1.0 then 1.0 - i.convergence.v else 0.0
    ensures !AtLeastZero(i.convergence) ==>
              WantedH(i) == if Given(i.autoZeroH) && i.autoZeroH.v <= 1.0 then i.autoZeroH.v else 0.5
  {
  }

  ghost predicate StrengthOf(i: Input, s: real) {
    if AtLeastZero(i.strength) then i.strength == Fin(s) else s == 1.0
  }

  /** A relief in metres: scaled by the strength, and at least a millimetre. */
  lemma ReliefThicknessIs(i: Input, s: real)
    requires !(i.metric && (i.inverseScale.PosInf? || Given(i.inverseScale)))
    requires i.relief.Fin? && StrengthOf(i, s)
    ensures IsLargest(Thickness(i), i.relief.v * s, 0.001)
  {
  }

  /** What a metric relief starts from: N / h0, or the cap where h0 = 0 makes that infinite. */
  ghost predicate StartsFrom(i: Input, cap: real, base: real) {
    base == if WantedH(i) > 0.0 then NominalZ(i) / WantedH(i) else cap
  }

  lemma CapIs(i: Input, cap: real)
    requires i.metricReliefMax.Fin? && IsLargest(cap, i.metricReliefMax.v, 0.001)
    ensures Cap(i) == Fin(cap)
  {
  }

  lemma CappedProduct(x: Float, y: Float, cap: Float, a: real, b: real, c: real)
    requires x == Fin(a) && y == Fin(b) && cap == Fin(c)
    ensures AtMost(Times(x, y), cap) == if a * b < c then Fin(a * b) else Fin(c)
  {
  }

  lemma StartIs(i: Input, cap: real, base: real)
    requires Cap(i) == Fin(cap) && StartsFrom(i, cap, base)
    ensures MetricStart(i) == Fin(base)
  {
  }

  lemma RawIs(i: Input, s: real, cap: real, base: real)
    requires MetricRelief(i) && Strength(i) == Fin(s) && Cap(i) == Fin(cap) && MetricStart(i) == Fin(base)
    ensures RawThickness(i) == if base * s < cap then Fin(base * s) else Fin(cap)
  {
    CappedProduct(MetricStart(i), Strength(i), Cap(i), base, s, cap);
  }

  /** A metric one: that start scaled by the strength, at most the cap, which is at least a millimetre, and
      at least a millimetre itself. */
  lemma MetricThicknessIs(i: Input, s: real, cap: real, base: real, d: real)
    requires i.metric && (i.inverseScale.PosInf? || Given(i.inverseScale)) && StrengthOf(i, s)
    requires i.metricReliefMax.Fin? && IsLargest(cap, i.metricReliefMax.v, 0.001) && StartsFrom(i, cap, base)
    requires IsLeast(d, base * s, cap)
    ensures IsLargest(Thickness(i), d, 0.001)
  {
    CapIs(i, cap);
    StartIs(i, cap, base);
    RawIs(i, s, cap, base);
  }

  lemma PlaneIs(n0: real, d: real, nearest: real)
    ensures IsLeast(ConvergenceDepth(n0, d, nearest), n0 * d, 0.9 * nearest)
  {
  }

  ghost predicate CameraOf(cam: Camera, w: Float, h: Float, eyes: seq<Point>, nz: real, h0: real, d: real) {
    && cam.eyes == eyes && cam.screen.width == w && cam.screen.height == h
    && cam.screen.depthScale == d && cam.screen.nominalZ == nz
    && IsLeast(cam.screen.convergenceDepth, (1.0 - h0) * d, 0.9 * NearestZ(eyes, nz))
    && (1.0 - cam.zeroH) * d == cam.screen.convergenceDepth
  }

  lemma CameraForIs(w: Float, h: Float, eyes: seq<Point>, nz: real, h0: real, d: real)
    requires d > 0.0 && 0.0 <= h0 <= 1.0
    ensures CameraOf(CameraFor(w, h, eyes, nz, h0, d), w, h, eyes, nz, h0, d)
  {
    PlaneIs(1.0 - h0, d, NearestZ(eyes, nz));
    Restores(ConvergenceDepth(1.0 - h0, d, NearestZ(eyes, nz)), d);
  }

  /** The camera: the rectangle's size, the thickness D, the wanted plane's depth but at most nine tenths
      of the way to the nearest eye, and the h that plane has. */
  lemma CameraIs(i: Input, eyes: seq<Point>)
    requires Build(i, eyes).Some?
    ensures CameraOf(Build(i, eyes).value, i.width, i.height, Eyes(i, eyes), NominalZ(i), WantedH(i), Thickness(i))
  {
    CameraForIs(i.width, i.height, Eyes(i, eyes), NominalZ(i), WantedH(i), Thickness(i));
  }

  lemma Restores(c: real, d: real)
    requires d > 0.0
    ensures (1.0 - (1.0 - c / d)) * d == c
  {
  }

  /** The relief map exists for a usable thickness and, in metric units, a usable scale; depth d is then
      shown at scale / d + offset. */
  lemma ReliefIff(units: Units, inverseScale: Float, c: Float, d: Float)
    ensures var r := Relief(units, inverseScale, c, d);
      && (r.Some? <==> Given(d) && c.Fin? && (units == Metric ==> Given(inverseScale)))
      && (r.Some? ==>
            && r.value.1 == c.v - d.v
            && (if units == Metric then 255.0 * r.value.0 == d.v * inverseScale.v else r.value.0 == d.v))
  {
  }

  /** A depth is unknown exactly when there is no h above 0, or no metric scale above 0. */
  lemma DepthIsKnownIff(units: Units, scale: Float, h: Float)
    requires !scale.PosInf?
    ensures Given(DepthFromH(units, scale, h)) <==> Given(h) && (units == Metric ==> Given(scale))
    ensures !Given(DepthFromH(units, scale, h)) ==> DepthFromH(units, scale, h) == Fin(0.0)
  {
    if Given(h) { Inverts(1.0, h.v); }
    if Given(h) && Given(scale) { Inverts(scale.v, 255.0 * h.v); }
  }

  lemma Inverts(n: real, d: real)
    requires n > 0.0 && d > 0.0
    ensures n / d > 0.0
  {
    var q := n / d;
    assert q * d == n;
    if q <= 0.0 { Product(-q, d); }
  }

  // ---- The metadata ---------------------------------------------------------------------------

  /** Metric samples are metres as they are; relative ones are 255ths of the renderer's h, inverted, with
      no range. */
  lemma SamplesAre(i: Info, zeroH: Float)
    ensures var m := MetaFromInfo(i, zeroH);
      var metric := i.units == Metric && (i.inverseScale.PosInf? || Given(i.inverseScale));
      && (metric <==> m.units == Metric) && (metric <==> m.encoding == Linear)
      && m.valueOffset == 0.0 && 255.0 * m.valueScale == (if metric then 255.0 else 1.0)
      && m.near == (if metric && (Given(i.near) || i.near.PosInf?) then i.near else Fin(0.0))
      && m.far == (if metric && (Given(i.far) || i.far.PosInf?) then i.far else Fin(0.0))
  {
  }

  /** The intrinsics given are kept. */
  lemma IntrinsicsAreKept(i: Info, zeroH: Float)
    requires Given(i.focalX) && Given(i.focalY)
    ensures var m := MetaFromInfo(i, zeroH);
      m.focalX == i.focalX && m.focalY == i.focalY && m.principalX == i.principalX && m.principalY == i.principalY
  {
  }

  /** Otherwise they are the nominal pinhole's, each axis scaled from the source's extent to the map's, the
      principal point half way; with an extent unknown they are. */
  lemma IntrinsicsAreNominal(i: Info, zeroH: Float)
    requires !(Given(i.focalX) || i.focalX.PosInf?) || !(Given(i.focalY) || i.focalY.PosInf?)
    ensures var m := MetaFromInfo(i, zeroH);
      if i.width > 0 && i.height > 0 && i.sourceWidth > 0 && i.sourceHeight > 0 then
        var longer := if i.sourceWidth > i.sourceHeight then i.sourceWidth else i.sourceHeight;
        && m.focalX.Fin? && m.focalX.v * i.sourceWidth as real == 0.78 * longer as real * i.width as real
        && m.focalY.Fin? && m.focalY.v * i.sourceHeight as real == 0.78 * longer as real * i.height as real
        && m.principalX.Fin? && 2.0 * m.principalX.v == i.width as real
        && m.principalY.Fin? && 2.0 * m.principalY.v == i.height as real
      else m.focalX == m.focalY == m.principalX == m.principalY == Fin(0.0)
  {
    if i.width > 0 && i.height > 0 && i.sourceWidth > 0 && i.sourceHeight > 0 {
      var f := 0.78 * (if i.sourceWidth > i.sourceHeight then i.sourceWidth else i.sourceHeight) as real;
      Scales(f * i.width as real, i.sourceWidth as real);
      Scales(f * i.height as real, i.sourceHeight as real);
    }
  }

  lemma Scales(x: real, d: real)
    requires d > 0.0
    ensures x / d * d == x
  {
  }
}
