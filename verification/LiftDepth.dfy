/**
 The off-axis camera of a lifted image: where the eyes and the relief go, and the depth metadata that
 tells the runtime where the woven views present each texel.
 */
module LiftDepth {
  import opened Common
  import opened Floats

  const FOCAL_FACTOR := 0.78
  const DEFAULT_NOMINAL_Z := 0.5
  const DEFAULT_BASELINE := 0.063
  const POPOUT_LIMIT := 0.9
  const MIN_RELIEF := 0.001

  function Clamp(a: Float, lo: real, hi: real): (r: real)
    requires lo <= hi
    ensures lo <= r <= hi && (a.Fin? && lo <= a.v <= hi ==> r == a.v)
  {
    if a.NaN? || Less(a, Fin(lo)) then lo else if Less(Fin(hi), a) then hi else a.v
  }

  // ---- The mapping ----------------------------------------------------------------------------

  datatype Source = Tracked | Explicit | DisplayRig | CameraRig

  datatype Point = Point(x: Float, y: Float, z: Float)

  datatype Input = Input(
    width: Float, height: Float, nominalZ: Float, source: Source, viewGain: Float, yGain: Float, baseline: Float,
    strength: Float, convergence: Float, autoZeroH: Float,
    metric: bool, inverseScale: Float, relief: Float, metricReliefMax: Float)

  datatype Screen = Screen(width: Float, height: Float, depthScale: real, convergenceDepth: real, nominalZ: real)

  datatype Camera = Camera(screen: Screen, eyes: seq<Point>, zeroH: real)

  function NominalZ(i: Input): (r: real)
    ensures r > 0.0
  {
    if Usable(i.nominalZ) then i.nominalZ.v else DEFAULT_NOMINAL_Z
  }

  predicate Rig(i: Input) { i.source.DisplayRig? || i.source.CameraRig? }

  function GainX(i: Input): Float { if Rig(i) then Fin(1.0) else i.viewGain }

  function GainY(i: Input): Float { if Rig(i) then Fin(1.0) else Times(i.viewGain, i.yGain) }

  function MapEye(i: Input, p: Point): Point {
    Point(if p.x.Fin? then Times(GainX(i), p.x) else ZERO,
          if p.y.Fin? then Times(GainY(i), p.y) else ZERO,
          if Usable(p.z) then p.z else Fin(NominalZ(i)))
  }

  function DefaultPair(i: Input): seq<Point> {
    var b := if Positive(i.baseline) then i.baseline else Fin(DEFAULT_BASELINE);
    [Point(Times(Fin(-0.5), b), ZERO, Fin(NominalZ(i))), Point(Times(Fin(0.5), b), ZERO, Fin(NominalZ(i)))]
  }

  function Eyes(i: Input, eyes: seq<Point>): seq<Point> {
    if eyes == [] then DefaultPair(i) else seq(|eyes|, (k: int) requires 0 <= k < |eyes| => MapEye(i, eyes[k]))
  }

  /** The least of the nominal distance and the eyes' distances. */
  function NearestZ(eyes: seq<Point>, nz: real): real {
    if eyes == [] then nz else
    var rest := NearestZ(eyes[..|eyes| - 1], nz);
    var z := eyes[|eyes| - 1].z;
    if Less(z, Fin(rest)) && z.Fin? then z.v else rest
  }

  /** The h asked to be on the screen. */
  function WantedH(i: Input): (r: real)
    ensures 0.0 <= r <= 1.0
  {
    if i.convergence == ZERO || Positive(i.convergence) then 1.0 - Clamp(i.convergence, 0.0, 1.0)
    else if Positive(i.autoZeroH) && !Less(Fin(1.0), i.autoZeroH) then i.autoZeroH.v
    else 0.5
  }

  function Cap(i: Input): Float {
    if Less(Fin(MIN_RELIEF), i.metricReliefMax) then i.metricReliefMax else Fin(MIN_RELIEF)
  }

  predicate MetricRelief(i: Input) { i.metric && Positive(i.inverseScale) }

  function Strength(i: Input): Float {
    if i.strength == ZERO || Positive(i.strength) then i.strength else Fin(1.0)
  }

  /** The metric thickness at strength 1, before any cap but the one that stands for an infinite one. */
  function MetricStart(i: Input): Float {
    if WantedH(i) > 0.0 then Fin(NominalZ(i) / WantedH(i)) else Cap(i)
  }

  function AtMost(d: Float, cap: Float): Float { if Less(d, cap) then d else cap }

  function RawThickness(i: Input): Float {
    if MetricRelief(i) then AtMost(Times(MetricStart(i), Strength(i)), Cap(i))
    else Times(i.relief, Strength(i))
  }

  function Thickness(i: Input): (r: real)
    ensures r >= MIN_RELIEF
  {
    var d := RawThickness(i);
    if Less(Fin(MIN_RELIEF), d) && d.Fin? then d.v else MIN_RELIEF
  }

  function ConvergenceDepth(n0: real, d: real, zmin: real): real {
    if n0 * d > POPOUT_LIMIT * zmin then POPOUT_LIMIT * zmin else n0 * d
  }

  /** The camera for mapped eyes when `h0` is wanted on the screen and the relief is `d` thick. */
  function CameraFor(w: Float, h: Float, eyes: seq<Point>, nz: real, h0: real, d: real): Camera
    requires d > 0.0
  {
    var c := ConvergenceDepth(Clamp(Fin(1.0 - h0), 0.0, 1.0), d, NearestZ(eyes, nz));
    Camera(Screen(w, h, d, c, nz), eyes, 1.0 - c / d)
  }

  function Build(i: Input, eyes: seq<Point>): Option<Camera> {
    if !Usable(i.width) || !Usable(i.height) then None
    else Some(CameraFor(i.width, i.height, Eyes(i, eyes), NominalZ(i), WantedH(i), Thickness(i)))
  }

  // ---- Everything is in front -----------------------------------------------------------------

  ghost predicate AllUsable(eyes: seq<Point>) {
    forall k :: 0 <= k < |eyes| ==> Usable(eyes[k].z)
  }

  lemma {:induction false} NearestIsLeast(eyes: seq<Point>, nz: real)
    requires nz > 0.0 && AllUsable(eyes)
    ensures 0.0 < NearestZ(eyes, nz) <= nz
    ensures forall k :: 0 <= k < |eyes| ==> Usable(eyes[k].z) && NearestZ(eyes, nz) <= eyes[k].z.v
    ensures NearestZ(eyes, nz) == nz || exists k :: 0 <= k < |eyes| && eyes[k].z == Fin(NearestZ(eyes, nz))
  {
    if eyes != [] {
      var rest := eyes[..|eyes| - 1];
      assert forall k :: 0 <= k < |rest| ==> rest[k] == eyes[k];
      NearestIsLeast(rest, nz);
      if NearestZ(eyes, nz) == NearestZ(rest, nz) && NearestZ(rest, nz) != nz {
        var k :| 0 <= k < |rest| && rest[k].z == Fin(NearestZ(rest, nz));
        assert eyes[k].z == Fin(NearestZ(eyes, nz));
      }
    }
  }

  /** Limiting never moves the convergence plane past the relief or the limit; it moves it exactly when
      the wanted one is past the limit. */
  lemma Limited(n0: real, d: real, zmin: real)
    requires 0.0 <= n0 <= 1.0 && d > 0.0 && zmin > 0.0
    ensures var c := ConvergenceDepth(n0, d, zmin);
            && 0.0 <= c <= POPOUT_LIMIT * zmin && c / d * d == c && 0.0 <= c / d <= n0
            && (c / d == n0 <==> n0 * d <= POPOUT_LIMIT * zmin)
  {
    Product(n0, d);
    LeastOf(n0, d, POPOUT_LIMIT * zmin, ConvergenceDepth(n0, d, zmin));
  }

  lemma LeastOf(n0: real, d: real, limit: real, c: real)
    requires d > 0.0 && c >= 0.0 && c == if n0 * d <= limit then n0 * d else limit
    ensures c / d * d == c && 0.0 <= c / d <= n0 && (c / d == n0 <==> n0 * d <= limit)
  {
    var q := c / d;
    assert q * d == c;
    Ordered(q, n0, d);
    Ordered(n0, q, d);
    Ordered(0.0, q, d);
  }

  /** Every eye and the nominal camera stand strictly in front of the nearest relief plane. */
  ghost predicate InFront(cam: Camera) {
    && 0.0 <= cam.screen.convergenceDepth <= POPOUT_LIMIT * cam.screen.nominalZ
    && cam.screen.convergenceDepth < cam.screen.nominalZ
    && 0.0 <= cam.zeroH <= 1.0 && (1.0 - cam.zeroH) * cam.screen.depthScale == cam.screen.convergenceDepth
    && forall k :: 0 <= k < |cam.eyes| ==>
         Usable(cam.eyes[k].z) && cam.screen.convergenceDepth <= POPOUT_LIMIT * cam.eyes[k].z.v
         && cam.screen.convergenceDepth < cam.eyes[k].z.v
  }

  /** The plane asked for is on the screen exactly when it needs no limiting; limiting only ever brings
      a nearer plane onto the screen. */
  ghost predicate WantedPlane(cam: Camera, h0: real) {
    && cam.zeroH >= h0
    && (cam.zeroH == h0
        <==> (1.0 - h0) * cam.screen.depthScale <= POPOUT_LIMIT * NearestZ(cam.eyes, cam.screen.nominalZ))
  }

  lemma CameraIsInFront(w: Float, h: Float, eyes: seq<Point>, nz: real, h0: real, d: real)
    requires AllUsable(eyes) && nz > 0.0 && d > 0.0 && 0.0 <= h0 <= 1.0
    ensures InFront(CameraFor(w, h, eyes, nz, h0, d))
  {
    NearestIsLeast(eyes, nz);
    Limited(1.0 - h0, d, NearestZ(eyes, nz));
  }

  lemma CameraShowsTheWantedPlane(w: Float, h: Float, eyes: seq<Point>, nz: real, h0: real, d: real)
    requires AllUsable(eyes) && nz > 0.0 && d > 0.0 && 0.0 <= h0 <= 1.0
    ensures WantedPlane(CameraFor(w, h, eyes, nz, h0, d), h0)
  {
    NearestIsLeast(eyes, nz);
    Limited(1.0 - h0, d, NearestZ(eyes, nz));
  }

  lemma MappedEyesAreUsable(i: Input, eyes: seq<Point>)
    ensures AllUsable(Eyes(i, eyes))
  {
  }

  /** An application's own rig is reproduced exactly, whatever the gains. */
  lemma RigEyesAreReproduced(i: Input, eyes: seq<Point>)
    requires Rig(i) && eyes != [] && AllUsable(eyes) && forall k :: 0 <= k < |eyes| ==> eyes[k].x.Fin? && eyes[k].y.Fin?
    ensures Eyes(i, eyes) == eyes
  {
    forall k | 0 <= k < |eyes| ensures MapEye(i, eyes[k]) == eyes[k] {
    }
  }

  /** A camera is built exactly for a usable rectangle, whatever the eyes, gains, strength and
      convergence are; it then has everything in front of the nearest relief plane, a relief at least a
      millimetre thick, as many eyes as were given or the default pair, and the wanted plane. */
  lemma EveryEyeIsInFront(i: Input, eyes: seq<Point>)
    ensures Build(i, eyes).Some? <==> Usable(i.width) && Usable(i.height)
    ensures Build(i, eyes).Some? ==>
              && InFront(Build(i, eyes).value) && WantedPlane(Build(i, eyes).value, WantedH(i))
              && Build(i, eyes).value.screen.depthScale >= MIN_RELIEF
              && |Build(i, eyes).value.eyes| == (if eyes == [] then 2 else |eyes|)
  {
    MappedEyesAreUsable(i, eyes);
    CameraIsInFront(i.width, i.height, Eyes(i, eyes), NominalZ(i), WantedH(i), Thickness(i));
    CameraShowsTheWantedPlane(i.width, i.height, Eyes(i, eyes), NominalZ(i), WantedH(i), Thickness(i));
  }

  // ---- The relief map -------------------------------------------------------------------------

  datatype Units = Relative | Metric

  /** The h of a depth, in either direction; 0 stands for unknown. */
  function DepthFromH(units: Units, scale: Float, h: Float): Float {
    if !h.Fin? || h.v <= 0.0 then ZERO
    else if units.Metric? then
      if !Positive(scale) then ZERO else if scale.Fin? then Fin(scale.v / (255.0 * h.v)) else PosInf
    else Fin(1.0 / h.v)
  }

  function HFromMetricDepth(scale: Float, depth: Float): Float {
    if !Positive(scale) || !Usable(depth) then ZERO
    else if scale.Fin? then Fin(scale.v / (255.0 * depth.v)) else PosInf
  }

  /** Depth d is presented at `scale / d + offset` metres in front of the screen. */
  function Relief(units: Units, inverseScale: Float, c: Float, d: Float): Option<(real, real)> {
    if !Usable(d) || !c.Fin? then None
    else if units.Metric? && !Usable(inverseScale) then None
    else Some((if units.Metric? then d.v * inverseScale.v / 255.0 else d.v, c.v - d.v))
  }

  function Presented(relief: (real, real), depth: real): real
    requires depth > 0.0
  {
    relief.0 * (1.0 / depth) + relief.1
  }

  /** Where the off-axis renderer puts h. */
  function RenderedAt(s: Screen, h: real): real { s.convergenceDepth - (1.0 - h) * s.depthScale }

  function ReliefOf(s: Screen, units: Units, scale: Float): Option<(real, real)> {
    Relief(units, scale, Fin(s.convergenceDepth), Fin(s.depthScale))
  }

  /** Under the relief map the depth of h is presented where the renderer puts h, for both unit kinds. */
  lemma ReliefMatchesTheRenderer(s: Screen, units: Units, scale: Float, h: real)
    requires s.depthScale > 0.0 && h > 0.0 && (units.Metric? ==> Usable(scale))
    ensures var d := DepthFromH(units, scale, Fin(h));
            && Usable(d) && ReliefOf(s, units, scale).Some?
            && Presented(ReliefOf(s, units, scale).value, d.v) == RenderedAt(s, h)
  {
    if units.Metric? {
      var q := scale.v / (255.0 * h);
      Regroup(s.depthScale, scale.v, 1.0 / q);
    }
  }

  lemma Regroup(d: real, s: real, q: real)
    ensures d * s / 255.0 * q == d * (s / 255.0 * q)
  {
  }

  /** Depth and h are each other's inverse in metric units. */
  lemma MetricRoundTrip(scale: Float, x: Float)
    requires Usable(scale) && Usable(x)
    ensures HFromMetricDepth(scale, DepthFromH(Metric, scale, x)) == x
    ensures DepthFromH(Metric, scale, HFromMetricDepth(scale, x)) == x
  {
    var s, q := scale.v, scale.v / (255.0 * x.v);
    assert q * (255.0 * x.v) == s;
    Quotient(s, 255.0 * q, x.v);
  }

  lemma Quotient(s: real, a: real, b: real)
    requires a != 0.0 && s == a * b
    ensures s / a == b
  {
  }

  // ---- The metadata ---------------------------------------------------------------------------

  datatype Encoding = Linear | Inverse

  datatype Info = Info(
    units: Units, width: int, height: int, sourceWidth: int, sourceHeight: int, focalX: Float, focalY: Float,
    principalX: Float, principalY: Float, near: Float, far: Float, inverseScale: Float)

  datatype Meta = Meta(
    units: Units, encoding: Encoding, valueScale: real, valueOffset: real, focalX: Float, focalY: Float,
    principalX: Float, principalY: Float, near: Float, far: Float, convergence: Float)

  function Known(a: Float): Float { if Positive(a) then a else ZERO }

  function Intrinsics(i: Info): (Float, Float, Float, Float) {
    if Positive(i.focalX) && Positive(i.focalY) then (i.focalX, i.focalY, i.principalX, i.principalY)
    else if i.width > 0 && i.height > 0 && i.sourceWidth > 0 && i.sourceHeight > 0 then
      var f := FOCAL_FACTOR * (if i.sourceWidth > i.sourceHeight then i.sourceWidth else i.sourceHeight) as real;
      (Fin(f * i.width as real / i.sourceWidth as real), Fin(f * i.height as real / i.sourceHeight as real),
       Fin(0.5 * i.width as real), Fin(0.5 * i.height as real))
    else (ZERO, ZERO, ZERO, ZERO)
  }

  function MetaFromInfo(i: Info, zeroH: Float): Meta {
    var metric := i.units.Metric? && Positive(i.inverseScale);
    var units := if metric then Metric else Relative;
    var k := Intrinsics(i);
    Meta(units, if metric then Linear else Inverse, if metric then 1.0 else 1.0 / 255.0, 0.0,
         k.0, k.1, k.2, k.3, if metric then Known(i.near) else ZERO, if metric then Known(i.far) else ZERO,
         DepthFromH(units, i.inverseScale, zeroH))
  }

  /** How the runtime reads a texel. */
  function Decode(m: Meta, sample: real): real
    requires m.encoding.Inverse? ==> sample * m.valueScale + m.valueOffset != 0.0
  {
    var v := sample * m.valueScale + m.valueOffset;
    if m.encoding.Linear? then v else 1.0 / v
  }

  /** The h a texel stands for: the raw disparity of a relative map, S / (255 m) of a metric one. */
  function TexelH(i: Info, sample: real): real
    requires sample > 0.0
  {
    if i.units.Metric? && Usable(i.inverseScale) then i.inverseScale.v / (255.0 * sample) else sample / 255.0
  }

  /** End to end: a texel decoded with the metadata and mapped by the relief lands where the renderer
      presents its h, and the reported convergence depth lands where it presents `zeroH`. */
  lemma TexelsLandWhereRendered(i: Info, zeroH: real, s: Screen, sample: real)
    requires s.depthScale > 0.0 && sample > 0.0 && zeroH > 0.0
    requires i.units.Metric? && Positive(i.inverseScale) ==> i.inverseScale.Fin?
    ensures var m := MetaFromInfo(i, Fin(zeroH));
            var r := ReliefOf(s, m.units, i.inverseScale);
            && r.Some? && Decode(m, sample) > 0.0 && Usable(m.convergence)
            && Presented(r.value, Decode(m, sample)) == RenderedAt(s, TexelH(i, sample))
            && Presented(r.value, m.convergence.v) == RenderedAt(s, zeroH)
  {
    var m := MetaFromInfo(i, Fin(zeroH));
    ReliefMatchesTheRenderer(s, m.units, i.inverseScale, zeroH);
    if m.units.Metric? {
      MetricRoundTrip(i.inverseScale, Fin(sample));
      ReliefMatchesTheRenderer(s, m.units, i.inverseScale, TexelH(i, sample));
    } else {
      ReliefMatchesTheRenderer(s, m.units, i.inverseScale, sample / 255.0);
    }
  }

  /** The convergence depth reported for a camera is presented exactly on the screen, and nothing else
      is; it is reported unknown exactly when the camera puts h = 0 on the screen. */
  lemma ConvergenceIsOnTheScreen(cam: Camera, info: Info, h: real)
    requires InFront(cam) && cam.screen.depthScale > 0.0
    requires info.units.Metric? && Positive(info.inverseScale) ==> info.inverseScale.Fin?
    ensures var m := MetaFromInfo(info, Fin(cam.zeroH));
            && (RenderedAt(cam.screen, h) == 0.0 <==> h == cam.zeroH)
            && (m.convergence == ZERO <==> cam.zeroH == 0.0)
            && (cam.zeroH != 0.0 ==>
                  Usable(m.convergence) && ReliefOf(cam.screen, m.units, info.inverseScale).Some?
                  && Presented(ReliefOf(cam.screen, m.units, info.inverseScale).value, m.convergence.v) == 0.0)
  {
    OnlyZeroHIsOnTheScreen(cam.screen, cam.zeroH, h);
    OnlyZeroHIsOnTheScreen(cam.screen, cam.zeroH, cam.zeroH);
    if cam.zeroH != 0.0 {
      TexelsLandWhereRendered(info, cam.zeroH, cam.screen, 1.0);
    }
  }

  lemma OnlyZeroHIsOnTheScreen(s: Screen, zeroH: real, h: real)
    requires s.depthScale > 0.0 && (1.0 - zeroH) * s.depthScale == s.convergenceDepth
    ensures RenderedAt(s, h) == (h - zeroH) * s.depthScale
    ensures RenderedAt(s, h) == 0.0 <==> h == zeroH
  {
  }

  // ---- The metric relief is a tangent ---------------------------------------------------------

  /** Where a metric scene puts depth d, scaled so that d0 is on the screen seen from distance n. */
  function SceneAt(n: real, d: real, d0: real): real
    requires d0 != 0.0
  {
    n * (1.0 - d / d0)
  }

  /** At strength 1, neither capped nor limited: the thickness is N / h0 and the wanted plane is shown. */
  predicate Plain(i: Input, zmin: real) {
    && MetricRelief(i) && i.inverseScale.Fin? && i.strength == Fin(1.0) && WantedH(i) > 0.0
    && MIN_RELIEF < NominalZ(i) / WantedH(i)
    && Less(Fin(NominalZ(i) / WantedH(i)), Cap(i))
    && Unlimited(zmin, WantedH(i), NominalZ(i) / WantedH(i))
  }

  predicate Unlimited(zmin: real, h0: real, d: real) { (1.0 - h0) * d <= POPOUT_LIMIT * zmin }

  lemma Tangent(n: real, h: real, h0: real, ratio: real)
    requires n > 0.0 && h > 0.0 && h0 > 0.0 && ratio * h == h0
    ensures (h - h0) * (n / h0) - n * (1.0 - ratio) == n * (h - h0) * (h - h0) / (h * h0)
  {
    var q := n / h0;
    assert q * h0 == n;
    var lhs, rhs := (h - h0) * q - n * (1.0 - ratio), n * (h - h0) * (h - h0) / (h * h0);
    assert n * (1.0 - ratio) * h == n * (h - h0);
    assert lhs * h == (h - h0) * (q * h - n);
    assert (q * h - n) == q * (h - h0);
    assert lhs * h == q * ((h - h0) * (h - h0));
    assert lhs * (h * h0) == n * (h - h0) * (h - h0);
    Quotient(n * (h - h0) * (h - h0), h * h0, lhs);
  }

  /** The relief touches the metric scene at the screen and nowhere else, and never lies behind it: the
      difference is quadratic in h - h0. Here `d` is the metric depth of h, and `d0` of h0. */
  ghost predicate TangentAt(s: Screen, n: real, h: real, h0: real, d: real, d0: real) {
    && d0 != 0.0 && h * h0 != 0.0
    && RenderedAt(s, h) - SceneAt(n, d, d0) == n * (h - h0) * (h - h0) / (h * h0)
    && RenderedAt(s, h) >= SceneAt(n, d, d0)
    && (RenderedAt(s, h) == SceneAt(n, d, d0) <==> h == h0)
  }

  lemma ReliefIsTheTangent(s: Screen, n: real, scale: real, h0: real, h: real)
    requires n > 0.0 && scale > 0.0 && h0 > 0.0 && h > 0.0
    requires s.depthScale == n / h0 && s.convergenceDepth == (1.0 - h0) * s.depthScale
    ensures TangentAt(s, n, h, h0, scale / (255.0 * h), scale / (255.0 * h0))
  {
    DepthRatio(scale, h, h0);
    Tangent(n, h, h0, scale / (255.0 * h) / (scale / (255.0 * h0)));
    StrictProduct(h, h0);
    SquareOver(n, h - h0, h * h0);
    assert RenderedAt(s, h) == (h - h0) * (n / h0);
  }

  ghost predicate ShowsTheTangent(s: Screen, scale: Float, n: real, h0: real, h: real) {
    var d, d0 := DepthFromH(Metric, scale, Fin(h)), DepthFromH(Metric, scale, Fin(h0));
    d.Fin? && d0.Fin? && TangentAt(s, n, h, h0, d.v, d0.v)
  }

  lemma TangentScreen(s: Screen, scale: Float, n: real, h0: real, h: real)
    requires Usable(scale) && n > 0.0 && h0 > 0.0 && h > 0.0
    requires s.depthScale == n / h0 && s.convergenceDepth == (1.0 - h0) * s.depthScale
    ensures ShowsTheTangent(s, scale, n, h0, h)
  {
    ReliefIsTheTangent(s, n, scale.v, h0, h);
  }

  lemma UnlimitedScreen(cam: Camera, h0: real)
    requires InFront(cam) && WantedPlane(cam, h0)
    requires Unlimited(NearestZ(cam.eyes, cam.screen.nominalZ), h0, cam.screen.depthScale)
    ensures cam.zeroH == h0 && cam.screen.convergenceDepth == (1.0 - h0) * cam.screen.depthScale
  {
  }

  lemma PlainThickness(i: Input, zmin: real)
    requires Plain(i, zmin)
    ensures Thickness(i) == NominalZ(i) / WantedH(i) && Unlimited(zmin, WantedH(i), Thickness(i))
  {
  }

  lemma TangentCamera(cam: Camera, scale: Float, n: real, h0: real, h: real)
    requires InFront(cam) && WantedPlane(cam, h0) && Usable(scale) && n > 0.0 && h0 > 0.0 && h > 0.0
    requires cam.screen.depthScale == n / h0
    requires Unlimited(NearestZ(cam.eyes, cam.screen.nominalZ), h0, cam.screen.depthScale)
    ensures cam.zeroH == h0 && ShowsTheTangent(cam.screen, scale, n, h0, h)
  {
    UnlimitedScreen(cam, h0);
    TangentScreen(cam.screen, scale, n, h0, h);
  }

  /** So it is for every plain camera: the wanted plane is shown and the relief is the scene's tangent. */
  lemma MetricReliefIsTheTangent(i: Input, eyes: seq<Point>, cam: Camera, h: real)
    requires Build(i, eyes) == Some(cam) && Plain(i, NearestZ(cam.eyes, cam.screen.nominalZ)) && h > 0.0
    ensures cam.zeroH == WantedH(i) && ShowsTheTangent(cam.screen, i.inverseScale, NominalZ(i), WantedH(i), h)
  {
    EveryEyeIsInFront(i, eyes);
    PlainThickness(i, NearestZ(cam.eyes, cam.screen.nominalZ));
    TangentCamera(cam, i.inverseScale, NominalZ(i), WantedH(i), h);
  }

  lemma DepthRatio(s: real, h: real, h0: real)
    requires s > 0.0 && h > 0.0 && h0 > 0.0
    ensures s / (255.0 * h0) > 0.0 && s / (255.0 * h) / (s / (255.0 * h0)) * h == h0
  {
    var d, d0 := s / (255.0 * h), s / (255.0 * h0);
    assert d * (255.0 * h) == s && d0 * (255.0 * h0) == s;
    assert d * h == d0 * h0;
    assert d / d0 * d0 == d;
    assert d / d0 * h * d0 == d0 * h0;
    Quotient(d / d0 * h * d0, d0, h0);
    Quotient(d / d0 * h * d0, d0, d / d0 * h);
  }

  lemma SquareOver(n: real, e: real, p: real)
    requires n > 0.0 && p > 0.0
    ensures n * e * e / p >= 0.0
    ensures n * e * e / p == 0.0 <==> e == 0.0
  {
    var q := n * e * e / p;
    if e > 0.0 {
      StrictProduct(n, e);
      StrictProduct(n * e, e);
    } else if e < 0.0 {
      StrictProduct(n, -e);
      StrictProduct(n * (-e), -e);
    }
    assert q * p == n * e * e;
    Ordered(0.0, q, p);
    Ordered(q, 0.0, p);
  }

  // ---- The mapping's own loops ----------------------------------------------------------------

  method MapEyes(i: Input, eyes: seq<Point>, out: array<Point>) returns (n: nat)
    requires out.Length >= if |eyes| > 2 then |eyes| else 2
    modifies out
    ensures n == |Eyes(i, eyes)| && n <= out.Length && out[..n] == Eyes(i, eyes) && out[n..] == old(out[n..])
  {
    var nz := NominalZ(i);
    if eyes != [] {
      var gx, gy := GainX(i), GainY(i);
      var k := 0;
      while k < |eyes|
        invariant 0 <= k <= |eyes|
        invariant forall j :: 0 <= j < k ==> out[j] == MapEye(i, eyes[j])
        invariant out[|eyes|..] == old(out[|eyes|..])
      {
        var p := eyes[k];
        out[k] := Point(if p.x.Fin? then Times(gx, p.x) else ZERO,
                        if p.y.Fin? then Times(gy, p.y) else ZERO,
                        if Usable(p.z) then p.z else Fin(nz));
        k := k + 1;
      }
      n := |eyes|;
      assert out[..n] == Eyes(i, eyes);
    } else {
      var b := if Positive(i.baseline) then i.baseline else Fin(DEFAULT_BASELINE);
      out[0] := Point(Times(Fin(-0.5), b), ZERO, Fin(nz));
      out[1] := Point(Times(Fin(0.5), b), ZERO, Fin(nz));
      n := 2;
      assert out[..n] == Eyes(i, eyes);
    }
  }

  method FindNearest(out: array<Point>, n: nat, nz: real) returns (zmin: real)
    requires n <= out.Length
    ensures zmin == NearestZ(out[..n], nz)
  {
    zmin := nz;
    var k := 0;
    while k < n
      invariant 0 <= k <= n && zmin == NearestZ(out[..k], nz)
    {
      assert out[..k + 1][..k] == out[..k];
      if Less(out[k].z, Fin(zmin)) && out[k].z.Fin? { zmin := out[k].z.v; }
      k := k + 1;
    }
  }

  /** D, as the code arrives at it. */
  method ReliefThickness(i: Input) returns (r: real)
    ensures r == Thickness(i)
  {
    var strength := if i.strength == ZERO || Positive(i.strength) then i.strength else Fin(1.0);
    var h0 := WantedH(i);
    var d: Float;
    if i.metric && Positive(i.inverseScale) {
      var cap := if Less(Fin(MIN_RELIEF), i.metricReliefMax) then i.metricReliefMax else Fin(MIN_RELIEF);
      d := if h0 > 0.0 then Fin(NominalZ(i) / h0) else cap;
      d := Times(d, strength);
      if !Less(d, cap) { d := cap; }
    } else {
      d := Times(i.relief, strength);
    }
    if !Less(Fin(MIN_RELIEF), d) || !d.Fin? { d := Fin(MIN_RELIEF); }
    r := d.v;
  }

  method Place(w: Float, h: Float, out: array<Point>, n: nat, nz: real, h0: real, d: real)
    returns (screen: Screen, zeroH: real)
    requires n <= out.Length && d > 0.0
    ensures Camera(screen, out[..n], zeroH) == CameraFor(w, h, out[..n], nz, h0, d)
  {
    var zmin := FindNearest(out, n, nz);
    var n0 := Clamp(Fin(1.0 - h0), 0.0, 1.0);
    var c := n0 * d;
    if c > POPOUT_LIMIT * zmin { c := POPOUT_LIMIT * zmin; }
    screen := Screen(w, h, d, c, nz);
    zeroH := 1.0 - c / d;
  }

  /** leia_lift_oa_build: nothing is written for an unusable rectangle. */
  method OaBuild(i: Input, eyes: seq<Point>, out: array<Point>) returns (screen: Option<Screen>, n: nat, zeroH: real)
    requires out.Length >= if |eyes| > 2 then |eyes| else 2
    modifies out
    ensures screen.Some? == Build(i, eyes).Some? && (screen.None? ==> out[..] == old(out[..]))
    ensures screen.Some? ==>
              n <= out.Length && Build(i, eyes).value == Camera(screen.value, out[..n], zeroH)
              && out[n..] == old(out[n..])
  {
    if !Usable(i.width) || !Usable(i.height) { return None, 0, 0.0; }
    n := MapEyes(i, eyes, out);
    var d := ReliefThickness(i);
    var s, z := Place(i.width, i.height, out, n, NominalZ(i), WantedH(i), d);
    return Some(s), n, z;
  }
}
