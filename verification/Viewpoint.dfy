/**
 Viewpoints of a lifted image in metres, mapped to the renderer's units: one unit is the nominal eye
 baseline, and each axis is clamped.
 */
module Viewpoint {
  import opened Common
  import opened Floats

  const REF_BASELINE := 0.063
  const CLAMP := 3.0
  const Z_CLAMP := 1.0
  const DEFAULT_REF_Z := 0.5

  datatype Axis = AxisX | AxisXY | AxisXYZ | OtherAxis

  datatype Policy = Policy(active: bool, baseline: real, axis: Axis, maxOffset: real, refZ: real)

  datatype Gains = Gains(view: real, y: real, z: real)

  const NO_GAINS := Gains(1.0, 1.0, 0.5)

  datatype Eye = Eye(x: Float, y: Float, z: Float)
  datatype View = View(x: real, y: real, z: real)

  function Abs(a: real): real { if a < 0.0 then -a else a }

  function Clamped(v: real, limit: real): real { if v < -limit then -limit else if v > limit then limit else v }

  /** What the clamp leaves of a scaled input that is not finite: NaN, as infinity times 0 is, is centred. */
  function Extreme(v: Float, gain: real, limit: real): real {
    if v.NaN? || gain == 0.0 then 0.0 else if v.PosInf? == (gain > 0.0) then limit else -limit
  }

  /** Metres in nominal baselines, the renderer's unit. */
  function InUnits(m: real): real { m / 0.063 }

  function Baseline(p: Policy): (r: real)
    ensures r > 0.0
  {
    if p.baseline > 0.0 then p.baseline else REF_BASELINE
  }

  function RefZ(p: Policy): (r: real)
    ensures r > 0.0
  {
    if p.refZ > 0.0 then p.refZ else DEFAULT_REF_Z
  }

  function Margin(p: Policy): (r: real)
    ensures p.maxOffset > 0.0 ==> r > p.maxOffset
  {
    p.maxOffset + 0.5 * Baseline(p)
  }

  function Limit(p: Policy, g: Gains): real {
    if p.maxOffset > 0.0 then InUnits(Abs(g.view) * Margin(p)) else CLAMP
  }

  /** One horizontal or vertical axis of a finite viewpoint. */
  function Axis1(gain: real, x: real, limit: real): real { Clamped(InUnits(gain * x), limit) }

  function Lateral(gain: real, x: Float, limit: real): real {
    if x.Fin? then Axis1(gain, x.v, limit) else Extreme(x, gain, limit)
  }

  function Depth(gain: real, z: real, ref: real): real
    requires ref > 0.0
  {
    Clamped(gain * (z - ref) / ref, Z_CLAMP)
  }

  function MapWithin(p: Policy, g: Gains, e: Eye, limit: real, limitY: real): View {
    View(Lateral(g.view, e.x, limit),
         if p.axis.AxisX? || p.axis.OtherAxis? then 0.0 else Lateral(g.y * g.view, e.y, limitY),
         if !p.axis.AxisXYZ? then 0.0
         else if e.z.Fin? then Depth(g.z, e.z.v, RefZ(p)) else Extreme(e.z, g.z, Z_CLAMP))
  }

  function MapPolicy(p: Policy, g: Gains, e: Eye): View {
    MapWithin(p, g, e, Limit(p, g), Abs(g.y) * Limit(p, g))
  }

  function MapLegacy(g: Gains, e: Eye): View { View(Lateral(g.view, e.x, CLAMP), 0.0, 0.0) }

  function GainsOf(gains: Option<Gains>): Gains { if gains.Some? then gains.value else NO_GAINS }

  function Map(p: Option<Policy>, gains: Option<Gains>, e: Eye): View {
    if p.None? || !p.value.active then MapLegacy(GainsOf(gains), e) else MapPolicy(p.value, GainsOf(gains), e)
  }

  // ---- Bounds ---------------------------------------------------------------------------------

  lemma LimitIsNotNegative(p: Policy, g: Gains)
    ensures Limit(p, g) >= 0.0 && Abs(g.y) * Limit(p, g) >= 0.0
  {
    if p.maxOffset > 0.0 { Product(Abs(g.view), Margin(p)); }
    Product(Abs(g.y), Limit(p, g));
  }

  predicate Within(v: View, x: real, y: real, z: real) { Abs(v.x) <= x && Abs(v.y) <= y && Abs(v.z) <= z }

  predicate WithinPolicy(v: View, p: Policy, limit: real, limitY: real) {
    Within(v, limit, if p.axis.AxisXY? || p.axis.AxisXYZ? then limitY else 0.0,
           if p.axis.AxisXYZ? then Z_CLAMP else 0.0)
  }

  /** The views a policy with these limits allows. */
  ghost function Allowed(p: Policy, limit: real, limitY: real): iset<View> {
    iset v | WithinPolicy(v, p, limit, limitY)
  }

  lemma PolicyMapsWithin(p: Policy, g: Gains, e: Eye)
    ensures MapPolicy(p, g, e) == MapWithin(p, g, e, Limit(p, g), Abs(g.y) * Limit(p, g))
  {
  }

  lemma PolicyIsAllowed(p: Policy, g: Gains, e: Eye, v: View)
    requires v == MapPolicy(p, g, e)
    ensures v in Allowed(p, Limit(p, g), Abs(g.y) * Limit(p, g))
  {
    LimitIsNotNegative(p, g);
    PolicyMapsWithin(p, g, e);
  }

  lemma LegacyViewIsBounded(g: Gains, e: Eye)
    ensures Within(MapLegacy(g, e), CLAMP, 0.0, 0.0)
  {
  }

  ghost function AllowedBy(p: Option<Policy>, g: Gains): iset<View> {
    if p.None? || !p.value.active then iset v | Within(v, CLAMP, 0.0, 0.0)
    else Allowed(p.value, Limit(p.value, g), Abs(g.y) * Limit(p.value, g))
  }

  lemma ActiveIsAllowed(p: Option<Policy>, g: Gains, e: Eye, v: View)
    requires p.Some? && p.value.active && v == MapPolicy(p.value, g, e)
    ensures v in AllowedBy(p, g)
  {
    PolicyIsAllowed(p.value, g, e, v);
  }

  /** Whatever comes in, NaN and infinities included, every axis stays within the limit the policy and
      the gains give it, or the default one, and an axis the runtime masked is exactly 0. */
  lemma MapIsBounded(p: Option<Policy>, gains: Option<Gains>, e: Eye)
    ensures Map(p, gains, e) in AllowedBy(p, GainsOf(gains))
  {
    if p.Some? && p.value.active { ActiveIsAllowed(p, GainsOf(gains), e, Map(p, gains, e)); }
  }

  // ---- The pair keeps its separation ----------------------------------------------------------

  /** An eye is clamped exactly when it stands further out than the runtime's limit for the midpoint and
      half the pair's separation together. */
  lemma ClampedIff(gain: real, x: real, margin: real)
    requires margin >= 0.0 && gain != 0.0
    ensures Axis1(gain, x, InUnits(Abs(gain) * margin)) == InUnits(gain * x) <==> Abs(x) <= margin
  {
    Product(Abs(gain), margin);
  }

  lemma EyeSurvives(gain: real, x: real, margin: real)
    requires margin >= 0.0 && Abs(x) <= margin
    ensures Axis1(gain, x, InUnits(Abs(gain) * margin)) == InUnits(gain * x)
  {
    if gain != 0.0 { ClampedIff(gain, x, margin); }
  }

  /** Both views are the eyes scaled, so the pair is as far apart as its eyes are, scaled. */
  predicate PairKept(l: real, r: real, gain: real, x1: real, x2: real) {
    l == InUnits(gain * x1) && r == InUnits(gain * x2) && r - l == InUnits(gain * (x2 - x1))
  }

  lemma PairIsKept(gain: real, x1: real, x2: real, margin: real, limit: real)
    requires margin >= 0.0 && Abs(x1) <= margin && Abs(x2) <= margin && limit == InUnits(Abs(gain) * margin)
    ensures PairKept(Axis1(gain, x1, limit), Axis1(gain, x2, limit), gain, x1, x2)
  {
    EyeSurvives(gain, x1, margin);
    EyeSurvives(gain, x2, margin);
  }

  /** The runtime clamps the pair's midpoint, so the eyes of a pair whose midpoint it let through, apart
      by the baseline it reports, are not clamped here, and the pair keeps its separation, scaled. */
  lemma PairSurvives(p: Policy, g: Gains, x1: real, x2: real)
    requires p.maxOffset > 0.0 && Abs(0.5 * (x1 + x2)) <= p.maxOffset && x2 - x1 == Baseline(p)
    ensures PairKept(Axis1(g.view, x1, Limit(p, g)), Axis1(g.view, x2, Limit(p, g)), g.view, x1, x2)
  {
    PairIsKept(g.view, x1, x2, Margin(p), Limit(p, g));
  }

  // ---- Order and symmetry ---------------------------------------------------------------------

  /** With a gain that is not negative, eyes keep their order and come no further apart than the gain
      says; the mirror image of an eye maps to the mirror image. */
  lemma OrderAndMirror(gain: real, x1: real, x2: real, limit: real)
    requires gain >= 0.0 && x1 <= x2 && limit >= 0.0
    ensures 0.0 <= Axis1(gain, x2, limit) - Axis1(gain, x1, limit) <= InUnits(gain * (x2 - x1))
    ensures Axis1(gain, -x1, limit) == -Axis1(gain, x1, limit)
  {
    Product(gain, x2 - x1);
  }

  /** An eye at the reference distance, where a pinned axis arrives, has no depth offset; elsewhere, and
      with some depth gain, it has one. */
  lemma OnlyTheReferenceIsNeutral(gain: real, z: real, ref: real)
    requires gain != 0.0 && ref > 0.0
    ensures Depth(gain, z, ref) == 0.0 <==> z == ref
  {
    var q := gain * (z - ref) / ref;
    assert q * ref == gain * (z - ref);
  }
}
