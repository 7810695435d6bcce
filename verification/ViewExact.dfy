/**
 What a viewpoint maps to, axis by axis, in the policy, the gains and the eye alone.
 */
module ViewExact {
  import opened Common
  import opened Floats
  import opened Viewpoint

  /** `r` is `n` in these units, held between `-limit` and `limit`. */
  ghost predicate Held(n: real, unit: real, limit: real, r: real) {
    && (-(limit * unit) <= n <= limit * unit ==> r * unit == n)
    && (n < -(limit * unit) ==> r == -limit)
    && (n > limit * unit ==> r == limit)
  }

  /** An axis under this gain: a finite value in units of 63 mm, held within the limit; an infinite one at
      the limit on its side; NaN, and the infinities under no gain, at 0. */
  ghost predicate Mapped(gain: real, v: Float, limit: real, r: real) {
    match v
    case Fin(x) => Held(gain * x, 0.063, limit, r)
    case NaN => r == 0.0
    case PosInf => r == if gain > 0.0 then limit else if gain < 0.0 then -limit else 0.0
    case NegInf => r == if gain > 0.0 then -limit else if gain < 0.0 then limit else 0.0
  }

  /** The reference distance. */
  ghost predicate RefOf(p: Policy, ref: real) { ref == if p.refZ > 0.0 then p.refZ else 0.5 }

  /** The lateral limit: the runtime's clamp of the midpoint and half the pair, in the same units, scaled by
      the gain; 3 when the runtime clamps nothing. */
  ghost predicate LimitOf(p: Policy, view: real, limit: real) {
    if p.maxOffset > 0.0 then
      var half := 0.5 * (if p.baseline > 0.0 then p.baseline else 0.063);
      limit * 0.063 == (if view < 0.0 then -view else view) * (p.maxOffset + half)
    else limit == 3.0
  }

  /** The fractional change of the distance, scaled, held within 1. */
  ghost predicate DepthMapped(gain: real, z: Float, ref: real, r: real) {
    match z
    case Fin(x) => Held(gain * (x - ref), ref, 1.0, r)
    case NaN => r == 0.0
    case PosInf => r == if gain > 0.0 then 1.0 else if gain < 0.0 then -1.0 else 0.0
    case NegInf => r == if gain > 0.0 then -1.0 else if gain < 0.0 then 1.0 else 0.0
  }

  lemma UnitsAre(m: real)
    ensures InUnits(m) * 0.063 == m
  {
  }

  lemma ScaledIsHeld(n: real, limit: real)
    requires limit >= 0.0
    ensures Held(n, 0.063, limit, Clamped(InUnits(n), limit))
  {
    UnitsAre(n);
  }

  lemma LateralIs(gain: real, v: Float, limit: real)
    requires limit >= 0.0
    ensures Mapped(gain, v, limit, Lateral(gain, v, limit))
  {
    if v.Fin? { ScaledIsHeld(gain * v.v, limit); }
  }

  lemma LimitIs(p: Policy, g: Gains, limit: real)
    requires LimitOf(p, g.view, limit)
    ensures Limit(p, g) == limit
  {
    if p.maxOffset > 0.0 { UnitsAre(Abs(g.view) * Margin(p)); }
  }

  lemma FractionIsHeld(n: real, ref: real)
    requires ref > 0.0
    ensures Held(n, ref, 1.0, Clamped(n / ref, 1.0))
  {
    var u := n / ref;
    assert u * ref == n;
    Ordered(u, 1.0, ref);
    Ordered(1.0, u, ref);
    Ordered(u, -1.0, ref);
    Ordered(-1.0, u, ref);
  }

  /** Without a policy: x alone, under the view gain, within 3. */
  lemma LegacyIs(p: Option<Policy>, gains: Option<Gains>, e: Eye)
    requires p.None? || !p.value.active
    ensures var v := Map(p, gains, e);
      Mapped(if gains.Some? then gains.value.view else 1.0, e.x, 3.0, v.x) && v.y == 0.0 && v.z == 0.0
  {
    LateralIs(GainsOf(gains).view, e.x, CLAMP);
  }

  /** The vertical axis is let through. */
  predicate Vertical(p: Policy) { p.axis == AxisXY || p.axis == AxisXYZ }

  lemma MapWithinX(p: Policy, g: Gains, e: Eye, limit: real, limitY: real)
    ensures MapWithin(p, g, e, limit, limitY).x == Lateral(g.view, e.x, limit)
  {
  }

  lemma MapWithinY(p: Policy, g: Gains, e: Eye, limit: real, limitY: real)
    ensures MapWithin(p, g, e, limit, limitY).y == if Vertical(p) then Lateral(g.y * g.view, e.y, limitY) else 0.0
  {
  }

  lemma HeightLimitIs(gy: real, l: real, limit: real, limitY: real)
    requires l == limit && limitY == (if gy < 0.0 then -gy else gy) * limit
    ensures Abs(gy) * l == limitY
  {
  }

  lemma LimitsAre(p: Policy, g: Gains, limit: real, limitY: real)
    requires LimitOf(p, g.view, limit) && limitY == (if g.y < 0.0 then -g.y else g.y) * limit
    ensures limit >= 0.0 && limitY >= 0.0 && Limit(p, g) == limit && Abs(g.y) * Limit(p, g) == limitY
  {
    LimitIs(p, g, limit);
    HeightLimitIs(g.y, Limit(p, g), limit, limitY);
    LimitIsNotNegative(p, g);
  }

  lemma PolicyWithin(p: Policy, g: Gains, e: Eye, l: real, ly: real)
    requires l == Limit(p, g) && ly == Abs(g.y) * Limit(p, g)
    ensures MapPolicy(p, g, e) == MapWithin(p, g, e, l, ly)
  {
    PolicyMapsWithin(p, g, e);
  }

  /** Under a policy x goes under the view gain. */
  lemma PolicyIs(p: Policy, g: Gains, e: Eye, limit: real, limitY: real, v: View)
    requires p.active && LimitOf(p, g.view, limit) && limitY == (if g.y < 0.0 then -g.y else g.y) * limit
    requires v == Map(Some(p), Some(g), e)
    ensures Mapped(g.view, e.x, limit, v.x)
  {
    LimitsAre(p, g, limit, limitY);
    PolicyWithin(p, g, e, limit, limitY);
    MapWithinX(p, g, e, limit, limitY);
    LateralIs(g.view, e.x, limit);
  }

  /** y goes under both gains, within the limit scaled likewise, when the axis mode lets it through. */
  lemma PolicyHeightIs(p: Policy, g: Gains, e: Eye, limit: real, limitY: real, v: View)
    requires p.active && LimitOf(p, g.view, limit) && limitY == (if g.y < 0.0 then -g.y else g.y) * limit
    requires v == Map(Some(p), Some(g), e)
    ensures if Vertical(p) then Mapped(g.y * g.view, e.y, limitY, v.y) else v.y == 0.0
  {
    LimitsAre(p, g, limit, limitY);
    PolicyWithin(p, g, e, limit, limitY);
    MapWithinY(p, g, e, limit, limitY);
    LateralIs(g.y * g.view, e.y, limitY);
  }

  /** The depth offset of an eye. */
  function DepthOf(p: Policy, g: Gains, z: Float): real {
    if !p.axis.AxisXYZ? then 0.0 else if z.Fin? then Depth(g.z, z.v, RefZ(p)) else Extreme(z, g.z, Z_CLAMP)
  }

  lemma MapWithinZ(p: Policy, g: Gains, e: Eye, limit: real, limitY: real)
    ensures MapWithin(p, g, e, limit, limitY).z == DepthOf(p, g, e.z)
  {
  }

  lemma FiniteDepthIs(gain: real, z: real, ref: real)
    requires ref > 0.0
    ensures DepthMapped(gain, Fin(z), ref, Depth(gain, z, ref))
  {
    FractionIsHeld(gain * (z - ref), ref);
  }

  lemma ExtremeIs(gain: real, z: Float, ref: real)
    requires !z.Fin?
    ensures DepthMapped(gain, z, ref, Extreme(z, gain, 1.0))
  {
  }

  lemma DepthIs(p: Policy, g: Gains, z: Float, ref: real)
    requires RefOf(p, ref)
    ensures if p.axis == AxisXYZ then DepthMapped(g.z, z, ref, DepthOf(p, g, z)) else DepthOf(p, g, z) == 0.0
  {
    assert RefZ(p) == ref;
    if z.Fin? { FiniteDepthIs(g.z, z.v, ref); } else { ExtremeIs(g.z, z, ref); }
  }

  /** And z, the change of distance under its gain, when that lets it through. */
  lemma PolicyDepthIs(p: Policy, g: Gains, e: Eye, ref: real, v: View)
    requires p.active && RefOf(p, ref) && v == Map(Some(p), Some(g), e)
    ensures if p.axis == AxisXYZ then DepthMapped(g.z, e.z, ref, v.z) else v.z == 0.0
  {
    PolicyMapsWithin(p, g, e);
    MapWithinZ(p, g, e, Limit(p, g), Abs(g.y) * Limit(p, g));
    DepthIs(p, g, e.z, ref);
  }

  /** Gains not given are 1, 1 and a half. */
  lemma DefaultGainsAre(p: Option<Policy>, e: Eye)
    ensures Map(p, None, e) == Map(p, Some(Gains(1.0, 1.0, 0.5)), e)
  {
  }
}
