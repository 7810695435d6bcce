/**
 The background preview's geometry: the window rectangle clamped to the captured monitor with the
 fraction of the window that survives, and how far the crop is reduced. UVs are reals.
 */
module PreviewGeometry {
  import opened Common

  const MAX_DIM := 512
  const MIN_SHIFT := 2
  const MAX_SHIFT := 12
  const MIN_SRC := 8

  datatype Rect = Rect(x: int, y: int, w: int, h: int)

  datatype Canvas = Canvas(u0: real, v0: real, u1: real, v1: real)

  const WHOLE := Canvas(0.0, 0.0, 1.0, 1.0)

  datatype Crop = Crop(rect: Rect, canvas: Canvas)

  /** One axis of the clamp: where the window's span starts on the monitor, and what is left of it. */
  function Start(at: int): int { if at < 0 then 0 else at }

  function Left(at: int, size: int, limit: int): int {
    var from := if at < 0 then size + at else size;
    if Start(at) + from > limit then limit - Start(at) else from
  }

  /** The surviving part of a window and the fraction of it that is, or None when nothing survives. */
  function Clamp(win: Rect, monW: int, monH: int): Option<Crop> {
    if win.w <= 0 || win.h <= 0 || monW <= 0 || monH <= 0 then None else
    var r := Rect(Start(win.x), Start(win.y), Left(win.x, win.w, monW), Left(win.y, win.h, monH));
    if r.w <= 0 || r.h <= 0 then None else
    var u0, v0 := (r.x - win.x) as real / win.w as real, (r.y - win.y) as real / win.h as real;
    Some(Crop(r, Canvas(u0, v0, u0 + r.w as real / win.w as real, v0 + r.h as real / win.h as real)))
  }

  predicate Inside(r: Rect, x: int, y: int) {
    r.x <= x < r.x + r.w && r.y <= y < r.y + r.h
  }

  /** The clamp is the exact intersection of window and monitor, and fails exactly when it is empty. */
  lemma ClampIsIntersection(win: Rect, monW: int, monH: int)
    ensures Clamp(win, monW, monH).None?
            <==> forall x, y :: !(Inside(win, x, y) && Inside(Rect(0, 0, monW, monH), x, y))
    ensures Clamp(win, monW, monH).Some? ==>
              forall x, y :: Inside(Clamp(win, monW, monH).value.rect, x, y)
                             <==> Inside(win, x, y) && Inside(Rect(0, 0, monW, monH), x, y)
  {
    var c := Clamp(win, monW, monH);
    if c.Some? {
      var r := c.value.rect;
      assert Inside(win, r.x, r.y) && Inside(Rect(0, 0, monW, monH), r.x, r.y);
    }
  }

  /** One axis: the fraction is a proper sub-interval of 0..1, and the identity exactly when on-monitor. */
  lemma AxisFraction(at: int, size: int, limit: int)
    requires size > 0 && limit > 0 && Left(at, size, limit) > 0
    ensures var lo := (Start(at) - at) as real / size as real;
            var hi := lo + Left(at, size, limit) as real / size as real;
            0.0 <= lo < hi <= 1.0 && (lo == 0.0 && hi == 1.0 <==> 0 <= at && at + size <= limit)
  {
    var a, n := Start(at) - at, Left(at, size, limit);
  }

  /** The published canvas rectangle: inside the window, never empty, whole exactly when on-monitor. */
  lemma CanvasIsProper(win: Rect, monW: int, monH: int)
    requires Clamp(win, monW, monH).Some?
    ensures var c := Clamp(win, monW, monH).value.canvas;
            && 0.0 <= c.u0 < c.u1 <= 1.0 && 0.0 <= c.v0 < c.v1 <= 1.0
            && (c == WHOLE <==> 0 <= win.x && win.x + win.w <= monW && 0 <= win.y && win.y + win.h <= monH)
  {
    AxisFraction(win.x, win.w, monW);
    AxisFraction(win.y, win.h, monH);
  }

  /** One axis of the runtime's mapping of a window fraction into the crop, in monitor pixels. */
  function IntoCrop(u: real, lo: real, hi: real, start: int, size: int): real
    requires hi != lo
  {
    start as real + (u - lo) / (hi - lo) * size as real
  }

  lemma AxisMaps(at: int, size: int, limit: int, u: real)
    requires size > 0 && limit > 0 && Left(at, size, limit) > 0
    ensures var lo := (Start(at) - at) as real / size as real;
            var n := Left(at, size, limit);
            var hi := lo + n as real / size as real;
            hi != lo && IntoCrop(u, lo, hi, Start(at), n) == at as real + u * size as real
  {
    var s, n := size as real, Left(at, size, limit) as real;
    var lo, k := (Start(at) - at) as real / s, n / s;
    assert k * s == n && lo * s == (Start(at) - at) as real;
  }

  /** Any window fraction mapped through the canvas rectangle into the crop lands on the monitor pixel
      it denotes in the unclamped window. */
  lemma CropMapsLikeTheWindow(win: Rect, monW: int, monH: int, u: real, v: real)
    requires Clamp(win, monW, monH).Some?
    ensures var Crop(r, c) := Clamp(win, monW, monH).value;
            && c.u0 != c.u1 && c.v0 != c.v1
            && IntoCrop(u, c.u0, c.u1, r.x, r.w) == win.x as real + u * win.w as real
            && IntoCrop(v, c.v0, c.v1, r.y, r.h) == win.y as real + v * win.h as real
  {
    AxisMaps(win.x, win.w, monW, u);
    AxisMaps(win.y, win.h, monH, v);
  }

  /** leia_bg_preview_canvas_uv, adjusting its locals branch by branch. */
  method CanvasUv(win: Rect, monW: int, monH: int) returns (r: Option<Crop>)
    ensures r == Clamp(win, monW, monH)
  {
    if win.w <= 0 || win.h <= 0 || monW <= 0 || monH <= 0 { return None; }
    var rx, ry, rw, rh := win.x, win.y, win.w, win.h;
    if rx < 0 {
      rw := rw + rx;
      rx := 0;
    }
    if ry < 0 {
      rh := rh + ry;
      ry := 0;
    }
    if rx + rw > monW { rw := monW - rx; }
    if ry + rh > monH { rh := monH - ry; }
    if rw <= 0 || rh <= 0 { return None; }
    var u0, v0 := (rx - win.x) as real / win.w as real, (ry - win.y) as real / win.h as real;
    return Some(Crop(Rect(rx, ry, rw, rh),
                     Canvas(u0, v0, u0 + rw as real / win.w as real, v0 + rh as real / win.h as real)));
  }

  // ---- The reduction --------------------------------------------------------------------------

  function Pow2(n: nat): (r: nat)
    ensures r > 0
  {
    if n == 0 then 1 else 2 * Pow2(n - 1)
  }

  /** `x >> n`: halved, rounding down, n times. */
  function Shr(x: nat, n: nat): nat {
    if n == 0 then x else Shr(x / 2, n - 1)
  }

  predicate Fits(w: nat, h: nat, shift: nat) {
    Shr(w, shift) <= MAX_DIM && Shr(h, shift) <= MAX_DIM
  }

  /** The least reduction from the minimum on that fits both sides, or the cap. */
  function ShiftFrom(w: nat, h: nat, shift: nat): nat
    requires shift <= MAX_SHIFT
    decreases MAX_SHIFT - shift
  {
    if shift == MAX_SHIFT || Fits(w, h, shift) then shift else ShiftFrom(w, h, shift + 1)
  }

  function ShiftFor(w: nat, h: nat): nat { ShiftFrom(w, h, MIN_SHIFT) }

  lemma Double(a: int, b: int)
    ensures a * (2 * b) == 2 * (a * b)
  {
  }

  /** The shift is the division by the power of two it stands for. */
  lemma {:induction false} ShrDivides(x: nat, n: nat)
    ensures Shr(x, n) * Pow2(n) <= x < Shr(x, n) * Pow2(n) + Pow2(n)
  {
    if n > 0 {
      ShrDivides(x / 2, n - 1);
      Double(Shr(x, n), Pow2(n - 1));
    }
  }

  lemma {:induction false} ShrBound(x: nat, n: nat, bound: nat)
    requires x <= bound * Pow2(n)
    ensures Shr(x, n) <= bound
  {
    if n > 0 {
      Double(bound, Pow2(n - 1));
      ShrBound(x / 2, n - 1, bound);
    }
  }

  lemma FiveIsEnough(w: nat, h: nat)
    requires w <= 16384 && h <= 16384
    ensures Fits(w, h, 5)
  {
    assert Pow2(3) == 8;
    ShrBound(w, 5, 512);
    ShrBound(h, 5, 512);
  }

  /** A mip level exists when the texture's longer side is at least two to its power. */
  predicate ValidMip(w: nat, h: nat, level: nat) {
    Pow2(level) <= w || Pow2(level) <= h
  }

  lemma {:induction false} TooBigIsDeep(x: nat, n: nat)
    requires Shr(x, n) > MAX_DIM
    ensures Pow2(n + 1) <= x
  {
    ShrDivides(x, n);
  }

  /** For crops of every accepted size the shift is the least that fits both sides, and a mip level
      the crop really has. */
  lemma ShiftIsLeastAndValid(w: nat, h: nat)
    requires MIN_SRC <= w <= 16384 && MIN_SRC <= h <= 16384
    ensures var s := ShiftFor(w, h);
            2 <= s <= 5 && Fits(w, h, s) && ValidMip(w, h, s) && forall k :: 2 <= k < s ==> !Fits(w, h, k)
  {
    FiveIsEnough(w, h);
    var s := ShiftFor(w, h);
    if s == MIN_SHIFT {
      assert Pow2(2) == 4;
    } else {
      assert !Fits(w, h, s - 1);
      if Shr(w, s - 1) > MAX_DIM { TooBigIsDeep(w, s - 1); } else { TooBigIsDeep(h, s - 1); }
    }
  }

  /** preview_shift_for. */
  method PreviewShiftFor(w: nat, h: nat) returns (shift: nat)
    ensures shift == ShiftFor(w, h)
  {
    shift := MIN_SHIFT;
    while shift < MAX_SHIFT && (Shr(w, shift) > MAX_DIM || Shr(h, shift) > MAX_DIM)
      invariant MIN_SHIFT <= shift <= MAX_SHIFT
      invariant ShiftFrom(w, h, shift) == ShiftFor(w, h)
    {
      shift := shift + 1;
    }
  }
}
