/**
 The D3D11 post-weave alpha gate. The full gate copies the woven target and rewrites every canvas
 pixel; the mask-only gate reads the atlas alone and lets the output-merger blend in place. Colours
 and coordinates are reals, texel reads are exact.
 */
module AlphaGate {
  import Floats

  datatype Color = Color(r: real, g: real, b: real, a: real)

  const CLEAR := Color(0.0, 0.0, 0.0, 0.0)

  /** The atlas: the integer texel read and the filtered read of its alpha. */
  datatype Atlas = Atlas(width: nat, height: nat, load: (int, int) -> real, filtered: (real, real) -> real)

  datatype Rect = Rect(x: int, y: int, w: nat, h: nat)

  /** What the weaver did with the 2D over-layer: none, composited, composited with its coverage. */
  datatype Overlay = NoOverlay | Estimated | Coverage

  /** One frame's gate inputs. `canvas` is None when there is no sub-rect. */
  datatype Scene = Scene(
    atlas: Atlas, tilesX: nat, tilesY: nat, canvas: Rect, targetW: nat, targetH: nat,
    hasBackdrop: bool, flatten: bool, overlay: Overlay,
    backdrop: (real, real) -> Color, desktop: (real, real) -> Color, overlayAlpha: (real, real) -> real)

  // ---- Where a pixel reads --------------------------------------------------------------------

  /** The gate's viewport: the canvas sub-rect, or the whole target without one. */
  function Viewport(s: Scene, width: nat, height: nat): Rect {
    if s.canvas.w > 0 && s.canvas.h > 0 && s.targetW > 0 && s.targetH > 0 then s.canvas
    else Rect(0, 0, width, height)
  }

  predicate InRect(r: Rect, x: int, y: int) {
    r.x <= x < r.x + r.w && r.y <= y < r.y + r.h
  }

  /** The interpolated 0..1 coordinate of a pixel centre across one side of the viewport. */
  function Across(pixel: int, origin: int, size: nat): real
    requires size > 0
  {
    (pixel as real + 0.5 - origin as real) / size as real
  }

  /** The canvas coordinate carried into the window: origin and extent as fractions of the target. */
  function IntoWindow(u: real, origin: int, size: nat, target: nat): real
    requires target > 0
  {
    origin as real / target as real + u * (size as real / target as real)
  }

  /** Reading the copy at the mapped coordinate reads the very pixel being written. */
  lemma ReadsItsOwnPixel(pixel: int, origin: int, size: nat, target: nat)
    requires size > 0 && target > 0
    ensures (IntoWindow(Across(pixel, origin, size), origin, size, target) * target as real).Floor == pixel
  {
    var p, o, n, t := pixel as real + 0.5, origin as real, size as real, target as real;
    calc {
      (o / t + (p - o) / n * (n / t)) * t;
      o / t * t + (p - o) / n * (n / t) * t;
      o + (p - o) / n * (n / t * t);
      o + (p - o) / n * n;
      p;
    }
  }

  // ---- "Transparent in every view" ------------------------------------------------------------

  predicate Near(a: real, b: real) { -0.5 < a - b < 0.5 }

  function Trunc(x: real): int {
    if x >= 0.0 then x.Floor else -((-x).Floor)
  }

  /** The texel, along one side, at fraction `u` of a canvas as large as the tile. */
  function TileTexel(tile: nat, tileSize: real, u: real, size: nat): int {
    Trunc(tile as real * tileSize + u * size as real)
  }

  /** The alpha one view shows at canvas coordinate (u, v): an exact texel when tiles are 1:1. */
  function TileAlpha(s: Scene, vp: Rect, u: real, v: real, tx: nat, ty: nat): real
    requires tx < s.tilesX && ty < s.tilesY
  {
    var pw, ph := s.atlas.width as real / s.tilesX as real, s.atlas.height as real / s.tilesY as real;
    if Near(pw, vp.w as real) && Near(ph, vp.h as real) then
      s.atlas.load(TileTexel(tx, pw, u, vp.w), TileTexel(ty, ph, v, vp.h))
    else
      s.atlas.filtered((tx as real + u) / s.tilesX as real, (ty as real + v) / s.tilesY as real)
  }

  predicate AllTransparent(s: Scene, vp: Rect, u: real, v: real) {
    forall ty: nat, tx: nat :: ty < s.tilesY && tx < s.tilesX ==> TileAlpha(s, vp, u, v, tx, ty) <= 0.0
  }

  // ---- The two shaders and the blend states ---------------------------------------------------

  function Max(a: real, b: real): real { if a >= b then a else b }

  function Saturate(x: real): real { if x < 0.0 then 0.0 else if x > 1.0 then 1.0 else x }

  /** One channel of premultiplied src-over: a colour `c` of alpha `ca` over `under`. */
  function Blend(c: real, ca: real, under: real): real { c + (1.0 - ca) * under }

  /** What the gate emits under a transparent pixel before any over-layer. */
  function Under(s: Scene, bd: Color, desk: Color): Color {
    if s.hasBackdrop then
      if s.flatten then
        Color(Blend(bd.r, bd.a, desk.r), Blend(bd.g, bd.a, desk.g), Blend(bd.b, bd.a, desk.b), 1.0)
      else bd
    else if s.flatten then desk.(a := 1.0)
    else CLEAR
  }

  /** The alpha the gate gives the over-layer the weaver composited. */
  function LayerAlpha(s: Scene, woven: Color, layer: real): (a: real)
    ensures 0.0 <= a <= 1.0
  {
    if s.overlay.Coverage? then Saturate(woven.a)
    else Saturate(Max(layer, Max(woven.r, Max(woven.g, woven.b))))
  }

  /** The woven over-layer, at coverage `a`, over what is under it. */
  function Lay(woven: Color, a: real, under: Color): Color {
    Color(Blend(woven.r, a, under.r), Blend(woven.g, a, under.g), Blend(woven.b, a, under.b), Blend(a, a, under.a))
  }

  /** The full gate for one pixel. */
  function FullGate(s: Scene, woven: Color, transparent: bool, bd: Color, desk: Color, layer: real): Color {
    if !transparent then woven.(a := 1.0)
    else if s.overlay.NoOverlay? then Under(s, bd, desk)
    else Lay(woven, LayerAlpha(s, woven, layer), Under(s, bd, desk))
  }

  datatype Emitted = Discard | Emit(c: Color)

  /** The mask-only shader: a selector, no woven pixel read. */
  function MaskShader(s: Scene, transparent: bool): Emitted {
    if !transparent then Emit(Color(0.0, 0.0, 0.0, 1.0))
    else if s.overlay.Coverage? then Discard
    else Emit(CLEAR)
  }

  /** Blend disabled, only the alpha channel written. */
  function WriteAlphaOnly(dst: Color, src: Color): Color { dst.(a := src.a) }

  /** Colour ZERO / SRC_ALPHA, alpha ONE / ZERO, every channel written. */
  function Punch(dst: Color, src: Color): Color {
    Color(src.r * 0.0 + dst.r * src.a, src.g * 0.0 + dst.g * src.a, src.b * 0.0 + dst.b * src.a,
          src.a * 1.0 + dst.a * 0.0)
  }

  function MaskGate(s: Scene, dst: Color, transparent: bool): Color {
    match MaskShader(s, transparent)
    case Discard => dst
    case Emit(c) => if s.overlay.Coverage? then WriteAlphaOnly(dst, c) else Punch(dst, c)
  }

  /** The driver's own test for serving a frame with the mask-only gate, its target format aside. */
  predicate MaskServes(s: Scene) {
    !s.hasBackdrop && !s.flatten && !s.overlay.Estimated?
  }

  /** The gates agree on a pixel exactly when the full gate's saturate leaves its alpha alone: always,
      on a UNORM target; not on a float target whose transparent coverage leaves [0, 1]. */
  lemma GatesAgreeIff(s: Scene, woven: Color, transparent: bool, bd: Color, desk: Color, layer: real)
    requires MaskServes(s)
    ensures MaskGate(s, woven, transparent) == FullGate(s, woven, transparent, bd, desk, layer)
            <==> (transparent && s.overlay.Coverage? ==> 0.0 <= woven.a <= 1.0)
  {
  }

  // ---- Whole frames ---------------------------------------------------------------------------

  /** The target's pixel after the full gate, from the pixel before. */
  function FullPixel(s: Scene, width: nat, height: nat, woven: Color, x: nat, y: nat): Color
    requires x < width && y < height
  {
    var vp := Viewport(s, width, height);
    if !InRect(vp, x, y) then woven else
    var u, v := Across(x, vp.x, vp.w), Across(y, vp.y, vp.h);
    var wu, wv := IntoWindow(u, vp.x, vp.w, width), IntoWindow(v, vp.y, vp.h, height);
    FullGate(s, woven, AllTransparent(s, vp, u, v), s.backdrop(wu, wv), s.desktop(wu, wv), s.overlayAlpha(wu, wv))
  }

  function MaskPixel(s: Scene, width: nat, height: nat, dst: Color, x: nat, y: nat): Color
    requires x < width && y < height
  {
    var vp := Viewport(s, width, height);
    if !InRect(vp, x, y) then dst
    else MaskGate(s, dst, AllTransparent(s, vp, Across(x, vp.x, vp.w), Across(y, vp.y, vp.h)))
  }

  /** Every channel a fixed-point target can hold. */
  predicate Unorm(c: Color) {
    0.0 <= c.r <= 1.0 && 0.0 <= c.g <= 1.0 && 0.0 <= c.b <= 1.0 && 0.0 <= c.a <= 1.0
  }

  /** On the whole frame of a UNORM target the cheap gate is the full gate, and outside the canvas
      neither touches anything. */
  lemma FramesAgree(s: Scene, width: nat, height: nat, c: Color, x: nat, y: nat)
    requires x < width && y < height && MaskServes(s) && Unorm(c)
    ensures MaskPixel(s, width, height, c, x, y) == FullPixel(s, width, height, c, x, y)
    ensures !InRect(Viewport(s, width, height), x, y) ==> FullPixel(s, width, height, c, x, y) == c
    ensures Unorm(MaskPixel(s, width, height, c, x, y))
  {
    var vp := Viewport(s, width, height);
    if InRect(vp, x, y) {
      var u, v := Across(x, vp.x, vp.w), Across(y, vp.y, vp.h);
      var wu, wv := IntoWindow(u, vp.x, vp.w, width), IntoWindow(v, vp.y, vp.h, height);
      GatesAgreeIff(s, c, AllTransparent(s, vp, u, v), s.backdrop(wu, wv), s.desktop(wu, wv), s.overlayAlpha(wu, wv));
    }
  }

  // ---- Flatten --------------------------------------------------------------------------------

  /** A premultiplied colour laid over an opaque one: the blend DWM does at present. */
  function Over(c: Color, desk: Color): Color {
    Color(Blend(c.r, c.a, desk.r), Blend(c.g, c.a, desk.g), Blend(c.b, c.a, desk.b), Blend(c.a, c.a, 1.0))
  }

  /** Src-over is associative, channel by channel. */
  lemma BlendAssociates(w: real, a: real, u: real, ua: real, d: real)
    ensures Blend(w, a, Blend(u, ua, d)) == Blend(Blend(w, a, u), Blend(a, a, ua), d)
  {
    var k := 1.0 - a;
    assert 1.0 - (a + k * ua) == k * (1.0 - ua);
    assert k * (u + (1.0 - ua) * d) == k * u + k * ((1.0 - ua) * d);
    assert k * ((1.0 - ua) * d) == (k * (1.0 - ua)) * d;
  }

  lemma LayOver(woven: Color, a: real, u: Color, desk: Color)
    ensures Lay(woven, a, Over(u, desk)) == Over(Lay(woven, a, u), desk)
  {
    BlendAssociates(woven.r, a, u.r, u.a, desk.r);
    BlendAssociates(woven.g, a, u.g, u.a, desk.g);
    BlendAssociates(woven.b, a, u.b, u.a, desk.b);
    BlendAssociates(a, a, u.a, u.a, 1.0);
  }

  lemma UnderFlattens(s: Scene, bd: Color, desk: Color)
    ensures Under(s.(flatten := true), bd, desk) == Over(Under(s.(flatten := false), bd, desk), desk)
  {
    var l, r := Under(s.(flatten := true), bd, desk), Over(Under(s.(flatten := false), bd, desk), desk);
    assert l.r == r.r && l.g == r.g && l.b == r.b && l.a == r.a;
  }

  /** In every backdrop and over-layer configuration, flattening completes the present blend. */
  lemma FlattenCompletesTheBlend(s: Scene, woven: Color, transparent: bool, bd: Color, desk: Color, layer: real)
    ensures var flat := FullGate(s.(flatten := true), woven, transparent, bd, desk, layer);
            flat.a == 1.0 && flat == Over(FullGate(s.(flatten := false), woven, transparent, bd, desk, layer), desk)
  {
    UnderFlattens(s, bd, desk);
    if transparent {
      LayOver(woven, LayerAlpha(s, woven, layer), Under(s.(flatten := false), bd, desk), desk);
    }
  }

  /** A valid premultiplied colour: no channel exceeds its alpha. */
  predicate Premultiplied(c: Color) {
    0.0 <= c.r <= c.a && 0.0 <= c.g <= c.a && 0.0 <= c.b <= c.a && c.a <= 1.0
  }

  lemma LayChannel(w: real, a: real, u: real, ua: real)
    requires 0.0 <= w <= a <= 1.0 && 0.0 <= u <= ua <= 1.0
    ensures 0.0 <= Blend(w, a, u) <= Blend(a, a, ua) <= 1.0
  {
    Floats.Product(1.0 - a, u);
    Floats.Product(1.0 - a, ua - u);
    Floats.Product(1.0 - a, 1.0 - ua);
  }

  lemma LayKeepsPremultiplied(woven: Color, a: real, u: Color)
    requires 0.0 <= woven.r <= a && 0.0 <= woven.g <= a && 0.0 <= woven.b <= a <= 1.0 && Premultiplied(u)
    ensures Premultiplied(Lay(woven, a, u))
  {
    LayChannel(woven.r, a, u.r, u.a);
    LayChannel(woven.g, a, u.g, u.a);
    LayChannel(woven.b, a, u.b, u.a);
  }

  lemma UnderIsPremultiplied(s: Scene, bd: Color, desk: Color)
    requires Unorm(desk) && Premultiplied(bd)
    ensures Premultiplied(Under(s, bd, desk))
  {
    LayKeepsPremultiplied(bd, bd.a, desk.(a := 1.0));
  }

  /** Valid premultiplied inputs give a valid premultiplied output, whatever the configuration. */
  lemma GateKeepsPremultiplied(s: Scene, woven: Color, transparent: bool, bd: Color, desk: Color, layer: real)
    requires Unorm(woven) && Unorm(desk) && Premultiplied(bd) && (s.overlay.Coverage? ==> Premultiplied(woven))
    ensures Premultiplied(FullGate(s, woven, transparent, bd, desk, layer))
  {
    UnderIsPremultiplied(s, bd, desk);
    if transparent && !s.overlay.NoOverlay? {
      LayKeepsPremultiplied(woven, LayerAlpha(s, woven, layer), Under(s, bd, desk));
    }
  }

  // ---- The passes -----------------------------------------------------------------------------

  /** The loop both shaders share. */
  method ScanViews(s: Scene, vp: Rect, u: real, v: real) returns (transparent: bool)
    ensures transparent == AllTransparent(s, vp, u, v)
  {
    transparent := true;
    for ty := 0 to s.tilesY
      invariant transparent <==>
        forall b: nat, a: nat :: b < ty && a < s.tilesX ==> TileAlpha(s, vp, u, v, a, b) <= 0.0
    {
      for tx := 0 to s.tilesX
        invariant transparent <==>
          forall b: nat, a: nat :: (b < ty && a < s.tilesX) || (b == ty && a < tx) ==>
            TileAlpha(s, vp, u, v, a, b) <= 0.0
      {
        if TileAlpha(s, vp, u, v, tx, ty) > 0.0 {
          transparent := false;
        }
      }
    }
  }

  /** CopyResource: the woven target as the full gate will sample it. */
  method CopyTarget(target: array2<Color>) returns (copy: array2<Color>)
    ensures fresh(copy) && copy.Length0 == target.Length0 && copy.Length1 == target.Length1
    ensures forall x, y :: 0 <= x < target.Length0 && 0 <= y < target.Length1 ==> copy[x, y] == target[x, y]
  {
    copy := new Color[target.Length0, target.Length1]((i, j) => CLEAR);
    forall x, y | 0 <= x < target.Length0 && 0 <= y < target.Length1 {
      copy[x, y] := target[x, y];
    }
  }

  /** The texel index, along one side, that a pixel's mapped coordinate reads. */
  function Texel(pixel: nat, origin: int, size: nat, target: nat): (t: int)
    requires size > 0 && target > 0
    ensures t == pixel
  {
    ReadsItsOwnPixel(pixel, origin, size, target);
    (IntoWindow(Across(pixel, origin, size), origin, size, target) * target as real).Floor
  }

  /** Sampling the copy at a pixel's mapped coordinate. */
  method SampleCopy(copy: array2<Color>, vp: Rect, x: nat, y: nat) returns (c: Color)
    requires x < copy.Length0 && y < copy.Length1 && vp.w > 0 && vp.h > 0
    ensures c == copy[x, y]
  {
    c := copy[Texel(x, vp.x, vp.w, copy.Length0), Texel(y, vp.y, vp.h, copy.Length1)];
  }

  /** One invocation of the full gate's pixel shader. */
  method ShadeFull(s: Scene, copy: array2<Color>, x: nat, y: nat) returns (c: Color)
    requires x < copy.Length0 && y < copy.Length1 && InRect(Viewport(s, copy.Length0, copy.Length1), x, y)
    ensures c == FullPixel(s, copy.Length0, copy.Length1, copy[x, y], x, y)
  {
    var vp := Viewport(s, copy.Length0, copy.Length1);
    var u, v := Across(x, vp.x, vp.w), Across(y, vp.y, vp.h);
    var woven := SampleCopy(copy, vp, x, y);
    var transparent := ScanViews(s, vp, u, v);
    var wu, wv := IntoWindow(u, vp.x, vp.w, copy.Length0), IntoWindow(v, vp.y, vp.h, copy.Length1);
    c := FullGate(s, woven, transparent, s.backdrop(wu, wv), s.desktop(wu, wv), s.overlayAlpha(wu, wv));
  }

  /** The slow gate: copy, then rewrite the canvas from the copy. */
  method FullGateFrame(s: Scene, target: array2<Color>)
    modifies target
    ensures forall x: nat, y: nat :: x < target.Length0 && y < target.Length1 ==>
              target[x, y] == FullPixel(s, target.Length0, target.Length1, old(target[x, y]), x, y)
  {
    var copy := CopyTarget(target);
    var w, h := target.Length0, target.Length1;
    var vp := Viewport(s, w, h);
    for y := 0 to h
      invariant forall a: nat, b: nat :: a < w && b < h ==>
        copy[a, b] == old(target[a, b])
        && target[a, b] == if b < y then FullPixel(s, w, h, old(target[a, b]), a, b) else old(target[a, b])
    {
      for x := 0 to w
        invariant forall a: nat, b: nat :: a < w && b < h ==>
          copy[a, b] == old(target[a, b])
          && target[a, b] == if b < y || (b == y && a < x) then FullPixel(s, w, h, old(target[a, b]), a, b)
                             else old(target[a, b])
      {
        if InRect(vp, x, y) {
          target[x, y] := ShadeFull(s, copy, x, y);
        }
      }
    }
  }

  /** The fast gate: the mask-only shader, and the output-merger in place. */
  method MaskGateFrame(s: Scene, target: array2<Color>)
    modifies target
    ensures forall x: nat, y: nat :: x < target.Length0 && y < target.Length1 ==>
              target[x, y] == MaskPixel(s, target.Length0, target.Length1, old(target[x, y]), x, y)
  {
    var w, h := target.Length0, target.Length1;
    var vp := Viewport(s, w, h);
    for y := 0 to h
      invariant forall a: nat, b: nat :: a < w && b < h ==>
        target[a, b] == if b < y then MaskPixel(s, w, h, old(target[a, b]), a, b) else old(target[a, b])
    {
      for x := 0 to w
        invariant forall a: nat, b: nat :: a < w && b < h ==>
          target[a, b] == if b < y || (b == y && a < x) then MaskPixel(s, w, h, old(target[a, b]), a, b)
                          else old(target[a, b])
      {
        if InRect(vp, x, y) {
          var transparent := ScanViews(s, vp, Across(x, vp.x, vp.w), Across(y, vp.y, vp.h));
          match MaskShader(s, transparent) {
            case Discard =>
            case Emit(c) =>
              target[x, y] := if s.overlay.Coverage? then WriteAlphaOnly(target[x, y], c) else Punch(target[x, y], c);
          }
        }
      }
    }
  }

  /** The bound render target is some other client's: not the size this processor was given. */
  predicate Foreign(s: Scene, width: nat, height: nat) {
    s.targetW > 0 && s.targetH > 0 && (width != s.targetW || height != s.targetH)
  }

  /** alpha_gate_run_post_weave: whichever gate serves the frame, the frame is the full gate's; a
      foreign target is left alone. */
  method RunGate(s: Scene, unormTarget: bool, forceFull: bool, maskReady: bool, target: array2<Color>)
    returns (ran: bool)
    requires unormTarget ==> forall x, y :: 0 <= x < target.Length0 && 0 <= y < target.Length1 ==> Unorm(target[x, y])
    modifies target
    ensures ran <==> s.targetW == 0 || s.targetH == 0 || (target.Length0 == s.targetW && target.Length1 == s.targetH)
    ensures forall x: nat, y: nat :: x < target.Length0 && y < target.Length1 ==>
              target[x, y] == if ran then FullPixel(s, target.Length0, target.Length1, old(target[x, y]), x, y)
                              else old(target[x, y])
  {
    if Foreign(s, target.Length0, target.Length1) {
      return false;
    }
    if MaskServes(s) && unormTarget && !forceFull && maskReady {
      forall x: nat, y: nat | x < target.Length0 && y < target.Length1
        ensures MaskPixel(s, target.Length0, target.Length1, target[x, y], x, y)
                == FullPixel(s, target.Length0, target.Length1, target[x, y], x, y)
      {
        FramesAgree(s, target.Length0, target.Length1, target[x, y], x, y);
      }
      MaskGateFrame(s, target);
    } else {
      FullGateFrame(s, target);
    }
    return true;
  }
}
