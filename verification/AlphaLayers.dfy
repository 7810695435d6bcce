/**
 What the post-weave alpha gate shows, in its inputs alone: three layers, any of them absent, in
 plain arithmetic on each channel; and what a pixel of a frame reads to decide.
 */
module AlphaLayers {
  import opened AlphaGate

  // ---- The layers -----------------------------------------------------------------------------

  /** `a` is `x` held within 0..1. */
  ghost predicate Held(x: real, a: real) {
    (x < 0.0 ==> a == 0.0) && (0.0 <= x <= 1.0 ==> a == x) && (x > 1.0 ==> a == 1.0)
  }

  /** `m` is the largest of four. */
  ghost predicate Largest(m: real, p: real, q: real, r: real, t: real) {
    m >= p && m >= q && m >= r && m >= t && (m == p || m == q || m == r || m == t)
  }

  /** The 2D over-layer of a pixel: what was woven, with its own coverage, or with the layer's alpha
      raised to the brightest woven channel; nothing when the weaver composited none. */
  ghost predicate OverLayer(s: Scene, woven: Color, layer: real, w: Color) {
    if s.overlay.NoOverlay? then w == CLEAR else
    && w.r == woven.r && w.g == woven.g && w.b == woven.b
    && (s.overlay.Coverage? ==> Held(woven.a, w.a))
    && (s.overlay.Estimated? ==> exists m :: Largest(m, layer, woven.r, woven.g, woven.b) && Held(m, w.a))
  }

  /** The backdrop of a pixel; nothing when the application gave none. */
  ghost predicate BackLayer(s: Scene, bd: Color, b: Color) {
    b == if s.hasBackdrop then bd else CLEAR
  }

  /** The gate's own over-layer is that. */
  lemma OverLayerIs(s: Scene, woven: Color, layer: real)
    ensures OverLayer(s, woven, layer, if s.overlay.NoOverlay? then CLEAR else woven.(a := LayerAlpha(s, woven, layer)))
  {
    var m := Max(layer, Max(woven.r, Max(woven.g, woven.b)));
    assert Largest(m, layer, woven.r, woven.g, woven.b);
    assert Held(m, Saturate(m)) && Held(woven.a, Saturate(woven.a));
  }

  lemma OverLayerIsUnique(s: Scene, woven: Color, layer: real, w: Color, v: Color)
    requires OverLayer(s, woven, layer, w) && OverLayer(s, woven, layer, v)
    ensures w == v
  {
  }

  // ---- A transparent pixel --------------------------------------------------------------------

  /** The over-layer over the backdrop; flattened, over the desktop too, and opaque. */
  ghost predicate Emits(flat: bool, c: Color, w: Color, b: Color, desk: Color) {
    if flat then
      && c.r == w.r + (1.0 - w.a) * (b.r + (1.0 - b.a) * desk.r)
      && c.g == w.g + (1.0 - w.a) * (b.g + (1.0 - b.a) * desk.g)
      && c.b == w.b + (1.0 - w.a) * (b.b + (1.0 - b.a) * desk.b)
      && c.a == 1.0
    else
      && c.r == w.r + (1.0 - w.a) * b.r
      && c.g == w.g + (1.0 - w.a) * b.g
      && c.b == w.b + (1.0 - w.a) * b.b
      && c.a == w.a + (1.0 - w.a) * b.a
  }

  /** Presented over the desktop: the over-layer over the backdrop over the desktop. */
  ghost predicate Shows(c: Color, w: Color, b: Color, desk: Color) {
    && c.r + (1.0 - c.a) * desk.r == w.r + (1.0 - w.a) * (b.r + (1.0 - b.a) * desk.r)
    && c.g + (1.0 - c.a) * desk.g == w.g + (1.0 - w.a) * (b.g + (1.0 - b.a) * desk.g)
    && c.b + (1.0 - c.a) * desk.b == w.b + (1.0 - w.a) * (b.b + (1.0 - b.a) * desk.b)
  }

  /** One colour channel, presented: either flattened already, or blended over the desktop now. */
  lemma PresentedChannel(flat: bool, c: real, ca: real, w: real, wa: real, b: real, ba: real, d: real)
    requires if flat then c == w + (1.0 - wa) * (b + (1.0 - ba) * d) && ca == 1.0
             else c == w + (1.0 - wa) * b && ca == wa + (1.0 - wa) * ba
    ensures c + (1.0 - ca) * d == w + (1.0 - wa) * (b + (1.0 - ba) * d)
  {
    if !flat {
      BlendAssociates(w, wa, b, ba, d);
    }
  }

  lemma Presented(flat: bool, c: Color, w: Color, b: Color, desk: Color)
    requires Emits(flat, c, w, b, desk)
    ensures Shows(c, w, b, desk)
  {
    PresentedChannel(flat, c.r, c.a, w.r, w.a, b.r, b.a, desk.r);
    PresentedChannel(flat, c.g, c.a, w.g, w.a, b.g, b.a, desk.g);
    PresentedChannel(flat, c.b, c.a, w.b, w.a, b.b, b.a, desk.b);
  }

  /** What lies under the over-layer: the backdrop, over the desktop where the gate flattens. */
  lemma UnderIs(s: Scene, bd: Color, desk: Color, b: Color)
    requires BackLayer(s, bd, b)
    ensures Emits(s.flatten, Under(s, bd, desk), CLEAR, b, desk)
  {
  }

  lemma LaidOver(flat: bool, w: Color, u: Color, b: Color, desk: Color)
    requires Emits(flat, u, CLEAR, b, desk)
    ensures Emits(flat, Lay(w, w.a, u), w, b, desk)
  {
    var c := Lay(w, w.a, u);
    assert flat ==> u.r == b.r + (1.0 - b.a) * desk.r;
    assert flat ==> u.g == b.g + (1.0 - b.a) * desk.g;
    assert flat ==> u.b == b.b + (1.0 - b.a) * desk.b;
    assert flat ==> u.a == 1.0 && c.a == 1.0;
  }

  /** A pixel transparent in every view, in every configuration. */
  lemma TransparentPixel(s: Scene, woven: Color, bd: Color, desk: Color, layer: real, w: Color, b: Color)
    requires OverLayer(s, woven, layer, w) && BackLayer(s, bd, b)
    ensures Emits(s.flatten, FullGate(s, woven, true, bd, desk, layer), w, b, desk)
  {
    var u := Under(s, bd, desk);
    UnderIs(s, bd, desk, b);
    if !s.overlay.NoOverlay? {
      OverLayerIs(s, woven, layer);
      OverLayerIsUnique(s, woven, layer, w, woven.(a := LayerAlpha(s, woven, layer)));
      LaidOver(s.flatten, w, u, b, desk);
      LayIgnoresAlpha(woven, w, u);
    }
  }

  lemma LayIgnoresAlpha(woven: Color, w: Color, u: Color)
    requires w.r == woven.r && w.g == woven.g && w.b == woven.b
    ensures Lay(woven, w.a, u) == Lay(w, w.a, u)
  {
  }

  // ---- What a pixel of the frame reads --------------------------------------------------------

  /** Canvas coordinates carried into the window are the pixel centre over the whole target. */
  lemma WindowCentre(pixel: int, origin: int, size: nat, target: nat)
    requires size > 0 && target > 0
    ensures IntoWindow(Across(pixel, origin, size), origin, size, target) == (pixel as real + 0.5) / target as real
  {
    var p, o, n, t := pixel as real + 0.5, origin as real, size as real, target as real;
    calc {
      o / t + (p - o) / n * (n / t);
      o / t + (p - o) / n * n / t;
      o / t + (p - o) / t;
      p / t;
    }
  }

  lemma Scaled(pixel: int, origin: int, size: nat)
    requires size > 0
    ensures Across(pixel, origin, size) * size as real == pixel as real + 0.5 - origin as real
  {
  }

  /** With tiles of the canvas's own size, view (tx, ty) shows a canvas pixel the texel as far into
      the tile as the pixel is into the canvas. */
  lemma TileReadsItsTexel(s: Scene, vp: Rect, x: nat, y: nat, tx: nat, ty: nat)
    requires tx < s.tilesX && ty < s.tilesY && InRect(vp, x, y)
    requires s.atlas.width == s.tilesX * vp.w && s.atlas.height == s.tilesY * vp.h
    ensures TileAlpha(s, vp, Across(x, vp.x, vp.w), Across(y, vp.y, vp.h), tx, ty)
            == s.atlas.load(tx * vp.w + (x - vp.x), ty * vp.h + (y - vp.y))
  {
    TileSide(s.atlas.width, s.tilesX, vp.w);
    TileSide(s.atlas.height, s.tilesY, vp.h);
    TexelInTile(tx, vp.x, vp.w, x);
    TexelInTile(ty, vp.y, vp.h, y);
  }

  /** With tiles of another size it filters, as far across the tile as the pixel is across the canvas. */
  lemma TileFilters(s: Scene, vp: Rect, x: nat, y: nat, tx: nat, ty: nat)
    requires tx < s.tilesX && ty < s.tilesY && InRect(vp, x, y)
    requires var pw, ph := s.atlas.width as real / s.tilesX as real, s.atlas.height as real / s.tilesY as real;
             !(-0.5 < pw - vp.w as real < 0.5 && -0.5 < ph - vp.h as real < 0.5)
    ensures var u := (x as real + 0.5 - vp.x as real) / vp.w as real;
            var v := (y as real + 0.5 - vp.y as real) / vp.h as real;
            TileAlpha(s, vp, Across(x, vp.x, vp.w), Across(y, vp.y, vp.h), tx, ty)
            == s.atlas.filtered((tx as real + u) / s.tilesX as real, (ty as real + v) / s.tilesY as real)
  {
  }

  lemma TileSide(side: nat, tiles: nat, size: nat)
    requires tiles > 0 && side == tiles * size
    ensures side as real / tiles as real == size as real
  {
    assert side as real == tiles as real * size as real;
  }

  lemma TexelInTile(tile: nat, origin: int, size: nat, pixel: int)
    requires size > 0 && pixel >= origin
    ensures TileTexel(tile, size as real, Across(pixel, origin, size), size) == tile * size + (pixel - origin)
  {
    Scaled(pixel, origin, size);
    assert (tile * size) as real == tile as real * size as real;
    HalfPast(tile * size + (pixel - origin));
  }

  lemma HalfPast(n: nat)
    ensures Trunc(n as real + 0.5) == n
  {
  }

  // ---- The frame ------------------------------------------------------------------------------

  /** The gate's region: the canvas when there is one on a target of known size, else everything. */
  ghost predicate Gated(s: Scene, width: nat, height: nat, x: int, y: int) {
    if s.canvas.w > 0 && s.canvas.h > 0 && s.targetW > 0 && s.targetH > 0 then
      s.canvas.x <= x < s.canvas.x + s.canvas.w && s.canvas.y <= y < s.canvas.y + s.canvas.h
    else
      0 <= x < width && 0 <= y < height
  }

  /** No view shows anything at this pixel. */
  ghost predicate Empty(s: Scene, width: nat, height: nat, x: nat, y: nat)
    requires Gated(s, width, height, x, y)
  {
    var vp := Viewport(s, width, height);
    forall tx: nat, ty: nat :: tx < s.tilesX && ty < s.tilesY ==>
      TileAlpha(s, vp, Across(x, vp.x, vp.w), Across(y, vp.y, vp.h), tx, ty) <= 0.0
  }

  /** A frame's pixel: outside the region as woven; where some view shows something as woven, opaque;
      elsewhere, presented over the desktop at its own place, the over-layer over the backdrop over
      the desktop, the latter two read at the pixel's centre. */
  lemma FramePixel(s: Scene, width: nat, height: nat, woven: Color, x: nat, y: nat, w: Color, b: Color)
    requires x < width && y < height
    requires var u, v := (x as real + 0.5) / width as real, (y as real + 0.5) / height as real;
             OverLayer(s, woven, s.overlayAlpha(u, v), w) && BackLayer(s, s.backdrop(u, v), b)
    ensures var c := FullPixel(s, width, height, woven, x, y);
      var desk := s.desktop((x as real + 0.5) / width as real, (y as real + 0.5) / height as real);
      if !Gated(s, width, height, x, y) then c == woven
      else if !Empty(s, width, height, x, y) then c == woven.(a := 1.0)
      else Emits(s.flatten, c, w, b, desk) && Shows(c, w, b, desk)
  {
    if Gated(s, width, height, x, y) {
      ReadsAtItsCentre(s, width, height, woven, x, y);
      if Empty(s, width, height, x, y) {
        var u, v := (x as real + 0.5) / width as real, (y as real + 0.5) / height as real;
        TransparentPixel(s, woven, s.backdrop(u, v), s.desktop(u, v), s.overlayAlpha(u, v), w, b);
        Presented(s.flatten, FullPixel(s, width, height, woven, x, y), w, b, s.desktop(u, v));
      }
    }
  }

  lemma ReadsAtItsCentre(s: Scene, width: nat, height: nat, woven: Color, x: nat, y: nat)
    requires x < width && y < height && Gated(s, width, height, x, y)
    ensures var u, v := (x as real + 0.5) / width as real, (y as real + 0.5) / height as real;
            FullPixel(s, width, height, woven, x, y)
            == FullGate(s, woven, Empty(s, width, height, x, y), s.backdrop(u, v), s.desktop(u, v),
                        s.overlayAlpha(u, v))
  {
    var vp := Viewport(s, width, height);
    WindowCentre(x, vp.x, vp.w, width);
    WindowCentre(y, vp.y, vp.h, height);
  }
}
