/**
 The app-published wish mask, how its texels look once copied into a pitched buffer, and the 1x1
 collapse both D3D arms scan it with.
 */
module ZoneMask {

  newtype Byte = x: int | 0 <= x < 256

  /** One app-published wish mask: `h` rows of `w` texels, R8. */
  datatype Mask = Mask(w: nat, h: nat, px: seq<seq<Byte>>)

  predicate WellFormed(m: Mask) {
    |m.px| == m.h && forall y :: 0 <= y < m.h ==> |m.px[y]| == m.w
  }

  /** The 1x1 collapse: a mask asks for 3D when any of its texels is non-zero. */
  predicate Wants3D(m: Mask)
    requires WellFormed(m)
  {
    exists y, x :: 0 <= y < m.h && 0 <= x < m.w && m.px[y][x] != 0
  }

  /** A copied row: the mask's texels, then whatever the row pitch pads with. */
  function Pitched(m: Mask, pad: seq<Byte>): (rows: seq<seq<Byte>>)
    ensures |rows| == |m.px| && forall y :: 0 <= y < |rows| ==> rows[y] == m.px[y] + pad
  {
    seq(|m.px|, y requires 0 <= y < |m.px| => m.px[y] + pad)
  }

  /** What the scan of `h` mapped rows of `w` texels reports. */
  predicate AnySet(rows: seq<seq<Byte>>, w: nat, h: nat) {
    exists y, x :: 0 <= y < h && 0 <= x < w && y < |rows| && x < |rows[y]| && rows[y][x] != 0
  }

  /** The scan ignores the padding: it answers for the mask the copy was issued with. */
  lemma ScanSeesTheMask(m: Mask, pad: seq<Byte>)
    requires WellFormed(m)
    ensures AnySet(Pitched(m, pad), m.w, m.h) == Wants3D(m)
  {
    var rows := Pitched(m, pad);
    forall y, x | 0 <= y < m.h && 0 <= x < m.w ensures rows[y][x] == m.px[y][x] {
    }
    if Wants3D(m) {
      var y, x :| 0 <= y < m.h && 0 <= x < m.w && m.px[y][x] != 0;
      assert rows[y][x] != 0;
    }
  }

  /** The any-nonzero scan over the mapped rows. */
  method Scan(rows: seq<seq<Byte>>, w: nat, h: nat) returns (any: bool)
    requires h <= |rows| && forall y :: 0 <= y < h ==> w <= |rows[y]|
    ensures any == AnySet(rows, w, h)
  {
    any := false;
    var y := 0;
    while y < h && !any
      invariant 0 <= y <= h
      invariant any ==> AnySet(rows, w, h)
      invariant !any ==> forall b, a :: 0 <= b < y && 0 <= a < w ==> rows[b][a] == 0
    {
      var x := 0;
      while x < w
        invariant 0 <= x <= w && !any
        invariant forall a :: 0 <= a < x ==> rows[y][a] == 0
      {
        if rows[y][x] != 0 {
          any := true;
          break;
        }
        x := x + 1;
      }
      y := y + 1;
    }
  }
}
