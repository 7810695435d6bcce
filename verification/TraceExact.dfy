/**
 What the prediction scorer measures and drops, in its inputs alone: the error against the position
 the eyes really had at the scanout, and the exact condition of every verdict.
 */
module TraceExact {
  import opened Common
  import opened Floats
  import opened TraceScore
  import TraceSpans

  // ---- The error is against where the eyes were -----------------------------------------------

  /** A position reached from another in uniform motion, `step` a microsecond, on each axis. */
  ghost predicate MovesTo(v: Vec, from: Vec, step: Vec, time: real) {
    v.x == from.x + step.x * time && v.y == from.y + step.y * time && v.z == from.z + step.z * time
  }

  /** Both eyes' steps a microsecond. */
  datatype Motion = Motion(left: Vec, right: Vec)

  /** The eyes move so from one reference row to the other. */
  ghost predicate Joins(m: Motion, a: Row, b: Row) {
    MovesTo(b.left, a.left, m.left, b.time - a.time) && MovesTo(b.right, a.right, m.right, b.time - a.time)
  }

  /** One coordinate, interpolated between two instants of a uniform motion, is the motion's. */
  lemma CoordinateIs(a: real, b: real, v: real, step: real, span: real, into: real)
    requires span > 0.0 && b == a + step * span && v == a + step * into
    ensures Lerp(a, b, into / span) == v
  {
    var f := into / span;
    Returns(into, span);
    calc {
      (b - a) * f;
      (step * span) * f;
      step * (f * span);
      step * into;
    }
  }

  lemma VectorIs(a: Vec, b: Vec, v: Vec, step: Vec, span: real, into: real)
    requires span > 0.0 && MovesTo(b, a, step, span) && MovesTo(v, a, step, into)
    ensures LerpVec(a, b, into / span) == v
  {
    CoordinateIs(a.x, b.x, v.x, step.x, span, into);
    CoordinateIs(a.y, b.y, v.y, step.y, span, into);
    CoordinateIs(a.z, b.z, v.z, step.z, span, into);
  }

  ghost predicate Scorable(rows: seq<Row>, w: Weave, i: nat) {
    i + 1 < |rows| && rows[i].time < rows[i + 1].time && w.scanout.Some? && w.left.Some? && w.right.Some?
  }

  /** `e` is prediction minus position, on each axis. */
  ghost predicate Misses(e: Vec, predicted: Vec, at: Vec) {
    e.x == predicted.x - at.x && e.y == predicted.y - at.y && e.z == predicted.z - at.z
  }

  /** `e` is the midpoint of the two eyes' errors. */
  ghost predicate Halfway(e: Vec, l: Vec, r: Vec) {
    2.0 * e.x == l.x + r.x && 2.0 * e.y == l.y + r.y && 2.0 * e.z == l.z + r.z
  }

  /** For the uniform motion that joins the bracketing rows, the sample's errors are the predictions
      minus where that motion has the eyes at the scanout; the midpoint's is half way between the two,
      and its magnitude the root of its squares. Swap and horizon are the weave's own. */
  lemma ErrorIsAgainstTheMotion(rows: seq<Row>, root: real -> real, w: Weave, i: nat, m: Motion, l: Vec, r: Vec)
    requires Scorable(rows, w, i) && Joins(m, rows[i], rows[i + 1])
    requires MovesTo(l, rows[i].left, m.left, w.scanout.value - rows[i].time)
    requires MovesTo(r, rows[i].right, m.right, w.scanout.value - rows[i].time)
    ensures var x := SampleOf(rows, root, w, i);
            && Misses(x.left, w.left.value, l) && Misses(x.right, w.right.value, r)
            && Halfway(x.mid, x.left, x.right)
            && x.mag == root(x.mid.x * x.mid.x + x.mid.y * x.mid.y + x.mid.z * x.mid.z)
            && x.swap == w.swap && x.horizon * 1000.0 == w.push
  {
    InterpIs(rows[i], rows[i + 1], w.scanout.value, m, l, r);
    ErrorsAre(w, l, r, root, Speed(rows, i, root));
    SquareIs(SampleOf(rows, root, w, i).mid);
  }

  lemma InterpIs(a: Row, b: Row, t: real, m: Motion, l: Vec, r: Vec)
    requires a.time < b.time && Joins(m, a, b)
    requires MovesTo(l, a.left, m.left, t - a.time) && MovesTo(r, a.right, m.right, t - a.time)
    ensures Interp(a, b, t) == (l, r)
  {
    VectorIs(a.left, b.left, l, m.left, b.time - a.time, t - a.time);
    VectorIs(a.right, b.right, r, m.right, b.time - a.time, t - a.time);
  }

  lemma ErrorsAre(w: Weave, l: Vec, r: Vec, root: real -> real, speed: real)
    requires w.left.Some? && w.right.Some?
    ensures var x := SampleAgainst(w, l, r, root, speed);
            && Misses(x.left, w.left.value, l) && Misses(x.right, w.right.value, r)
            && Halfway(x.mid, x.left, x.right)
            && x.mag == root(x.mid.x * x.mid.x + x.mid.y * x.mid.y + x.mid.z * x.mid.z)
            && x.swap == w.swap && x.horizon * 1000.0 == w.push
  {
    PushInMs(w.push);
    SquareIs(SampleAgainst(w, l, r, root, speed).mid);
  }

  lemma SquareIs(v: Vec)
    ensures Square(v) == v.x * v.x + v.y * v.y + v.z * v.z
  {
  }

  lemma PushInMs(push: real)
    ensures push / 1000.0 * 1000.0 == push
  {
  }

  /** Any two rows are joined by a uniform motion, so that speaks of every sample. */
  lemma RowsAreJoined(a: Row, b: Row) returns (m: Motion)
    requires a.time < b.time
    ensures Joins(m, a, b)
  {
    var l := StepBetween(a.left, b.left, b.time - a.time);
    var r := StepBetween(a.right, b.right, b.time - a.time);
    m := Motion(l, r);
  }

  lemma StepBetween(a: Vec, b: Vec, span: real) returns (step: Vec)
    requires span > 0.0
    ensures MovesTo(b, a, step, span)
  {
    step := Vec((b.x - a.x) / span, (b.y - a.y) / span, (b.z - a.z) / span);
    Returns(b.x - a.x, span);
    Returns(b.y - a.y, span);
    Returns(b.z - a.z, span);
  }

  lemma Returns(x: real, d: real)
    requires d > 0.0
    ensures x / d * d == x
  {
  }

  // ---- Speed ----------------------------------------------------------------------------------

  ghost predicate IsRoot(root: real -> real) {
    forall x: real :: x >= 0.0 ==> root(x) >= 0.0 && root(x) * root(x) == x
  }

  /** How far the midpoint of two coordinates moves. */
  lemma MidpointMoves(al: real, ar: real, bl: real, br: real, ls: real, rs: real, step: real, span: real)
    requires bl == al + ls * span && br == ar + rs * span && 2.0 * step == ls + rs
    ensures (bl + br) * 0.5 - (al + ar) * 0.5 == step * span
  {
    assert ls * span + rs * span == (ls + rs) * span;
  }

  lemma MoveIs(a: Row, b: Row, m: Motion, step: Vec)
    requires Joins(m, a, b) && Halfway(step, m.left, m.right)
    ensures MovesTo(Diff(Mid(b.left, b.right), Mid(a.left, a.right)), Vec(0.0, 0.0, 0.0), step, b.time - a.time)
  {
    var span := b.time - a.time;
    MidpointMoves(a.left.x, a.right.x, b.left.x, b.right.x, m.left.x, m.right.x, step.x, span);
    MidpointMoves(a.left.y, a.right.y, b.left.y, b.right.y, m.left.y, m.right.y, step.y, span);
    MidpointMoves(a.left.z, a.right.z, b.left.z, b.right.z, m.left.z, m.right.z, step.z, span);
  }

  lemma SquareScales(x: real, y: real, z: real, d: real)
    ensures (x * d) * (x * d) + (y * d) * (y * d) + (z * d) * (z * d) == (x * x + y * y + z * z) * (d * d)
  {
    assert (x * d) * (x * d) == (x * x) * (d * d);
    assert (y * d) * (y * d) == (y * y) * (d * d);
    assert (z * d) * (z * d) == (z * z) * (d * d);
  }

  /** The speed of a sample is that of the eyes' midpoint in the motion, in millimetres a second:
      a million times its step in a microsecond. */
  lemma SpeedIsTheMotions(rows: seq<Row>, i: nat, root: real -> real, m: Motion, step: Vec)
    requires i + 1 < |rows| && rows[i].time < rows[i + 1].time && IsRoot(root)
    requires Joins(m, rows[i], rows[i + 1]) && Halfway(step, m.left, m.right)
    ensures var v := Speed(rows, i, root);
            v >= 0.0 && v * v == 1000000.0 * 1000000.0 * (step.x * step.x + step.y * step.y + step.z * step.z)
  {
    var a, b := rows[i], rows[i + 1];
    var move := Diff(Mid(b.left, b.right), Mid(a.left, a.right));
    MoveIs(a, b, m, step);
    var s := MovedSquare(move, step, b.time - a.time);
    SpeedSquared(root, Square(move), (b.time - a.time) / 1000000.0, b.time - a.time, s);
  }

  /** How far a midpoint moves over a span, squared. */
  lemma MovedSquare(move: Vec, step: Vec, span: real) returns (s: real)
    requires MovesTo(move, Vec(0.0, 0.0, 0.0), step, span)
    ensures s == step.x * step.x + step.y * step.y + step.z * step.z && s >= 0.0
    ensures Square(move) == s * (span * span)
  {
    s := step.x * step.x + step.y * step.y + step.z * step.z;
    SquareScales(step.x, step.y, step.z, span);
  }

  lemma Cancel(x: real, y: real, d: real)
    requires d > 0.0 && x * d == y * d
    ensures x == y
  {
  }

  /** A distance whose square is `s` spans squared, over that span in seconds. */
  lemma RateSquares(k: real, n: real, span: real, d: real, s: real)
    requires d > 0.0 && k * d == n && n * n == s * (span * span) && span == d * 1000000.0
    ensures k * k == 1000000.0 * 1000000.0 * s
  {
    var c := 1000000.0 * 1000000.0 * s;
    assert (k * k * d) * d == (k * d) * (k * d);
    assert span * span == (d * d) * (1000000.0 * 1000000.0);
    assert s * (span * span) == (c * d) * d;
    Cancel(k * k * d, c * d, d);
    Cancel(k * k, c, d);
  }

  lemma SpeedSquared(root: real -> real, moved: real, d: real, span: real, s: real)
    requires IsRoot(root) && span > 0.0 && d == span / 1000000.0 && moved == s * (span * span) && s >= 0.0
    ensures d > 0.0
    ensures var v := root(moved) / d; v >= 0.0 && v * v == 1000000.0 * 1000000.0 * s
  {
    Product(span, span);
    Product(s, span * span);
    QuotientIsNotNegative(root(moved), d);
    RateSquares(root(moved) / d, root(moved), span, d, s);
  }

  // ---- Every verdict --------------------------------------------------------------------------

  /** The trace does not say when, or where both eyes were predicted. */
  predicate Incomplete(w: Weave) { w.scanout.None? || w.left.None? || w.right.None? }

  /** No user was tracked then. */
  ghost predicate InASpan(s: Setup, t: real) {
    exists k :: 0 <= k < |s.spans| && s.spans[k].from <= t && (s.spans[k].to == None || t <= s.spans[k].to.value)
  }

  /** Row `i` and the next have the instant between them. */
  ghost predicate Between(s: Setup, t: real, i: nat) {
    i + 1 < |s.rows| && s.rows[i].time <= t < s.rows[i + 1].time
  }

  ghost predicate TooFarApart(s: Setup, i: nat)
    requires i + 1 < |s.rows|
  {
    s.tol.Some? && s.rows[i + 1].time - s.rows[i].time > s.tol.value
  }

  lemma SpansHold(s: Setup, t: real)
    ensures TraceSpans.InAny(s.spans, t) <==> InASpan(s, t)
  {
    if TraceSpans.InAny(s.spans, t) {
      var k :| 0 <= k < |s.spans| && TraceSpans.Covers(s.spans[k], t);
    }
    if InASpan(s, t) {
      var k :| 0 <= k < |s.spans| && s.spans[k].from <= t && (s.spans[k].to == None || t <= s.spans[k].to.value);
      assert TraceSpans.Covers(s.spans[k], t);
    }
  }

  lemma SearchFinds(s: Setup, t: real)
    requires Sorted(s.rows)
    ensures forall i: nat :: BracketFrom(s.rows, t, 0) == Some(i) <==> Between(s, t, i)
  {
    if s.rows != [] {
      forall i: nat ensures BracketFrom(s.rows, t, 0) == Some(i) <==> Between(s, t, i) {
        BracketIsTheInterval(s.rows, t, 0, i);
      }
    }
  }

  /** A weave is dropped as a bad row exactly when the row is incomplete; else for no horizon exactly
      when nothing was pushed; else as untracked exactly when a lost span holds its scanout; else for
      no bracket exactly when no two neighbouring rows have it between them; else for a gap exactly
      when those rows are further apart than the tolerance; and is otherwise kept with their sample. */
  lemma VerdictIff(s: Setup, w: Weave)
    requires Sorted(s.rows)
    ensures var v := Judge(s, 0, w).0;
      && (v == BadRow <==> Incomplete(w))
      && (v == NoHorizon <==> !Incomplete(w) && w.push == 0.0)
      && (v == Untracked <==> !Incomplete(w) && w.push != 0.0 && InASpan(s, w.scanout.value))
      && (!Incomplete(w) && w.push != 0.0 && !InASpan(s, w.scanout.value) ==>
            && (v == NoBracket <==> forall i: nat :: !Between(s, w.scanout.value, i))
            && (v == Gap <==> exists i: nat :: Between(s, w.scanout.value, i) && TooFarApart(s, i))
            && (forall i: nat :: Between(s, w.scanout.value, i) && !TooFarApart(s, i) ==>
                  Scorable(s.rows, w, i) && v == Kept(SampleOf(s.rows, s.root, w, i))))
  {
    if !Incomplete(w) {
      SpansHold(s, w.scanout.value);
      SearchFinds(s, w.scanout.value);
      match BracketFrom(s.rows, w.scanout.value, 0)
      case None =>
      case Some(i) => assert Between(s, w.scanout.value, i);
    }
  }

  // ---- Where a sample is counted --------------------------------------------------------------

  lemma HorizonBinsAre(h: real)
    ensures BinOf(HORIZON_EDGES, h)
            == if h < 0.0 then None else if h < 20.0 then Some(0) else if h < 40.0 then Some(1)
               else if h < 60.0 then Some(2) else Some(3)
  {
    BinIsUnique(HORIZON_EDGES, h, if h < 20.0 then 0 else if h < 40.0 then 1 else if h < 60.0 then 2 else 3);
  }

  lemma SpeedBinsAre(v: real)
    ensures BinOf(SPEED_EDGES, v)
            == if v < 0.0 then None else if v < 25.0 then Some(0) else if v < 75.0 then Some(1)
               else if v < 200.0 then Some(2) else Some(3)
  {
    BinIsUnique(SPEED_EDGES, v, if v < 25.0 then 0 else if v < 75.0 then 1 else if v < 200.0 then 2 else 3);
  }

  /** One sample more: its magnitude goes last into the list of every population it is of, and a joint cell
      takes it exactly when both its horizon and its speed are in the cell's ranges. */
  lemma {:induction false} SampleIsCounted(ss: seq<Sample>, x: Sample, h: nat, k: nat)
    ensures Mags(ss + [x], Swapped()) == Mags(ss, Swapped()) + (if x.swap then [x.mag] else [])
    ensures Mags(ss + [x], Unswapped()) == Mags(ss, Unswapped()) + (if x.swap then [] else [x.mag])
    ensures Mags(ss + [x], Anything()) == Mags(ss, Anything()) + [x.mag]
    ensures Cell(ss + [x], h, k)
            == Cell(ss, h, k)
               + (if (|| (h == 0 && 0.0 <= x.horizon < 20.0) || (h == 1 && 20.0 <= x.horizon < 40.0)
                      || (h == 2 && 40.0 <= x.horizon < 60.0) || (h == 3 && 60.0 <= x.horizon))
                     && (|| (k == 0 && 0.0 <= x.speed < 25.0) || (k == 1 && 25.0 <= x.speed < 75.0)
                         || (k == 2 && 75.0 <= x.speed < 200.0) || (k == 3 && 200.0 <= x.speed))
                  then [x.mag] else [])
  {
    assert (ss + [x])[..|ss|] == ss;
    CellExtends(ss, x, h, k);
    HorizonBinsAre(x.horizon);
    SpeedBinsAre(x.speed);
  }
}
