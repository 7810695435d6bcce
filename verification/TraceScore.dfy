/**
 The prediction scorer: each weave is bracketed by two reference rows, dropped for one of five reasons
 or kept, and its error counted into bins. The square root is a parameter.
 */
module TraceScore {
  import opened Common
  import opened Floats
  import TraceSpans

  datatype Vec = Vec(x: real, y: real, z: real)

  /** One reference row: when, and where the two eyes were. */
  datatype Row = Row(time: real, left: Vec, right: Vec)

  datatype Weave = Weave(scanout: Option<real>, left: Option<Vec>, right: Option<Vec>, push: real, swap: bool)

  ghost predicate Sorted(rows: seq<Row>) {
    forall i, j :: 0 <= i <= j < |rows| ==> rows[i].time <= rows[j].time
  }

  // ---- The bracket ----------------------------------------------------------------------------

  function Advance(rows: seq<Row>, t: real, i: nat): nat
    decreases |rows| - i
  {
    if i + 1 < |rows| && rows[i + 1].time <= t then Advance(rows, t, i + 1) else i
  }

  function BracketFrom(rows: seq<Row>, t: real, hint: nat): Option<nat> {
    var i := Advance(rows, t, hint);
    if i + 1 >= |rows| then None else if rows[i].time > t then None else Some(i)
  }

  predicate InBracket(rows: seq<Row>, t: real, i: nat) {
    i + 1 < |rows| && rows[i].time <= t < rows[i + 1].time
  }

  lemma {:induction false} AdvanceStops(rows: seq<Row>, t: real, i: nat)
    requires i < |rows|
    ensures var j := Advance(rows, t, i);
            && i <= j < |rows| && (j + 1 < |rows| ==> t < rows[j + 1].time)
            && (i < j ==> rows[j].time <= t)
    decreases |rows| - i
  {
    if i + 1 < |rows| && rows[i + 1].time <= t {
      AdvanceStops(rows, t, i + 1);
    }
  }

  /** From any hint at or before the instant, the bracket is the one interval that holds it. */
  lemma BracketIsTheInterval(rows: seq<Row>, t: real, hint: nat, i: nat)
    requires Sorted(rows) && hint < |rows| && (hint == 0 || rows[hint].time <= t)
    ensures BracketFrom(rows, t, hint) == Some(i) <==> InBracket(rows, t, i)
  {
    AdvanceStops(rows, t, hint);
    var j := Advance(rows, t, hint);
    if i + 1 < |rows| && i < j { assert rows[i + 1].time <= rows[j].time; }
    if j < i < |rows| { assert rows[j + 1].time <= rows[i].time; }
  }

  /** A hint changes the answer exactly when its row is past the instant and the first row is not. */
  lemma HintIsExactIff(rows: seq<Row>, t: real, hint: nat)
    requires Sorted(rows) && hint < |rows|
    ensures BracketFrom(rows, t, hint) == BracketFrom(rows, t, 0)
            <==> rows[hint].time <= t || t < rows[0].time
  {
    AdvanceStops(rows, t, hint);
    AdvanceStops(rows, t, 0);
    if rows[hint].time <= t {
      var r := BracketFrom(rows, t, 0);
      if r.Some? { BracketIsTheInterval(rows, t, hint, r.value); BracketIsTheInterval(rows, t, 0, r.value); }
      var h := BracketFrom(rows, t, hint);
      if h.Some? { BracketIsTheInterval(rows, t, hint, h.value); BracketIsTheInterval(rows, t, 0, h.value); }
    } else {
      if hint + 1 < |rows| { assert rows[hint].time <= rows[hint + 1].time; }
      assert rows[hint].time <= rows[|rows| - 1].time;
    }
  }

  // ---- Interpolation --------------------------------------------------------------------------

  function Lerp(a: real, b: real, f: real): real { a + (b - a) * f }

  function LerpVec(a: Vec, b: Vec, f: real): Vec { Vec(Lerp(a.x, b.x, f), Lerp(a.y, b.y, f), Lerp(a.z, b.z, f)) }

  /** Within a bracket the fraction is in [0, 1), so each coordinate stays between its two rows' and
      starts at the first's. */
  lemma InterpolationStaysBetween(a: real, b: real, from: real, to: real, t: real)
    requires from <= t < to
    ensures var f := (t - from) / (to - from);
            && 0.0 <= f < 1.0 && (t == from ==> Lerp(a, b, f) == a)
            && (a <= b ==> a <= Lerp(a, b, f) <= b) && (b <= a ==> b <= Lerp(a, b, f) <= a)
  {
    var f := (t - from) / (to - from);
    FractionBounds(f, to - from, t - from);
  }

  lemma FractionBounds(f: real, d: real, n: real)
    requires d > 0.0 && f * d == n && 0.0 <= n < d
    ensures 0.0 <= f < 1.0 && (n == 0.0 ==> f == 0.0)
  {
    if f < 0.0 { StrictProduct(-f, d); }
    else if f >= 1.0 { Product(f - 1.0, d); }
    else if f > 0.0 { StrictProduct(f, d); }
  }

  // ---- One weave ------------------------------------------------------------------------------

  function Mid(a: Vec, b: Vec): Vec { Vec((a.x + b.x) * 0.5, (a.y + b.y) * 0.5, (a.z + b.z) * 0.5) }

  function Diff(a: Vec, b: Vec): Vec { Vec(a.x - b.x, a.y - b.y, a.z - b.z) }

  function Square(v: Vec): real { v.x * v.x + v.y * v.y + v.z * v.z }

  /** Head speed across the bracketing pair, in millimetres a second. */
  function Speed(rows: seq<Row>, i: nat, root: real -> real): real
    requires i + 1 < |rows|
  {
    var a, b := rows[i], rows[i + 1];
    var dt := (b.time - a.time) / 1000000.0;
    if dt <= 0.0 then 0.0 else root(Square(Diff(Mid(b.left, b.right), Mid(a.left, a.right)))) / dt
  }

  datatype Sample = Sample(mid: Vec, mag: real, left: Vec, right: Vec, swap: bool, speed: real, horizon: real)

  datatype Verdict = BadRow | NoHorizon | Untracked | NoBracket | Gap | Kept(sample: Sample)

  datatype Setup = Setup(rows: seq<Row>, spans: seq<TraceSpans.Span>, tol: Option<real>, root: real -> real)

  /** Where the reference has the two eyes at instant `t`. */
  function Interp(a: Row, b: Row, t: real): (Vec, Vec)
    requires a.time < b.time
  {
    var f := (t - a.time) / (b.time - a.time);
    (LerpVec(a.left, b.left, f), LerpVec(a.right, b.right, f))
  }

  /** A weave's errors against the eyes at `l` and `r`. */
  function SampleAgainst(w: Weave, l: Vec, r: Vec, root: real -> real, speed: real): Sample
    requires w.left.Some? && w.right.Some?
  {
    var e := Diff(Mid(w.left.value, w.right.value), Mid(l, r));
    Sample(e, root(Square(e)), Diff(w.left.value, l), Diff(w.right.value, r), w.swap, speed, w.push / 1000.0)
  }

  function SampleOf(rows: seq<Row>, root: real -> real, w: Weave, i: nat): Sample
    requires i + 1 < |rows| && rows[i].time < rows[i + 1].time && w.scanout.Some? && w.left.Some? && w.right.Some?
  {
    var (l, r) := Interp(rows[i], rows[i + 1], w.scanout.value);
    SampleAgainst(w, l, r, root, Speed(rows, i, root))
  }

  /** A bracket that is found is one step; the code's second reason for no bracket, an interval that is
      not positive, comes between. */
  function Bracketed(s: Setup, i: nat, w: Weave): Verdict
    requires w.scanout.Some? && w.left.Some? && w.right.Some?
  {
    if i + 1 >= |s.rows| || s.rows[i + 1].time - s.rows[i].time <= 0.0 then NoBracket
    else if s.tol.Some? && s.rows[i + 1].time - s.rows[i].time > s.tol.value then Gap
    else Kept(SampleOf(s.rows, s.root, w, i))
  }

  ghost function Judge(s: Setup, hint: nat, w: Weave): (Verdict, nat) {
    if w.scanout.None? || w.left.None? || w.right.None? then (BadRow, hint)
    else if w.push == 0.0 then (NoHorizon, hint)
    else if TraceSpans.InAny(s.spans, w.scanout.value) then (Untracked, hint)
    else
      match BracketFrom(s.rows, w.scanout.value, hint)
      case None => (NoBracket, hint)
      case Some(i) => (Bracketed(s, i, w), i)
  }

  /** The verdicts on a run of weaves, each starting its search where the last bracket was found. */
  ghost function Verdicts(s: Setup, hint: nat, ws: seq<Weave>): seq<Verdict>
    decreases |ws|
  {
    if ws == [] then [] else
    var (v, next) := Judge(s, hint, ws[0]);
    [v] + Verdicts(s, next, ws[1..])
  }

  // ---- The hint does not matter ---------------------------------------------------------------

  ghost predicate InOrder(ws: seq<Weave>) {
    forall i, j :: 0 <= i <= j < |ws| && ws[i].scanout.Some? && ws[j].scanout.Some? ==>
                     ws[i].scanout.value <= ws[j].scanout.value
  }

  ghost predicate HintOk(s: Setup, hint: nat, ws: seq<Weave>) {
    hint == 0
    || (hint < |s.rows|
        && forall k :: 0 <= k < |ws| && ws[k].scanout.Some? ==> s.rows[hint].time <= ws[k].scanout.value)
  }

  lemma JudgeIgnoresHint(s: Setup, hint: nat, w: Weave)
    requires Sorted(s.rows)
    requires hint == 0 || (hint < |s.rows| && (w.scanout.Some? ==> s.rows[hint].time <= w.scanout.value))
    ensures Judge(s, hint, w).0 == Judge(s, 0, w).0
  {
    if w.scanout.Some? && hint > 0 {
      HintIsExactIff(s.rows, w.scanout.value, hint);
    }
  }

  /** Each verdict is the one searching from the start gives. */
  ghost predicate JudgedAfresh(s: Setup, vs: seq<Verdict>, ws: seq<Weave>) {
    |vs| == |ws| && forall k :: 0 <= k < |ws| ==> vs[k] == Judge(s, 0, ws[k]).0
  }

  /** For reference rows in order and weaves scanned out in order, carrying the bracket from weave to
      weave gives the verdict that searching from the start gives, for every weave. */
  lemma {:induction false} HintedRunIsExact(s: Setup, hint: nat, ws: seq<Weave>)
    requires Sorted(s.rows) && InOrder(ws) && HintOk(s, hint, ws)
    ensures JudgedAfresh(s, Verdicts(s, hint, ws), ws)
    decreases |ws|
  {
    if ws != [] {
      JudgeIgnoresHint(s, hint, ws[0]);
      HintedRunIsExact(s, Judge(s, hint, ws[0]).1, ws[1..]);
    }
  }

  /** The interval of a bracket is positive, so the second reason for no bracket never arises. */
  lemma BracketIsPositive(s: Setup, t: real, hint: nat, i: nat)
    requires hint < |s.rows| && BracketFrom(s.rows, t, hint) == Some(i)
    ensures i + 1 < |s.rows| && s.rows[i].time <= t < s.rows[i + 1].time
  {
    AdvanceStops(s.rows, t, hint);
  }

  // ---- Bins -----------------------------------------------------------------------------------

  /** Bin k of these edges holds v; the last one is open at the top. */
  predicate InBin(edges: seq<real>, k: nat, v: real) {
    k < |edges| && edges[k] <= v && (k + 1 < |edges| ==> v < edges[k + 1])
  }

  function BinOf(edges: seq<real>, v: real): Option<nat> { FirstBin(edges, v, 0) }

  function FirstBin(edges: seq<real>, v: real, k: nat): Option<nat>
    decreases |edges| - k
  {
    if k >= |edges| then None else if InBin(edges, k, v) then Some(k) else FirstBin(edges, v, k + 1)
  }

  ghost predicate Ascending(edges: seq<real>) {
    edges != [] && forall i, j :: 0 <= i <= j < |edges| ==> edges[i] <= edges[j]
  }

  lemma {:induction false} FirstBinFacts(edges: seq<real>, v: real, k: nat)
    requires Ascending(edges) && k < |edges| && edges[k] <= v
    ensures var r := FirstBin(edges, v, k); r.Some? && k <= r.value && InBin(edges, r.value, v)
    decreases |edges| - k
  {
    if !InBin(edges, k, v) { FirstBinFacts(edges, v, k + 1); }
  }

  lemma {:induction false} NoBinBelow(edges: seq<real>, v: real, k: nat)
    requires Ascending(edges) && v < edges[0]
    ensures FirstBin(edges, v, k).None?
    decreases |edges| - k
  {
    if k < |edges| { NoBinBelow(edges, v, k + 1); }
  }

  /** Ascending edges, repeats allowed, put a value in exactly one bin if it reaches the lowest edge, and
      in none otherwise. */
  lemma BinIsUnique(edges: seq<real>, v: real, k: nat)
    requires Ascending(edges)
    ensures BinOf(edges, v).Some? <==> edges[0] <= v
    ensures BinOf(edges, v) == Some(k) <==> InBin(edges, k, v)
  {
    if edges[0] <= v {
      FirstBinFacts(edges, v, 0);
      var r := BinOf(edges, v).value;
      if k < r { assert edges[k + 1] <= edges[r]; }
      if r < k < |edges| { assert edges[r + 1] <= edges[k]; }
    } else {
      NoBinBelow(edges, v, 0);
      if k < |edges| { assert edges[0] <= edges[k]; }
    }
  }

  const HORIZON_EDGES: seq<real> := [0.0, 20.0, 40.0, 60.0]
  const SPEED_EDGES: seq<real> := [0.0, 25.0, 75.0, 200.0]

  // ---- What the totals are --------------------------------------------------------------------

  function Samples(vs: seq<Verdict>): seq<Sample> {
    if vs == [] then [] else
    Samples(vs[..|vs| - 1]) + (if vs[|vs| - 1].Kept? then [vs[|vs| - 1].sample] else [])
  }

  function Count(vs: seq<Verdict>, v: Verdict): nat {
    if vs == [] then 0 else Count(vs[..|vs| - 1], v) + (if vs[|vs| - 1] == v then 1 else 0)
  }

  /** The error magnitudes of the samples that pass, in order. */
  function Mags(ss: seq<Sample>, p: Sample -> bool): seq<real> {
    if ss == [] then [] else
    Mags(ss[..|ss| - 1], p) + (if p(ss[|ss| - 1]) then [ss[|ss| - 1].mag] else [])
  }

  function Anything(): Sample -> bool { (x: Sample) => true }
  function Swapped(): Sample -> bool { (x: Sample) => x.swap }
  function Unswapped(): Sample -> bool { (x: Sample) => !x.swap }
  function SpeedBin(edges: seq<real>): Sample -> Option<nat> { (x: Sample) => BinOf(edges, x.speed) }
  function HorizonBin(): Sample -> Option<nat> { (x: Sample) => BinOf(HORIZON_EDGES, x.horizon) }

  /** The magnitudes of one bin, of those samples that pass `p`. */
  function Bin(ss: seq<Sample>, p: Sample -> bool, key: Sample -> Option<nat>, k: nat): seq<real> {
    if ss == [] then [] else
    var x := ss[|ss| - 1];
    Bin(ss[..|ss| - 1], p, key, k) + (if p(x) && key(x) == Some(k) then [x.mag] else [])
  }

  function InHorizon(h: nat): Sample -> bool { (x: Sample) => HorizonBin()(x) == Some(h) }

  /** A joint cell: a horizon bin and, in it, a bin of the fixed speed edges. */
  function Cell(ss: seq<Sample>, h: nat, k: nat): seq<real> { Bin(ss, InHorizon(h), SpeedBin(SPEED_EDGES), k) }

  // ---- Nothing is lost or counted twice -------------------------------------------------------

  lemma {:induction false} EveryWeaveIsCounted(vs: seq<Verdict>)
    ensures Count(vs, BadRow) + Count(vs, NoHorizon) + Count(vs, Untracked) + Count(vs, NoBracket) + Count(vs, Gap)
            + |Samples(vs)| == |vs|
  {
    if vs != [] {
      EveryWeaveIsCounted(vs[..|vs| - 1]);
    }
  }

  function Holds(mags: seq<real>, m: real): nat { multiset(mags)[m] }

  /** How often some bins together hold a magnitude. */
  function Pooled(bins: seq<seq<real>>, m: real): nat {
    if bins == [] then 0 else Pooled(bins[..|bins| - 1], m) + Holds(bins[|bins| - 1], m)
  }

  /** The n bins of the samples that pass. */
  function BinList(ss: seq<Sample>, p: Sample -> bool, key: Sample -> Option<nat>, n: nat): seq<seq<real>> {
    seq(n, (k: int) requires 0 <= k => Bin(ss, p, key, k))
  }

  lemma {:induction false} EmptyPool(bins: seq<seq<real>>, m: real)
    requires forall k :: 0 <= k < |bins| ==> bins[k] == []
    ensures Pooled(bins, m) == 0
  {
    if bins != [] { EmptyPool(bins[..|bins| - 1], m); }
  }

  /** One more magnitude in bin `at`, if there is such a bin, is one more in the pool. */
  lemma {:induction false} PoolGrows(bins: seq<seq<real>>, more: seq<seq<real>>, at: Option<nat>, m: real)
    requires |bins| == |more|
    requires forall k :: 0 <= k < |bins| ==> Holds(more[k], m) == Holds(bins[k], m) + (if at == Some(k) then 1 else 0)
    ensures Pooled(more, m) == Pooled(bins, m) + (if at.Some? && at.value < |bins| then 1 else 0)
  {
    if bins != [] {
      PoolGrows(bins[..|bins| - 1], more[..|bins| - 1], at, m);
    }
  }

  /** Where x adds a magnitude m. */
  function Lands(x: Sample, p: Sample -> bool, key: Sample -> Option<nat>, m: real): Option<nat> {
    if p(x) && x.mag == m then key(x) else None
  }

  lemma {:induction false} BinGrows(ss: seq<Sample>, p: Sample -> bool, key: Sample -> Option<nat>, k: nat, m: real)
    requires ss != []
    ensures Holds(Bin(ss, p, key, k), m)
            == Holds(Bin(ss[..|ss| - 1], p, key, k), m)
               + (if Lands(ss[|ss| - 1], p, key, m) == Some(k) then 1 else 0)
  {
  }

  /** Bins partition: when every sample that passes falls in one of n bins, the bins together hold its
      magnitudes exactly, each as often as it occurs. */
  lemma {:induction false} BinsPartition(ss: seq<Sample>, p: Sample -> bool, key: Sample -> Option<nat>, n: nat,
                                         m: real)
    requires forall k :: 0 <= k < |ss| && p(ss[k]) ==> key(ss[k]).Some? && key(ss[k]).value < n
    ensures Pooled(BinList(ss, p, key, n), m) == Holds(Mags(ss, p), m)
  {
    if ss == [] {
      EmptyPool(BinList(ss, p, key, n), m);
    } else {
      var prev, x := ss[..|ss| - 1], ss[|ss| - 1];
      BinsPartition(prev, p, key, n, m);
      forall k: nat | k < n
        ensures Holds(BinList(ss, p, key, n)[k], m)
                == Holds(BinList(prev, p, key, n)[k], m) + (if Lands(x, p, key, m) == Some(k) then 1 else 0)
      {
        BinGrows(ss, p, key, k, m);
      }
      PoolGrows(BinList(prev, p, key, n), BinList(ss, p, key, n), Lands(x, p, key, m), m);
    }
  }

  ghost predicate Scored(ss: seq<Sample>) {
    forall k :: 0 <= k < |ss| ==> ss[k].horizon > 0.0 && ss[k].speed >= 0.0
  }

  lemma FallsIn(edges: seq<real>, v: real)
    requires Ascending(edges) && edges[0] <= v
    ensures BinOf(edges, v).Some? && BinOf(edges, v).value < |edges|
  {
    FirstBinFacts(edges, v, 0);
  }

  /** With positive pushes, the horizon bins partition the kept samples. */
  lemma {:induction false} HorizonsPartition(ss: seq<Sample>, m: real)
    requires Scored(ss)
    ensures Pooled(BinList(ss, Anything(), HorizonBin(), 4), m) == Holds(Mags(ss, Anything()), m)
  {
    forall k | 0 <= k < |ss|
      ensures HorizonBin()(ss[k]).Some? && HorizonBin()(ss[k]).value < 4
    {
      FallsIn(HORIZON_EDGES, ss[k].horizon);
    }
    BinsPartition(ss, Anything(), HorizonBin(), 4, m);
  }

  /** So do the speed bins of any ascending edges from 0 or below. */
  lemma {:induction false} SpeedsPartition(ss: seq<Sample>, p: Sample -> bool, edges: seq<real>, m: real)
    requires Scored(ss) && Ascending(edges) && edges[0] <= 0.0
    ensures Pooled(BinList(ss, p, SpeedBin(edges), |edges|), m) == Holds(Mags(ss, p), m)
  {
    forall k | 0 <= k < |ss|
      ensures SpeedBin(edges)(ss[k]).Some? && SpeedBin(edges)(ss[k]).value < |edges|
    {
      FallsIn(edges, ss[k].speed);
    }
    BinsPartition(ss, p, SpeedBin(edges), |edges|, m);
  }

  lemma {:induction false} CellList(ss: seq<Sample>, h: nat)
    ensures BinList(ss, InHorizon(h), SpeedBin(SPEED_EDGES), 4)
            == [Cell(ss, h, 0), Cell(ss, h, 1), Cell(ss, h, 2), Cell(ss, h, 3)]
  {
  }

  /** And each horizon bin is partitioned by its own four speed cells. */
  lemma {:induction false} CellsPartition(ss: seq<Sample>, h: nat, m: real)
    requires Scored(ss)
    ensures Pooled([Cell(ss, h, 0), Cell(ss, h, 1), Cell(ss, h, 2), Cell(ss, h, 3)], m)
            == Holds(Bin(ss, Anything(), HorizonBin(), h), m)
  {
    SpeedsPartition(ss, InHorizon(h), SPEED_EDGES, m);
    HorizonBinIs(ss, h);
    CellList(ss, h);
  }

  lemma {:induction false} AllMags(ss: seq<Sample>)
    ensures |Mags(ss, Anything())| == |ss|
    ensures forall k :: 0 <= k < |ss| ==> Mags(ss, Anything())[k] == ss[k].mag
  {
    if ss != [] { AllMags(ss[..|ss| - 1]); }
  }

  /** A kept weave is in a horizon bin exactly when its push is positive. */
  lemma HorizonBinIff(s: Setup, i: nat, w: Weave)
    requires w.scanout.Some? && w.left.Some? && w.right.Some? && Bracketed(s, i, w).Kept? && w.push != 0.0
    ensures HorizonBin()(Bracketed(s, i, w).sample).Some? <==> w.push > 0.0
  {
    BinIsUnique(HORIZON_EDGES, w.push / 1000.0, 0);
  }

  lemma {:induction false} EyesAreSplit(ss: seq<Sample>)
    ensures |Mags(ss, Swapped())| + |Mags(ss, Unswapped())| == |ss|
  {
    if ss != [] { EyesAreSplit(ss[..|ss| - 1]); }
  }

  /** The midpoint error does not see the getter's left and right swapped. */
  lemma MidpointIgnoresTheSwap(rows: seq<Row>, root: real -> real, w: Weave, i: nat)
    requires i + 1 < |rows| && rows[i].time < rows[i + 1].time && w.scanout.Some? && w.left.Some? && w.right.Some?
    ensures var other := w.(left := w.right, right := w.left, swap := !w.swap);
            && SampleOf(rows, root, other, i).mid == SampleOf(rows, root, w, i).mid
            && SampleOf(rows, root, other, i).mag == SampleOf(rows, root, w, i).mag
  {
  }

  /** A horizon bin holds the samples whose cells are the cells of that bin. */
  lemma {:induction false} HorizonBinIs(ss: seq<Sample>, h: nat)
    ensures Bin(ss, Anything(), HorizonBin(), h) == Mags(ss, InHorizon(h))
  {
    if ss != [] { HorizonBinIs(ss[..|ss| - 1], h); }
  }

  ghost predicate ScoredVerdicts(vs: seq<Verdict>) {
    forall k :: 0 <= k < |vs| && vs[k].Kept? ==> vs[k].sample.horizon > 0.0 && vs[k].sample.speed >= 0.0
  }

  lemma {:induction false} SamplesAreScored(vs: seq<Verdict>)
    requires ScoredVerdicts(vs)
    ensures Scored(Samples(vs))
  {
    if vs != [] {
      SamplesAreScored(vs[..|vs| - 1]);
    }
  }

  lemma SpeedIsNotNegative(rows: seq<Row>, i: nat, root: real -> real)
    requires i + 1 < |rows| && forall x: real :: root(x) >= 0.0
    ensures Speed(rows, i, root) >= 0.0
  {
    var d := (rows[i + 1].time - rows[i].time) / 1000000.0;
    if d > 0.0 { QuotientIsNotNegative(root(Square(Diff(Mid(rows[i + 1].left, rows[i + 1].right),
                                                        Mid(rows[i].left, rows[i].right)))), d); }
  }

  lemma JudgedIsScored(s: Setup, hint: nat, w: Weave)
    requires w.push >= 0.0 && forall x: real :: s.root(x) >= 0.0
    ensures var v := Judge(s, hint, w).0; v.Kept? ==> v.sample.horizon > 0.0 && v.sample.speed >= 0.0
  {
    if Judge(s, hint, w).0.Kept? {
      SpeedIsNotNegative(s.rows, BracketFrom(s.rows, w.scanout.value, hint).value, s.root);
    }
  }

  ghost predicate PushesForward(ws: seq<Weave>) {
    forall k :: 0 <= k < |ws| ==> ws[k].push >= 0.0
  }

  /** Weaves whose pushes are not negative (0 is a weave without a horizon) leave samples that the
      partition above is about. */
  lemma {:induction false} VerdictsAreScored(s: Setup, hint: nat, ws: seq<Weave>)
    requires PushesForward(ws) && forall x: real :: s.root(x) >= 0.0
    ensures ScoredVerdicts(Verdicts(s, hint, ws))
    decreases |ws|
  {
    if ws != [] {
      JudgedIsScored(s, hint, ws[0]);
      VerdictsAreScored(s, Judge(s, hint, ws[0]).1, ws[1..]);
    }
  }

  // ---- The script's own loops -----------------------------------------------------------------

  /** bracket. */
  method Bracket(rows: seq<Row>, t: real, hint: nat) returns (r: Option<nat>)
    ensures r == BracketFrom(rows, t, hint)
  {
    var i := hint;
    while i + 1 < |rows| && rows[i + 1].time <= t
      invariant Advance(rows, t, i) == Advance(rows, t, hint)
      decreases |rows| - i
    {
      i := i + 1;
    }
    if i + 1 >= |rows| { return None; }
    if rows[i].time > t { return None; }
    return Some(i);
  }

  /** _bin_index. */
  method BinIndex(edges: seq<real>, v: real) returns (r: Option<nat>)
    ensures r == BinOf(edges, v)
  {
    var k := 0;
    while k < |edges|
      invariant 0 <= k <= |edges| && FirstBin(edges, v, k) == BinOf(edges, v)
    {
      if edges[k] <= v && (k + 1 < |edges| ==> v < edges[k + 1]) { return Some(k); }
      k := k + 1;
    }
    return None;
  }

  /** The loop that appends to the first bin that holds `v`. */
  method AddToBin(bins: seq<seq<real>>, edges: seq<real>, v: real, mag: real) returns (r: seq<seq<real>>)
    requires |bins| == |edges|
    ensures |r| == |bins|
    ensures forall k :: 0 <= k < |bins| ==> r[k] == bins[k] + (if BinOf(edges, v) == Some(k) then [mag] else [])
  {
    r := bins;
    var k := 0;
    while k < |edges|
      invariant 0 <= k <= |edges| && r == bins && FirstBin(edges, v, k) == BinOf(edges, v)
    {
      if InBin(edges, k, v) {
        r := r[k := r[k] + [mag]];
        return;
      }
      k := k + 1;
    }
  }

  method JudgeOne(s: Setup, hint: nat, w: Weave) returns (v: Verdict, next: nat)
    ensures (v, next) == Judge(s, hint, w)
  {
    next := hint;
    if w.scanout.None? || w.left.None? || w.right.None? { return BadRow, next; }
    if w.push == 0.0 { return NoHorizon, next; }
    var untracked := TraceSpans.InAnySpan(w.scanout.value, s.spans);
    if untracked { return Untracked, next; }
    var i := Bracket(s.rows, w.scanout.value, hint);
    if i.None? { return NoBracket, next; }
    next := i.value;
    v := Bracketed(s, next, w);
  }

  datatype Totals = Totals(
    kept: nat, bad: nat, noHorizon: nat, untracked: nat, noBracket: nat, gap: nat,
    swapped: nat, unswapped: nat, mags: seq<real>, speed: seq<seq<real>>, horizon: seq<seq<real>>,
    cells: map<(nat, nat), seq<real>>)

  ghost predicate BinsAre(bins: seq<seq<real>>, ss: seq<Sample>, key: Sample -> Option<nat>, n: nat) {
    |bins| == n && forall k :: 0 <= k < n ==> bins[k] == Bin(ss, Anything(), key, k)
  }

  lemma BinsAreTheList(bins: seq<seq<real>>, ss: seq<Sample>, key: Sample -> Option<nat>, n: nat)
    requires BinsAre(bins, ss, key, n)
    ensures bins == BinList(ss, Anything(), key, n)
  {
  }

  ghost predicate CellsAre(cells: map<(nat, nat), seq<real>>, ss: seq<Sample>) {
    forall h: nat, k: nat :: (if (h, k) in cells then cells[(h, k)] else []) == Cell(ss, h, k)
  }

  ghost predicate CountsAre(t: Totals, vs: seq<Verdict>) {
    && t.kept == |Samples(vs)| && t.bad == Count(vs, BadRow) && t.noHorizon == Count(vs, NoHorizon)
    && t.untracked == Count(vs, Untracked) && t.noBracket == Count(vs, NoBracket) && t.gap == Count(vs, Gap)
  }

  ghost predicate BinnedAs(t: Totals, ss: seq<Sample>, edges: seq<real>) {
    && t.swapped == |Mags(ss, Swapped())| && t.unswapped == |Mags(ss, Unswapped())|
    && t.mags == Mags(ss, Anything()) && BinsAre(t.speed, ss, SpeedBin(edges), |edges|)
    && BinsAre(t.horizon, ss, HorizonBin(), 4) && CellsAre(t.cells, ss)
  }

  lemma BinsExtend(bins: seq<seq<real>>, more: seq<seq<real>>, ss: seq<Sample>, x: Sample,
                   key: Sample -> Option<nat>, n: nat)
    requires BinsAre(bins, ss, key, n) && |more| == n
    requires forall k :: 0 <= k < n ==> more[k] == bins[k] + (if key(x) == Some(k) then [x.mag] else [])
    ensures BinsAre(more, ss + [x], key, n)
  {
    assert (ss + [x])[..|ss|] == ss;
  }

  lemma CellExtends(ss: seq<Sample>, x: Sample, h: nat, k: nat)
    ensures Cell(ss + [x], h, k)
            == Cell(ss, h, k)
               + (if HorizonBin()(x) == Some(h) && SpeedBin(SPEED_EDGES)(x) == Some(k) then [x.mag] else [])
  {
    assert (ss + [x])[..|ss|] == ss;
  }

  /** The joint cell of a kept sample. */
  method AddToCell(cells: map<(nat, nat), seq<real>>, ghost ss: seq<Sample>, x: Sample)
    returns (r: map<(nat, nat), seq<real>>)
    requires CellsAre(cells, ss)
    ensures CellsAre(r, ss + [x])
  {
    r := cells;
    var hk := BinIndex(HORIZON_EDGES, x.horizon);
    var sk := BinIndex(SPEED_EDGES, x.speed);
    if hk.Some? && sk.Some? {
      var c := (hk.value, sk.value);
      r := cells[c := (if c in cells then cells[c] else []) + [x.mag]];
    }
    forall h: nat, k: nat ensures (if (h, k) in r then r[(h, k)] else []) == Cell(ss + [x], h, k) {
      CellExtends(ss, x, h, k);
    }
  }

  method AddSample(t: Totals, ghost ss: seq<Sample>, x: Sample, edges: seq<real>) returns (r: Totals)
    requires BinnedAs(t, ss, edges)
    ensures BinnedAs(r, ss + [x], edges)
    ensures r == t.(swapped := r.swapped, unswapped := r.unswapped, mags := r.mags, speed := r.speed,
                    horizon := r.horizon, cells := r.cells)
  {
    assert (ss + [x])[..|ss|] == ss;
    var speed := AddToBin(t.speed, edges, x.speed, x.mag);
    BinsExtend(t.speed, speed, ss, x, SpeedBin(edges), |edges|);
    var horizon := AddToBin(t.horizon, HORIZON_EDGES, x.horizon, x.mag);
    BinsExtend(t.horizon, horizon, ss, x, HorizonBin(), 4);
    var cells := AddToCell(t.cells, ss, x);
    r := t.(mags := t.mags + [x.mag], speed := speed, horizon := horizon, cells := cells);
    if x.swap { r := r.(swapped := t.swapped + 1); } else { r := r.(unswapped := t.unswapped + 1); }
  }

  lemma {:induction false} SamplesExtend(vs: seq<Verdict>, v: Verdict)
    ensures Samples(vs + [v]) == if v.Kept? then Samples(vs) + [v.sample] else Samples(vs)
  {
    assert (vs + [v])[..|vs|] == vs;
  }

  lemma CountsExtend(t: Totals, r: Totals, vs: seq<Verdict>, v: Verdict)
    requires CountsAre(t, vs)
    requires r.kept == t.kept + (if v.Kept? then 1 else 0) && r.bad == t.bad + (if v.BadRow? then 1 else 0)
    requires r.noHorizon == t.noHorizon + (if v.NoHorizon? then 1 else 0)
    requires r.untracked == t.untracked + (if v.Untracked? then 1 else 0)
    requires r.noBracket == t.noBracket + (if v.NoBracket? then 1 else 0) && r.gap == t.gap + (if v.Gap? then 1 else 0)
    ensures CountsAre(r, vs + [v])
  {
    assert (vs + [v])[..|vs|] == vs;
    SamplesExtend(vs, v);
  }

  method AddVerdict(t: Totals, ghost vs: seq<Verdict>, v: Verdict, edges: seq<real>) returns (r: Totals)
    requires CountsAre(t, vs) && BinnedAs(t, Samples(vs), edges)
    ensures CountsAre(r, vs + [v]) && BinnedAs(r, Samples(vs + [v]), edges)
  {
    SamplesExtend(vs, v);
    match v {
      case BadRow => r := t.(bad := t.bad + 1);
      case NoHorizon => r := t.(noHorizon := t.noHorizon + 1);
      case Untracked => r := t.(untracked := t.untracked + 1);
      case NoBracket => r := t.(noBracket := t.noBracket + 1);
      case Gap => r := t.(gap := t.gap + 1);
      case Kept(x) =>
        r := AddSample(t, Samples(vs), x, edges);
        r := r.(kept := t.kept + 1);
    }
    CountsExtend(t, r, vs, v);
  }

  lemma {:induction false} VerdictsSplit(s: Setup, hint: nat, ws: seq<Weave>, k: nat, done: seq<Verdict>)
    requires k < |ws|
    ensures var (v, next) := Judge(s, hint, ws[k]);
            done + Verdicts(s, hint, ws[k..]) == (done + [v]) + Verdicts(s, next, ws[k + 1..])
  {
    assert ws[k..][0] == ws[k] && ws[k..][1..] == ws[k + 1..];
  }

  /** The totals are those of the verdicts on these weaves. */
  ghost predicate TotalsOf(t: Totals, s: Setup, ws: seq<Weave>, edges: seq<real>) {
    CountsAre(t, Verdicts(s, 0, ws)) && BinnedAs(t, Samples(Verdicts(s, 0, ws)), edges)
  }

  /** The horizon bins, and the speed bins, hold exactly the kept magnitudes. */
  ghost predicate Partitioned(t: Totals) {
    forall m: real :: Pooled(t.horizon, m) == Holds(t.mags, m) && Pooled(t.speed, m) == Holds(t.mags, m)
  }

  /** score_trace: the totals are those of the verdicts, and every weave is counted once. */
  method ScoreTrace(s: Setup, ws: seq<Weave>, edges: seq<real>) returns (t: Totals)
    ensures TotalsOf(t, s, ws, edges)
  {
    t := Totals(0, 0, 0, 0, 0, 0, 0, 0, [], seq(|edges|, _ => []), seq(4, _ => []), map[]);
    var hint, k := 0, 0;
    ghost var done: seq<Verdict> := [];
    while k < |ws|
      invariant 0 <= k <= |ws| && done + Verdicts(s, hint, ws[k..]) == Verdicts(s, 0, ws)
      invariant CountsAre(t, done) && BinnedAs(t, Samples(done), edges)
    {
      VerdictsSplit(s, hint, ws, k, done);
      var v;
      v, hint := JudgeOne(s, hint, ws[k]);
      t := AddVerdict(t, done, v, edges);
      done := done + [v];
      k := k + 1;
    }
    assert done + [] == done;
  }

  lemma {:induction false} VerdictsLength(s: Setup, hint: nat, ws: seq<Weave>)
    ensures |Verdicts(s, hint, ws)| == |ws|
    decreases |ws|
  {
    if ws != [] { VerdictsLength(s, Judge(s, hint, ws[0]).1, ws[1..]); }
  }

  /** Kept and dropped together are all the weaves, and the two swap populations all the kept; and when
      no push is negative, the horizon bins, and the speed bins of edges as the script prepares them,
      each hold exactly the kept magnitudes. */
  method ScoreAll(s: Setup, ws: seq<Weave>, edges: seq<real>) returns (t: Totals)
    requires forall x: real :: s.root(x) >= 0.0
    ensures TotalsOf(t, s, ws, edges)
    ensures t.kept + t.bad + t.noHorizon + t.untracked + t.noBracket + t.gap == |ws|
    ensures t.swapped + t.unswapped == t.kept == |t.mags|
    ensures PushesForward(ws) && Ascending(edges) && edges[0] <= 0.0 ==> Partitioned(t)
  {
    t := ScoreTrace(s, ws, edges);
    ghost var vs := Verdicts(s, 0, ws);
    VerdictsLength(s, 0, ws);
    EveryWeaveIsCounted(vs);
    EyesAreSplit(Samples(vs));
    AllMags(Samples(vs));
    if PushesForward(ws) && Ascending(edges) && edges[0] <= 0.0 {
      VerdictsAreScored(s, 0, ws);
      SamplesAreScored(vs);
      TotalsPartition(t, Samples(vs), edges);
    }
  }

  lemma TotalsPartition(t: Totals, ss: seq<Sample>, edges: seq<real>)
    requires BinnedAs(t, ss, edges) && Scored(ss) && Ascending(edges) && edges[0] <= 0.0
    ensures Partitioned(t)
  {
    BinsAreTheList(t.speed, ss, SpeedBin(edges), |edges|);
    BinsAreTheList(t.horizon, ss, HorizonBin(), 4);
    forall m: real ensures Pooled(t.horizon, m) == Holds(t.mags, m) && Pooled(t.speed, m) == Holds(t.mags, m) {
      HorizonsPartition(ss, m);
      SpeedsPartition(ss, Anything(), edges, m);
    }
  }
}
