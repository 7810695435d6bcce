/**
 The scorer's statistics over reals. The square root is a parameter, known by what it squares to.
 */
module TraceStats {
  import opened Common
  import opened Floats

  /** `root` is the square root on the numbers that have one. */
  ghost predicate IsRoot(root: real -> real) {
    forall x: real :: x >= 0.0 ==> IsRootOf(root(x), x)
  }

  predicate IsRootOf(r: real, x: real) { r >= 0.0 && r * r == x && (x > 0.0 ==> r > 0.0) }

  function Sum(s: seq<real>): real { if s == [] then 0.0 else s[0] + Sum(s[1..]) }

  /** The products of two sequences, as far as both go. */
  function Dot(a: seq<real>, b: seq<real>): real {
    if a == [] || b == [] then 0.0 else a[0] * b[0] + Dot(a[1..], b[1..])
  }

  function Minus(s: seq<real>, m: real): seq<real> { if s == [] then [] else [s[0] - m] + Minus(s[1..], m) }

  function Mean(s: seq<real>): real
    requires s != []
  {
    Sum(s) / |s| as real
  }

  function MeanSquare(s: seq<real>): real
    requires s != []
  {
    Dot(s, s) / |s| as real
  }

  /** The population variance: the mean square of the deviations from the mean. */
  function Variance(s: seq<real>): real
    requires s != []
  {
    Dot(Minus(s, Mean(s)), Minus(s, Mean(s))) / |s| as real
  }

  datatype Stats = Stats(n: nat, mean: real, rms: real, sd: real)

  function StatsOf(s: seq<real>, root: real -> real): Option<Stats> {
    if s == [] then None
    else Some(Stats(|s|, Mean(s), root(MeanSquare(s)), if |s| > 1 then root(Variance(s)) else 0.0))
  }

  lemma {:induction false} MinusLength(s: seq<real>, m: real)
    ensures |Minus(s, m)| == |s|
  {
    if s != [] { MinusLength(s[1..], m); }
  }

  lemma {:induction false} SquaredDeviations(s: seq<real>, m: real)
    ensures Dot(Minus(s, m), Minus(s, m)) == Dot(s, s) - 2.0 * m * Sum(s) + |s| as real * (m * m)
  {
    if s != [] {
      var rest := s[1..];
      SquaredDeviations(rest, m);
      assert Minus(s, m)[1..] == Minus(rest, m) && Minus(s, m)[0] == s[0] - m;
      assert |s| as real == |rest| as real + 1.0;
    }
  }

  lemma {:induction false} SquaresAreNotNegative(s: seq<real>)
    ensures Dot(s, s) >= 0.0
  {
    if s != [] {
      SquareIsNotNegative(s[0]);
      SquaresAreNotNegative(s[1..]);
    }
  }

  lemma SquareIsNotNegative(x: real)
    ensures x * x >= 0.0
  {
    if x >= 0.0 { Product(x, x); } else { Product(-x, -x); }
  }

  lemma Reduce(n: real, sum: real, m: real, dot: real, dev: real)
    requires m * n == sum && dev == dot - 2.0 * m * sum + n * (m * m)
    ensures dot == dev + n * (m * m)
  {
    assert 2.0 * m * sum == 2.0 * (n * (m * m));
  }

  lemma OverCount(n: real, q: real, dot: real, dev: real)
    requires n > 0.0 && dot == dev + n * q
    ensures dot / n == q + dev / n
  {
    OverSum(dev, n * q, n);
    OverItself(q, n);
  }

  lemma OverSum(a: real, b: real, n: real)
    requires n > 0.0
    ensures (a + b) / n == a / n + b / n
  {
  }

  lemma OverItself(q: real, n: real)
    requires n > 0.0
    ensures n * q / n == q
  {
  }

  lemma {:induction false} MeanIs(s: seq<real>)
    requires s != []
    ensures Mean(s) * |s| as real == Sum(s)
  {
  }

  lemma {:induction false} DevIs(s: seq<real>, m: real)
    requires m * |s| as real == Sum(s)
    ensures Dot(s, s) == Dot(Minus(s, m), Minus(s, m)) + |s| as real * (m * m)
  {
    SquaredDeviations(s, m);
    Reduce(|s| as real, Sum(s), m, Dot(s, s), Dot(Minus(s, m), Minus(s, m)));
  }

  lemma {:induction false} SplitsAround(s: seq<real>, m: real)
    requires s != [] && m * |s| as real == Sum(s)
    ensures Dot(s, s) / |s| as real == m * m + Dot(Minus(s, m), Minus(s, m)) / |s| as real
  {
    DevIs(s, m);
    OverCount(|s| as real, m * m, Dot(s, s), Dot(Minus(s, m), Minus(s, m)));
  }

  lemma {:induction false} NotNegativeOver(s: seq<real>, n: real)
    requires n > 0.0
    ensures Dot(s, s) / n >= 0.0
  {
    SquaresAreNotNegative(s);
    QuotientIsNotNegative(Dot(s, s), n);
  }

  lemma {:induction false} SquaresSplit(s: seq<real>, m: real, v: real)
    requires s != [] && m == Mean(s) && v == Dot(Minus(s, m), Minus(s, m)) / |s| as real
    ensures MeanSquare(s) == m * m + v
  {
    MeanIs(s);
    SplitsAround(s, m);
  }

  lemma {:induction false} NeitherIsNegative(s: seq<real>)
    requires s != []
    ensures Variance(s) >= 0.0 && MeanSquare(s) >= 0.0
  {
    NotNegativeOver(s, |s| as real);
    NotNegativeOver(Minus(s, Mean(s)), |s| as real);
  }

  /** The mean square is the square of the mean plus the variance, and neither is negative. */
  lemma {:induction false} MeanSquareSplits(s: seq<real>)
    requires s != []
    ensures MeanSquare(s) == Mean(s) * Mean(s) + Variance(s) && Variance(s) >= 0.0 && MeanSquare(s) >= 0.0
  {
    SquaresSplit(s, Mean(s), Variance(s));
    NeitherIsNegative(s);
  }

  lemma NoSpread(s: seq<real>)
    requires |s| == 1
    ensures Variance(s) == 0.0
  {
    var d := Minus(s, Mean(s));
    assert Sum(s) == s[0] + Sum(s[1..]) && s[1..] == [];
    assert Mean(s) == s[0];
    assert Minus(s[1..], Mean(s)) == [];
    assert d == [0.0];
    assert Dot(d, d) == d[0] * d[0] + Dot(d[1..], d[1..]);
  }

  /** rms^2 = mean^2 + sd^2, so the rms is at least the size of the mean, and equals it exactly when
      nothing deviates. */
  lemma RmsSplits(s: seq<real>, root: real -> real)
    requires s != [] && IsRoot(root)
    ensures var t := StatsOf(s, root).value;
            && t.rms * t.rms == t.mean * t.mean + t.sd * t.sd
            && t.rms >= t.mean && t.rms >= -t.mean && t.sd >= 0.0
            && (t.rms == t.mean || t.rms == -t.mean <==> Variance(s) == 0.0)
  {
    MeanSquareSplits(s);
    if |s| == 1 { NoSpread(s); }
    var t := StatsOf(s, root).value;
    assert t.sd * t.sd == Variance(s);
    SquareIsNotNegative(t.sd);
    AtLeast(t.rms, t.mean);
    SameSquare(t.rms, t.mean, Variance(s));
  }

  lemma SameSquare(a: real, b: real, v: real)
    requires a * a == b * b + v
    ensures a == b || a == -b <==> v == 0.0
  {
    assert (a - b) * (a + b) == v;
    if a != b && a != -b { NoZeroProduct(a - b, a + b); }
  }

  lemma NoZeroProduct(a: real, b: real)
    requires a != 0.0 && b != 0.0
    ensures a * b != 0.0
  {
    if a > 0.0 && b > 0.0 { StrictProduct(a, b); }
    if a > 0.0 && b < 0.0 { StrictProduct(a, -b); }
    if a < 0.0 && b > 0.0 { StrictProduct(-a, b); }
    if a < 0.0 && b < 0.0 { StrictProduct(-a, -b); }
  }

  lemma AtLeastItself(a: real, b: real)
    requires a >= 0.0 && a * a >= b * b
    ensures a >= b
  {
    if a < b {
      Product(a, b - a);
      StrictProduct(b - a, b);
    }
  }

  lemma AtLeast(a: real, b: real)
    requires a >= 0.0 && a * a >= b * b
    ensures a >= b && a >= -b
  {
    assert (-b) * (-b) == b * b;
    AtLeastItself(a, b);
    AtLeastItself(a, -b);
  }

  // ---- Correlation ----------------------------------------------------------------------------

  function Combine(a: seq<real>, b: seq<real>, u: real, v: real): seq<real>
    requires |a| == |b|
  {
    if a == [] then [] else [u * a[0] - v * b[0]] + Combine(a[1..], b[1..], u, v)
  }

  lemma Quadratic(x: real, y: real, u: real, v: real)
    ensures (u * x - v * y) * (u * x - v * y) == u * u * (x * x) - 2.0 * (u * v) * (x * y) + v * v * (y * y)
  {
  }

  function Form(u: real, v: real, aa: real, ab: real, bb: real): real {
    u * u * aa - 2.0 * (u * v) * ab + v * v * bb
  }

  lemma Assemble(u: real, v: real, x: real, y: real, aa: real, ab: real, bb: real)
    ensures (u * x - v * y) * (u * x - v * y) + Form(u, v, aa, ab, bb) == Form(u, v, x * x + aa, x * y + ab, y * y + bb)
  {
    Quadratic(x, y, u, v);
  }

  lemma {:induction false} Heads(a: seq<real>, b: seq<real>)
    requires a != [] && b != []
    ensures Dot(a, b) == a[0] * b[0] + Dot(a[1..], b[1..])
  {
  }

  lemma {:induction false} CombinedHead(a: seq<real>, b: seq<real>, u: real, v: real)
    requires |a| == |b| && a != []
    ensures var c, d, r := Combine(a, b, u, v), u * a[0] - v * b[0], Combine(a[1..], b[1..], u, v);
            Dot(c, c) == d * d + Dot(r, r)
  {
    var c, r := Combine(a, b, u, v), Combine(a[1..], b[1..], u, v);
    assert c[0] == u * a[0] - v * b[0] && c[1..] == r;
    Heads(c, c);
  }

  /** The four sums of products, before and after one more pair. */
  ghost predicate OneMore(u: real, v: real, x: real, y: real, aa: real, ab: real, bb: real, cc: real,
                          aa1: real, ab1: real, bb1: real, cc1: real) {
    aa1 == x * x + aa && ab1 == x * y + ab && bb1 == y * y + bb && cc1 == (u * x - v * y) * (u * x - v * y) + cc
  }

  /** One more pair, given the sums of the pair's products before and after it. */
  lemma OneMorePair(u: real, v: real, x: real, y: real, aa: real, ab: real, bb: real, cc: real,
                    aa1: real, ab1: real, bb1: real, cc1: real)
    requires cc == Form(u, v, aa, ab, bb) && OneMore(u, v, x, y, aa, ab, bb, cc, aa1, ab1, bb1, cc1)
    ensures cc1 == Form(u, v, aa1, ab1, bb1)
  {
    Assemble(u, v, x, y, aa, ab, bb);
  }

  lemma {:induction false} SumsGrow(a: seq<real>, b: seq<real>, u: real, v: real)
    requires |a| == |b| && a != []
    ensures var a1, b1, c, c1 := a[1..], b[1..], Combine(a, b, u, v), Combine(a[1..], b[1..], u, v);
            OneMore(u, v, a[0], b[0], Dot(a1, a1), Dot(a1, b1), Dot(b1, b1), Dot(c1, c1),
                    Dot(a, a), Dot(a, b), Dot(b, b), Dot(c, c))
  {
    CombinedHead(a, b, u, v);
    Heads(a, a);
    Heads(a, b);
    Heads(b, b);
  }

  lemma {:induction false} CombinedSquares(a: seq<real>, b: seq<real>, u: real, v: real)
    requires |a| == |b|
    ensures Dot(Combine(a, b, u, v), Combine(a, b, u, v)) == Form(u, v, Dot(a, a), Dot(a, b), Dot(b, b))
  {
    if a != [] {
      var a1, b1, c, c1 := a[1..], b[1..], Combine(a, b, u, v), Combine(a[1..], b[1..], u, v);
      CombinedSquares(a1, b1, u, v);
      SumsGrow(a, b, u, v);
      OneMorePair(u, v, a[0], b[0], Dot(a1, a1), Dot(a1, b1), Dot(b1, b1), Dot(c1, c1),
                  Dot(a, a), Dot(a, b), Dot(b, b), Dot(c, c));
    }
  }

  lemma {:induction false} FormIsNotNegative(a: seq<real>, b: seq<real>, u: real, v: real)
    requires |a| == |b|
    ensures Form(u, v, Dot(a, a), Dot(a, b), Dot(b, b)) >= 0.0
  {
    CombinedSquares(a, b, u, v);
    SquaresAreNotNegative(Combine(a, b, u, v));
  }

  lemma Factor(aa: real, ab: real, bb: real)
    requires bb > 0.0 && Form(bb, ab, aa, ab, bb) >= 0.0
    ensures ab * ab <= aa * bb
  {
    assert Form(bb, ab, aa, ab, bb) == bb * (aa * bb - ab * ab);
    if aa * bb - ab * ab < 0.0 { StrictProduct(bb, ab * ab - aa * bb); }
  }

  lemma Vanishes(aa: real, ab: real, v: real)
    requires ab != 0.0 && v == (aa + 1.0) / (2.0 * ab)
    ensures Form(1.0, v, aa, ab, 0.0) == -1.0
  {
    assert v * (2.0 * ab) == aa + 1.0;
  }

  /** The Cauchy-Schwarz inequality. */
  lemma {:induction false} CauchySchwarz(a: seq<real>, b: seq<real>)
    requires |a| == |b|
    ensures Dot(a, b) * Dot(a, b) <= Dot(a, a) * Dot(b, b)
  {
    var aa, ab, bb := Dot(a, a), Dot(a, b), Dot(b, b);
    SquaresAreNotNegative(b);
    if bb > 0.0 {
      FormIsNotNegative(a, b, bb, ab);
      Factor(aa, ab, bb);
    } else if ab != 0.0 {
      var v := (aa + 1.0) / (2.0 * ab);
      FormIsNotNegative(a, b, 1.0, v);
      Vanishes(aa, ab, v);
    }
  }

  function Correlation(sxy: real, sxx: real, syy: real, root: real -> real): Option<real> {
    if sxx <= 0.0 || syy <= 0.0 then None else Some(Over(sxy, root(sxx * syy)))
  }

  function Pearson(xs: seq<real>, ys: seq<real>, root: real -> real): Option<real>
    requires |xs| == |ys|
  {
    if |xs| < 3 then None else
    var dx, dy := Minus(xs, Mean(xs)), Minus(ys, Mean(ys));
    Correlation(Dot(dx, dy), Dot(dx, dx), Dot(dy, dy), root)
  }

  /** A quotient, where there is one: PearsonIsBounded shows that the root above is never 0. */
  function Over(s: real, d: real): real { if d == 0.0 then s else s / d }

  lemma RatioOfRoots(s: real, p: real, d: real)
    requires s * s <= p && p > 0.0 && IsRootOf(d, p)
    ensures d > 0.0 && -1.0 <= Over(s, d) <= 1.0
  {
    var q := s / d;
    assert q * d == s;
    AtLeast(d, s);
    Ordered(q, 1.0, d);
    Ordered(-1.0, q, d);
  }

  lemma Correlates(s: real, xx: real, yy: real, root: real -> real)
    requires IsRoot(root) && xx > 0.0 && yy > 0.0 && s * s <= xx * yy
    ensures root(xx * yy) > 0.0 && -1.0 <= Over(s, root(xx * yy)) <= 1.0
  {
    StrictProduct(xx, yy);
    RatioOfRoots(s, xx * yy, root(xx * yy));
  }

  predicate Bounded(r: Option<real>) { r.Some? ==> -1.0 <= r.value <= 1.0 }

  lemma CorrelationIsBounded(sxy: real, sxx: real, syy: real, root: real -> real)
    requires IsRoot(root) && sxy * sxy <= sxx * syy
    ensures Bounded(Correlation(sxy, sxx, syy, root))
  {
    if sxx > 0.0 && syy > 0.0 { Correlates(sxy, sxx, syy, root); }
  }

  /** A correlation is a number between -1 and 1, and there is one exactly for three or more pairs that
      vary in both coordinates. */
  lemma PearsonIsBounded(xs: seq<real>, ys: seq<real>, root: real -> real)
    requires |xs| == |ys| && IsRoot(root)
    ensures Bounded(Pearson(xs, ys, root))
    ensures Pearson(xs, ys, root).Some? <==> |xs| >= 3 && Variance(xs) > 0.0 && Variance(ys) > 0.0
  {
    if |xs| >= 3 {
      var dx, dy := Minus(xs, Mean(xs)), Minus(ys, Mean(ys));
      MinusLength(xs, Mean(xs));
      MinusLength(ys, Mean(ys));
      CauchySchwarz(dx, dy);
      CorrelationIsBounded(Dot(dx, dy), Dot(dx, dx), Dot(dy, dy), root);
      SameSign(Dot(dx, dx), |xs| as real);
      SameSign(Dot(dy, dy), |ys| as real);
    }
  }

  lemma SameSign(x: real, n: real)
    requires n > 0.0
    ensures x / n > 0.0 <==> x > 0.0
  {
    var q := x / n;
    assert q * n == x;
    if q > 0.0 { StrictProduct(q, n); } else { Product(-q, n); }
  }

  // ---- Perfect correlation --------------------------------------------------------------------

  function Stretched(s: seq<real>, k: real): seq<real> { if s == [] then [] else [k * s[0]] + Stretched(s[1..], k) }

  /** One series is the other, stretched and shifted. */
  ghost predicate Linear(xs: seq<real>, ys: seq<real>, c: real, k: real) {
    |xs| == |ys| && forall i :: 0 <= i < |xs| ==> ys[i] == c + k * xs[i]
  }

  lemma {:induction false} LinearSum(xs: seq<real>, ys: seq<real>, c: real, k: real)
    requires Linear(xs, ys, c, k)
    ensures Sum(ys) == |xs| as real * c + k * Sum(xs)
  {
    if xs != [] {
      LinearSum(xs[1..], ys[1..], c, k);
      AddOne(|xs[1..]| as real, c, k, xs[0], Sum(xs[1..]));
      assert |xs| as real == |xs[1..]| as real + 1.0;
    }
  }

  lemma AddOne(n: real, c: real, k: real, x: real, sum: real)
    ensures c + k * x + (n * c + k * sum) == (n + 1.0) * c + k * (x + sum)
  {
  }

  lemma {:induction false} StretchedHead(d: seq<real>, k: real)
    requires d != []
    ensures Stretched(d, k) == [k * d[0]] + Stretched(d[1..], k)
  {
  }

  lemma {:induction false} LinearMinus(xs: seq<real>, ys: seq<real>, c: real, k: real, mx: real, my: real)
    requires Linear(xs, ys, c, k) && my == c + k * mx
    ensures Minus(ys, my) == Stretched(Minus(xs, mx), k)
  {
    if xs != [] {
      var dx := Minus(xs, mx);
      LinearMinus(xs[1..], ys[1..], c, k, mx, my);
      Distribute(k, xs[0], mx);
      assert |dx| > 0 && dx[0] == xs[0] - mx && dx[1..] == Minus(xs[1..], mx);
      StretchedHead(dx, k);
      assert ys[0] - my == k * dx[0];
    }
  }

  lemma Distribute(k: real, x: real, m: real)
    ensures k * (x - m) == k * x - k * m
  {
  }

  lemma LinearMean(n: real, sumX: real, sumY: real, mx: real, my: real, c: real, k: real)
    requires n > 0.0 && mx * n == sumX && my * n == sumY && sumY == n * c + k * sumX
    ensures my == c + k * mx
  {
    assert (c + k * mx) * n == n * c + k * (mx * n);
    SameProduct(my, c + k * mx, n);
  }

  lemma SameProduct(a: real, b: real, n: real)
    requires n > 0.0 && a * n == b * n
    ensures a == b
  {
  }

  lemma {:induction false} StretchedDots(d: seq<real>, k: real)
    ensures Dot(d, Stretched(d, k)) == k * Dot(d, d)
    ensures Dot(Stretched(d, k), Stretched(d, k)) == k * k * Dot(d, d)
  {
    if d != [] {
      var e := Stretched(d, k);
      StretchedDots(d[1..], k);
      assert e[0] == k * d[0] && e[1..] == Stretched(d[1..], k);
      Heads(d, d);
      Heads(d, e);
      Heads(e, e);
      var dd, de, ee := Dot(d[1..], d[1..]), Dot(d[1..], e[1..]), Dot(e[1..], e[1..]);
      StretchOne(k, d[0], e[0], dd, de, ee);
    }
  }

  lemma StretchOne(k: real, x: real, y: real, dd: real, de: real, ee: real)
    requires y == k * x && de == k * dd && ee == k * k * dd
    ensures x * y + de == k * (x * x + dd)
    ensures y * y + ee == k * k * (x * x + dd)
  {
    assert x * y == k * (x * x);
    assert y * y == k * k * (x * x);
  }

  lemma RootOfSquare(r: real, a: real)
    requires r >= 0.0 && a >= 0.0 && r * r == a * a
    ensures r == a
  {
    SameSquare(r, a, 0.0);
  }

  /** The root of a square, for a k that is not negative. */
  lemma SizeOf(size: real, kk: real, xx: real, yy: real, root: real -> real)
    requires IsRoot(root) && size > 0.0 && kk == size * size && xx > 0.0 && yy == kk * xx
    ensures yy > 0.0 && size * xx > 0.0 && root(xx * yy) == size * xx
  {
    StrictProduct(size, xx);
    StrictProduct(size, size * xx);
    assert yy == size * (size * xx);
    StrictProduct(xx, yy);
    SquareOfProduct(size, xx, yy);
    RootOfSquare(root(xx * yy), size * xx);
  }

  lemma SquareOfProduct(a: real, b: real, c: real)
    requires c == a * (a * b)
    ensures b * c == (a * b) * (a * b)
  {
  }

  lemma Quotients(q: real, n: real, a: real)
    requires a > 0.0 && (n == a || n == -a) && q == n / a
    ensures q == if n == a then 1.0 else -1.0
  {
    assert q * a == n;
    SameProduct(q, if n == a then 1.0 else -1.0, a);
  }

  lemma CorrelationIs(sxy: real, sxx: real, syy: real, root: real -> real, a: real)
    requires sxx > 0.0 && syy > 0.0 && root(sxx * syy) == a && a > 0.0
    ensures Correlation(sxy, sxx, syy, root) == Some(sxy / a)
  {
  }

  lemma CorrelationOfStretched(k: real, sxy: real, sxx: real, syy: real, root: real -> real)
    requires IsRoot(root) && k != 0.0 && sxx > 0.0 && sxy == k * sxx && syy == k * k * sxx
    ensures Correlation(sxy, sxx, syy, root) == Some(if k > 0.0 then 1.0 else -1.0)
  {
    var size := if k > 0.0 then k else -k;
    var kk := k * k;
    assert kk == size * size && syy == kk * sxx;
    SizeOf(size, kk, sxx, syy, root);
    var a := size * sxx;
    assert sxy == if k > 0.0 then a else -a;
    CorrelationIs(sxy, sxx, syy, root, a);
    Quotients(sxy / a, sxy, a);
  }

  lemma {:induction false} DeviationsAreStretched(xs: seq<real>, ys: seq<real>, c: real, k: real)
    requires Linear(xs, ys, c, k) && xs != []
    ensures Minus(ys, Mean(ys)) == Stretched(Minus(xs, Mean(xs)), k)
  {
    MeanIs(xs);
    MeanIs(ys);
    LinearSum(xs, ys, c, k);
    LinearMean(|xs| as real, Sum(xs), Sum(ys), Mean(xs), Mean(ys), c, k);
    LinearMinus(xs, ys, c, k, Mean(xs), Mean(ys));
  }

  /** A series and its stretched and shifted copy correlate perfectly, by the sign of the stretch. */
  lemma {:induction false} PearsonOfLinear(xs: seq<real>, ys: seq<real>, c: real, k: real, root: real -> real)
    requires Linear(xs, ys, c, k) && k != 0.0 && |xs| >= 3 && Variance(xs) > 0.0 && IsRoot(root)
    ensures Pearson(xs, ys, root) == Some(if k > 0.0 then 1.0 else -1.0)
  {
    DeviationsAreStretched(xs, ys, c, k);
    var dx := Minus(xs, Mean(xs));
    var dy := Stretched(dx, k);
    StretchedDots(dx, k);
    SameSign(Dot(dx, dx), |xs| as real);
    CorrelationOfStretched(k, Dot(dx, dy), Dot(dx, dx), Dot(dy, dy), root);
  }
}
