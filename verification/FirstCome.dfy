/**
 First come, first served: when serving in another order serves the same.
 */
module FirstCome {
  import opened Common

  /** Customers with one key want the same thing; the first of them gets it, the others do without. */
  datatype Desk<!T(!new), !U> = Desk(key: T -> Option<nat>, first: T -> seq<U>, later: T -> seq<U>)

  predicate GetsIt<T(!new), U>(d: Desk<T, U>, v: T, gone: set<nat>) { d.key(v).Some? && d.key(v).value !in gone }

  function One<T(!new), U>(d: Desk<T, U>, v: T, gone: set<nat>): seq<U> {
    if GetsIt(d, v, gone) then d.first(v) else d.later(v)
  }

  function Left<T(!new), U>(d: Desk<T, U>, v: T, gone: set<nat>): set<nat> {
    if GetsIt(d, v, gone) then gone + {d.key(v).value} else gone
  }

  function Serve<T(!new), U>(d: Desk<T, U>, s: seq<T>, gone: set<nat>): seq<U> {
    if s == [] then [] else One(d, s[0], gone) + Serve(d, s[1..], Left(d, s[0], gone))
  }

  /** These two, wanting the same thing, come out differently by who is first. */
  ghost predicate Rivals<T(!new), U>(d: Desk<T, U>, a: T, b: T) {
    d.key(a).Some? && d.key(a) == d.key(b)
    && multiset(d.first(a)) + multiset(d.later(b)) != multiset(d.first(b)) + multiset(d.later(a))
  }

  ghost predicate Fair<T(!new), U>(d: Desk<T, U>, s: seq<T>) { forall a, b :: a in s && b in s ==> !Rivals(d, a, b) }

  lemma {:induction false} ServeCons<T(!new), U>(d: Desk<T, U>, v: T, r: seq<T>, gone: set<nat>)
    ensures Serve(d, [v] + r, gone) == One(d, v, gone) + Serve(d, r, Left(d, v, gone))
  {
    assert ([v] + r)[1..] == r;
  }

  lemma {:induction false} ServeTwo<T(!new), U>(d: Desk<T, U>, a: T, b: T, r: seq<T>, gone: set<nat>)
    ensures var g := Left(d, a, gone);
            multiset(Serve(d, [a, b] + r, gone))
            == multiset(One(d, a, gone)) + multiset(One(d, b, g)) + multiset(Serve(d, r, Left(d, b, g)))
  {
    assert [a, b] + r == [a] + ([b] + r);
    ServeCons(d, a, [b] + r, gone);
    ServeCons(d, b, r, Left(d, a, gone));
  }

  /** Two neighbours can be exchanged exactly when they are no rivals for a thing still there. */
  lemma {:induction false} SwapIff<T(!new), U>(d: Desk<T, U>, a: T, b: T, r: seq<T>, gone: set<nat>)
    ensures multiset(Serve(d, [a, b] + r, gone)) == multiset(Serve(d, [b, a] + r, gone))
            <==> !(Rivals(d, a, b) && GetsIt(d, a, gone))
  {
    ServeTwo(d, a, b, r, gone);
    ServeTwo(d, b, a, r, gone);
    var ab, ba := Left(d, b, Left(d, a, gone)), Left(d, a, Left(d, b, gone));
    assert ab == ba;
    var x := multiset(One(d, a, gone)) + multiset(One(d, b, Left(d, a, gone)));
    var y := multiset(One(d, b, gone)) + multiset(One(d, a, Left(d, b, gone)));
    Cancel(x, y, multiset(Serve(d, r, ab)));
  }

  lemma Cancel<T>(x: multiset<T>, y: multiset<T>, z: multiset<T>)
    ensures x + z == y + z <==> x == y
  {
    if x + z == y + z {
      forall e ensures x[e] == y[e] {
        assert (x + z)[e] == x[e] + z[e] && (y + z)[e] == y[e] + z[e];
      }
    }
  }

  lemma Splice<T>(s: seq<T>, k: nat)
    requires 0 < k < |s|
    ensures var t, r := s[1..], s[1..k] + s[k + 1..];
            s == [s[0]] + t && t[k - 1] == s[k] && t[..k - 1] + t[k..] == r
    ensures var r := s[1..k] + s[k + 1..];
            [s[0]] + ([s[k]] + r) == [s[0], s[k]] + r && [s[k]] + (s[..k] + s[k + 1..]) == [s[k], s[0]] + r
  {
  }

  lemma {:induction false} ToFront<T(!new), U>(d: Desk<T, U>, s: seq<T>, k: nat, gone: set<nat>)
    requires k < |s| && Fair(d, s)
    ensures multiset(Serve(d, s, gone)) == multiset(Serve(d, [s[k]] + (s[..k] + s[k + 1..]), gone))
  {
    if k == 0 {
      assert s == [s[0]] + (s[..0] + s[1..]);
    } else {
      var t, r := s[1..], s[1..k] + s[k + 1..];
      Splice(s, k);
      ToFront(d, t, k - 1, Left(d, s[0], gone));
      ServeCons(d, s[0], t, gone);
      ServeCons(d, s[0], [s[k]] + r, gone);
      SwapIff(d, s[0], s[k], r, gone);
    }
  }

  lemma {:induction false} FairPermutes<T(!new), U>(d: Desk<T, U>, p: seq<T>, q: seq<T>, gone: set<nat>)
    requires multiset(p) == multiset(q) && Fair(d, p)
    ensures multiset(Serve(d, p, gone)) == multiset(Serve(d, q, gone))
    decreases |p|
  {
    if p == [] {
      assert |q| == |multiset(q)| == 0;
    } else {
      assert p[0] in multiset(q);
      var k :| 0 <= k < |q| && q[k] == p[0];
      var rest := q[..k] + q[k + 1..];
      SplitAt(q, k);
      SplitAt(p, 0);
      assert p[..0] + p[1..] == p[1..];
      forall x | x in q ensures x in p { assert x in multiset(p); }
      ToFront(d, q, k, gone);
      assert forall x :: x in p[1..] ==> x in p;
      FairPermutes(d, p[1..], rest, Left(d, p[0], gone));
      ServeCons(d, p[0], rest, gone);
      ServeCons(d, p[0], p[1..], gone);
      assert p == [p[0]] + p[1..];
    }
  }

  /** Every order of the customers is served the same. */
  ghost predicate OrderFree<T(!new), U>(d: Desk<T, U>, s: seq<T>) {
    forall t :: multiset(t) == multiset(s) ==> multiset(Serve(d, t, {})) == multiset(Serve(d, s, {}))
  }

  /** Two customers moved to the front, in either order. */
  lemma PairToFront<T>(s: seq<T>, i: nat, j: nat) returns (r: seq<T>)
    requires i < j < |s|
    ensures multiset([s[i], s[j]] + r) == multiset(s) && multiset([s[j], s[i]] + r) == multiset(s)
  {
    var t := s[..j] + s[j + 1..];
    r := t[..i] + t[i + 1..];
    Front(s, j);
    Front(t, i);
    assert t[i] == s[i];
  }

  lemma TwoToFront<T>(s: seq<T>, a: T, b: T) returns (r: seq<T>)
    requires a in s && b in s && a != b
    ensures multiset([a, b] + r) == multiset(s) && multiset([b, a] + r) == multiset(s)
  {
    var i :| 0 <= i < |s| && s[i] == a;
    var k :| 0 <= k < |s| && s[k] == b;
    if i < k { r := PairToFront(s, i, k); } else { r := PairToFront(s, k, i); }
  }

  lemma Front<T>(s: seq<T>, k: nat)
    requires k < |s|
    ensures multiset{s[k]} + multiset(s[..k] + s[k + 1..]) == multiset(s)
  {
    SplitAt(s, k);
  }

  lemma RivalsShow<T(!new), U>(d: Desk<T, U>, s: seq<T>, i: nat, j: nat)
    requires i < j < |s| && Rivals(d, s[i], s[j])
    ensures !OrderFree(d, s)
  {
    var r := PairToFront(s, i, j);
    SwapIff(d, s[i], s[j], r, {});
  }

  /** The order of serving never matters exactly when no two customers are rivals. */
  lemma OrderFreeIff<T(!new), U>(d: Desk<T, U>, s: seq<T>)
    ensures OrderFree(d, s) <==> Fair(d, s)
  {
    if Fair(d, s) {
      forall t | multiset(t) == multiset(s) ensures multiset(Serve(d, t, {})) == multiset(Serve(d, s, {})) {
        FairPermutes(d, s, t, {});
      }
    } else {
      var a, b :| a in s && b in s && Rivals(d, a, b);
      var i :| 0 <= i < |s| && s[i] == a;
      var j :| 0 <= j < |s| && s[j] == b;
      assert i != j;
      if i < j { RivalsShow(d, s, i, j); } else { RivalsShow(d, s, j, i); }
    }
  }

  // ---- Two customers who get one thing, or go without -----------------------------------------

  lemma TwoEach<T>(x: T, y: T, z: T, w: T)
    ensures multiset([x]) + multiset([y]) == multiset([z]) + multiset([w]) <==> (x == z && y == w) || (x == w && y == z)
  {
    var l, r := multiset{x} + multiset{y}, multiset{z} + multiset{w};
    if l == r {
      assert l[x] == r[x] && l[y] == r[y];
    }
  }

  lemma RivalsOf<T(!new), U>(d: Desk<T, U>, a: T, b: T, x: U, w: U, z: U, y: U, known: bool)
    requires d.key(a).Some? && d.key(a) == d.key(b) && d.first(a) == [x] && d.first(b) == [z]
    requires d.later(a) == (if known then [w] else []) && d.later(b) == if known then [y] else []
    requires (x == z <==> a == b) && (x == w <==> z == y)
    ensures Rivals(d, a, b) <==> a != b && !(known && x == w)
  {
    if known {
      TwoEach(x, y, z, w);
    } else {
      var none: seq<U> := [];
      assert multiset([x]) + multiset(none) == multiset{x} && multiset([z]) + multiset(none) == multiset{z};
      assert multiset{x} == multiset{z} ==> x in multiset{z};
    }
  }
}
