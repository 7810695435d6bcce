/** Option, first-match search, and order-independence of collected sequences. */
module Common {
  datatype Option<+T> = None | Some(value: T)

  /** The least index whose element satisfies `p`. */
  function First<T>(s: seq<T>, p: T -> bool): Option<nat> {
    FirstFrom(s, p, 0)
  }

  function FirstFrom<T>(s: seq<T>, p: T -> bool, n: nat): Option<nat>
    requires n <= |s|
    decreases |s| - n
  {
    if n == |s| then None else if p(s[n]) then Some(n) else FirstFrom(s, p, n + 1)
  }

  /** No earlier element satisfies `p`; and finding none means none does. */
  lemma {:induction false} FirstFromFacts<T>(s: seq<T>, p: T -> bool, n: nat)
    requires n <= |s|
    ensures var r := FirstFrom(s, p, n);
            if r.Some? then n <= r.value < |s| && p(s[r.value]) && forall k :: n <= k < r.value ==> !p(s[k])
            else forall k :: n <= k < |s| ==> !p(s[k])
    decreases |s| - n
  {
    if n < |s| {
      FirstFromFacts(s, p, n + 1);
    }
  }

  lemma FirstFacts<T>(s: seq<T>, p: T -> bool)
    ensures var r := First(s, p);
            if r.Some? then r.value < |s| && p(s[r.value]) && forall k :: 0 <= k < r.value ==> !p(s[k])
            else forall k :: 0 <= k < |s| ==> !p(s[k])
  {
    FirstFromFacts(s, p, 0);
  }

  lemma FirstIs<T>(s: seq<T>, p: T -> bool, k: nat)
    requires k < |s| && p(s[k]) && forall i :: 0 <= i < k ==> !p(s[i])
    ensures First(s, p) == Some(k)
  {
    FirstFacts(s, p);
  }

  lemma FirstNone<T>(s: seq<T>, p: T -> bool)
    requires forall i :: 0 <= i < |s| ==> !p(s[i])
    ensures First(s, p) == None
  {
    FirstFacts(s, p);
  }

  /** Looking at one more element only matters when nothing was found before it. */
  lemma FirstExtend<T>(s: seq<T>, p: T -> bool, n: nat)
    requires n < |s|
    ensures First(s[..n + 1], p)
            == if First(s[..n], p).Some? then First(s[..n], p) else if p(s[n]) then Some(n) else None
  {
    var a, b := s[..n], s[..n + 1];
    FirstFacts(a, p);
    assert forall k :: 0 <= k < n ==> a[k] == b[k];
    match First(a, p)
    case Some(k) => FirstIs(b, p, k);
    case None => if p(s[n]) { FirstIs(b, p, n); } else { FirstNone(b, p); }
  }

  /** Every element's contribution, in order. */
  function Collect<T, U>(s: seq<T>, f: T -> seq<U>): seq<U> {
    if s == [] then [] else f(s[0]) + Collect(s[1..], f)
  }

  lemma {:induction false} CollectAppend<T, U>(a: seq<T>, b: seq<T>, f: T -> seq<U>)
    ensures Collect(a + b, f) == Collect(a, f) + Collect(b, f)
  {
    if a == [] {
      assert a + b == b;
    } else {
      assert (a + b)[0] == a[0] && (a + b)[1..] == a[1..] + b;
      CollectAppend(a[1..], b, f);
    }
  }

  lemma {:induction false} CollectCons<T, U>(x: T, s: seq<T>, f: T -> seq<U>)
    ensures Collect([x] + s, f) == f(x) + Collect(s, f)
  {
    assert ([x] + s)[1..] == s;
  }

  /** One element's contribution, in place. */
  lemma {:induction false} CollectAround<T, U>(a: seq<T>, x: T, b: seq<T>, f: T -> seq<U>)
    ensures Collect(a + ([x] + b), f) == Collect(a, f) + (f(x) + Collect(b, f))
    ensures Collect(a + b, f) == Collect(a, f) + Collect(b, f)
  {
    CollectAppend(a, [x] + b, f);
    CollectCons(x, b, f);
    CollectAppend(a, b, f);
  }

  lemma SplitAt<T>(s: seq<T>, k: nat)
    requires k < |s|
    ensures s == s[..k] + ([s[k]] + s[k + 1..])
    ensures multiset(s[..k] + s[k + 1..]) == multiset(s) - multiset{s[k]}
  {
    assert s == s[..k] + ([s[k]] + s[k + 1..]);
  }

  /** Collecting from a permutation gives a permutation of what is collected. */
  lemma {:induction false} CollectPermutes<T, U>(p: seq<T>, q: seq<T>, f: T -> seq<U>)
    requires multiset(p) == multiset(q)
    ensures multiset(Collect(p, f)) == multiset(Collect(q, f))
  {
    if p == [] {
      assert |q| == |multiset(q)| == 0;
    } else {
      assert p[0] in multiset(q);
      var k :| 0 <= k < |q| && q[k] == p[0];
      SplitAt(q, k);
      SplitAt(p, 0);
      assert p[..0] + p[1..] == p[1..];
      CollectPermutes(p[1..], q[..k] + q[k + 1..], f);
      CollectAround(q[..k], p[0], q[k + 1..], f);
    }
  }

  /** A sequence holds a value twice exactly when its multiset does. */
  lemma {:induction false} TwoCopies<T>(s: seq<T>, x: T)
    ensures multiset(s)[x] >= 1 <==> x in s
    ensures multiset(s)[x] >= 2 <==> exists a, b :: 0 <= a < b < |s| && s[a] == x && s[b] == x
  {
    if s != [] {
      var t := s[1..];
      TwoCopies(t, x);
      assert s == [s[0]] + t;
      assert multiset(s)[x] == (if s[0] == x then 1 else 0) + multiset(t)[x];
      if exists a, b :: 0 <= a < b < |t| && t[a] == x && t[b] == x {
        var a, b :| 0 <= a < b < |t| && t[a] == x && t[b] == x;
        assert s[a + 1] == x && s[b + 1] == x;
      }
      if s[0] == x && x in t {
        var b :| 0 <= b < |t| && t[b] == x;
        assert s[0] == x && s[b + 1] == x;
      }
      if exists a, b :: 0 <= a < b < |s| && s[a] == x && s[b] == x {
        var a, b :| 0 <= a < b < |s| && s[a] == x && s[b] == x;
        assert t[b - 1] == x;
        if a > 0 { assert t[a - 1] == x; }
      }
    }
  }

  // ---- Keeping the elements that satisfy a test, as an in-place erase loop does ----------------

  function Keep<T>(s: seq<T>, p: T -> bool): seq<T> {
    Collect(s, (x: T) => if p(x) then [x] else [])
  }

  lemma {:induction false} KeepAll<T>(s: seq<T>, p: T -> bool)
    requires forall i :: 0 <= i < |s| ==> p(s[i])
    ensures Keep(s, p) == s
  {
    if s != [] {
      KeepAll(s[1..], p);
    }
  }

  /** Erasing a failing element changes nothing of what is kept. */
  lemma KeepErase<T>(s: seq<T>, i: nat, p: T -> bool)
    requires i < |s| && !p(s[i])
    ensures Keep(s[..i] + s[i + 1..], p) == Keep(s, p)
  {
    SplitAt(s, i);
    CollectAround(s[..i], s[i], s[i + 1..], (x: T) => if p(x) then [x] else []);
  }

  /** What is kept is exactly what passes. */
  lemma {:induction false} KeepIn<T>(s: seq<T>, p: T -> bool)
    ensures forall x :: x in Keep(s, p) <==> x in s && p(x)
    ensures |Keep(s, p)| <= |s|
  {
    if s != [] {
      KeepIn(s[1..], p);
      assert forall x :: x in s <==> x == s[0] || x in s[1..];
    }
  }

  // ---- A flag that some steps raise and others lower ------------------------------------------

  /** Step k raised it and no later one before n lowered it. */
  ghost predicate RaisedAt(raises: nat -> bool, lowers: nat -> bool, n: nat, k: nat) {
    k < n && raises(k) && forall j: nat :: k < j < n ==> !lowers(j)
  }

  /** It stands after n steps exactly when its last raising was followed by no lowering. */
  lemma {:induction false} StandsIff(flag: nat -> bool, raises: nat -> bool, lowers: nat -> bool, n: nat)
    requires !flag(0) && forall k: nat :: k < n ==> (flag(k + 1) <==> raises(k) || (flag(k) && !lowers(k)))
    ensures flag(n) <==> exists k: nat :: RaisedAt(raises, lowers, n, k)
  {
    if n > 0 {
      var m := n - 1;
      StandsIff(flag, raises, lowers, m);
      assert flag(m + 1) <==> raises(m) || (flag(m) && !lowers(m));
      if raises(m) { assert RaisedAt(raises, lowers, n, m); }
      forall k: nat | k < m
        ensures RaisedAt(raises, lowers, n, k) <==> RaisedAt(raises, lowers, m, k) && !lowers(m)
      {
      }
      if k: nat :| RaisedAt(raises, lowers, m, k) && !lowers(m) { assert RaisedAt(raises, lowers, n, k); }
    }
  }
}
