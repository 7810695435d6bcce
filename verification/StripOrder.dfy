/**
 Which image an eviction of the strip-framebuffer cache drops: always the one inserted first, and exactly
 when that is also the least recently looked up.
 */
module StripOrder {
  import opened Common
  import opened StripCache

  // ---- The order of the cached images ---------------------------------------------------------

  function Images(entries: seq<Entry>): (r: seq<nat>)
    ensures |r| == |entries| && forall i :: 0 <= i < |r| ==> r[i] == entries[i].image
  {
    seq(|entries|, i requires 0 <= i < |entries| => entries[i].image)
  }

  /** A first-in first-out queue of eight: a miss drops the front of a full one, whether or not what was
      asked for can then be created, and enters what can. A flush is not considered. */
  function Enter(q: seq<nat>, ev: Event): seq<nat> {
    if ev.EvTargets? || ev.image in q then q
    else (if |q| < MAX_ENTRIES then q else q[1..]) + (if CreatesOk(ev.env) then [ev.image] else [])
  }

  function Fifo(evs: seq<Event>): seq<nat> {
    if evs == [] then [] else Enter(Fifo(evs[..|evs| - 1]), evs[|evs| - 1])
  }

  ghost predicate Lookups(evs: seq<Event>) { forall k :: 0 <= k < |evs| ==> evs[k].EvGet? }

  lemma GrowIsInPlace(s: State, i: nat, w: nat, h: nat, env: Env)
    requires i < |s.entries|
    ensures Images(Grow(s, i, w, h, env).0.entries) == Images(s.entries)
  {
  }

  lemma InsertEnters(s: State, image: nat, w: nat, h: nat, env: Env)
    requires |s.entries| <= MAX_ENTRIES
    ensures Images(Insert(s, image, w, h, env).0.entries)
            == (if |s.entries| < MAX_ENTRIES then Images(s.entries) else Images(s.entries)[1..])
               + (if CreatesOk(env) then [image] else [])
  {
  }

  /** A lookup, growing in place and failing anywhere included, does to the images what the queue does. */
  lemma LookupEnters(s: State, ev: Event)
    requires Sound(s) && ev.EvGet?
    ensures Images(Next(s, ev).entries) == Enter(Images(s.entries), ev)
  {
    FirstFacts(s.entries, (e: Entry) => e.image == ev.image);
    match IndexOf(s.entries, ev.image)
    case None =>
      assert ev.image !in Images(s.entries);
      InsertEnters(s, ev.image, ev.w, ev.h, ev.env);
    case Some(i) =>
      assert Images(s.entries)[i] == ev.image;
      if !Covers(s.entries[i], ev.w, ev.h) { GrowIsInPlace(s, i, ev.w, ev.h, ev.env); }
  }

  /** Over every run of lookups from an empty cache. */
  lemma {:induction false} RunIsFifo(s: State, evs: seq<Event>)
    requires Sound(s) && s.entries == [] && Lookups(evs)
    ensures Sound(Run(s, evs)) && Images(Run(s, evs).entries) == Fifo(evs)
    decreases |evs|
  {
    RunIsSound(s, evs);
    if evs != [] {
      var n := |evs| - 1;
      RunIsFifo(s, evs[..n]);
      RunSnoc(s, evs, n);
      assert evs[..n + 1] == evs;
      LookupEnters(Run(s, evs[..n]), evs[n]);
    }
  }

  // ---- Insertion order ------------------------------------------------------------------------

  /** Lookup k found its image uncached and could create what it asked for. */
  predicate InsertsAt(evs: seq<Event>, k: nat, image: nat) {
    k < |evs| && evs[k].EvGet? && evs[k].image == image && image !in Fifo(evs[..k]) && CreatesOk(evs[k].env)
  }

  ghost predicate LastInsert(evs: seq<Event>, k: nat, image: nat) {
    InsertsAt(evs, k, image) && forall j: nat :: k < j ==> !InsertsAt(evs, j, image)
  }

  ghost predicate BornAt(evs: seq<Event>, q: seq<nat>, born: seq<nat>) {
    && |born| == |q|
    && (forall i :: 0 <= i < |q| ==> LastInsert(evs, born[i], q[i]))
    && (forall i, j :: 0 <= i < j < |born| ==> born[i] < born[j])
    && (forall i, j :: 0 <= i < j < |q| ==> q[i] != q[j])
  }

  /** What inserted an image still did after a lookup that did not. */
  lemma StillLast(evs: seq<Event>, k: nat, image: nat)
    requires evs != [] && LastInsert(evs[..|evs| - 1], k, image) && !InsertsAt(evs, |evs| - 1, image)
    ensures LastInsert(evs, k, image)
  {
    var n := |evs| - 1;
    forall j: nat | j < n ensures InsertsAt(evs[..n], j, image) == InsertsAt(evs, j, image) {
      assert evs[..n][..j] == evs[..j];
    }
  }

  /** A hit inserts nothing. */
  lemma HitKeepsOrder(evs: seq<Event>, q: seq<nat>, born: seq<nat>)
    requires evs != [] && BornAt(evs[..|evs| - 1], q, born) && q == Fifo(evs[..|evs| - 1])
    requires evs[|evs| - 1].EvGet? && evs[|evs| - 1].image in q
    ensures BornAt(evs, q, born)
  {
    forall i | 0 <= i < |q| ensures LastInsert(evs, born[i], q[i]) {
      assert LastInsert(evs[..|evs| - 1], born[i], q[i]);
      StillLast(evs, born[i], q[i]);
    }
  }

  /** Nor does a miss change what inserted the images it leaves. */
  lemma MissKeepsOrder(evs: seq<Event>, q: seq<nat>, born: seq<nat>, d: nat)
    requires evs != [] && BornAt(evs[..|evs| - 1], q, born) && q == Fifo(evs[..|evs| - 1]) && d <= |q|
    requires evs[|evs| - 1].EvGet? && evs[|evs| - 1].image !in q
    ensures BornAt(evs, q[d..], born[d..])
  {
    var r, b := q[d..], born[d..];
    forall i | 0 <= i < |r| ensures LastInsert(evs, b[i], r[i]) {
      assert r[i] == q[i + d] && b[i] == born[i + d];
      assert LastInsert(evs[..|evs| - 1], born[i + d], q[i + d]);
      StillLast(evs, born[i + d], q[i + d]);
    }
  }

  lemma EnteringIsLast(evs: seq<Event>, q: seq<nat>, born: seq<nat>)
    requires evs != [] && evs[|evs| - 1].EvGet? && evs[|evs| - 1].image !in q
    requires BornAt(evs, q, born) && InsertsAt(evs, |evs| - 1, evs[|evs| - 1].image)
    ensures BornAt(evs, q + [evs[|evs| - 1].image], born + [|evs| - 1])
  {
    var n := |evs| - 1;
    assert LastInsert(evs, n, evs[n].image);
    forall i | 0 <= i < |q| ensures born[i] < n {
      assert LastInsert(evs, born[i], q[i]);
    }
  }

  lemma LookupOrders(evs: seq<Event>, q: seq<nat>, was: seq<nat>) returns (born: seq<nat>)
    requires evs != [] && evs[|evs| - 1].EvGet?
    requires BornAt(evs[..|evs| - 1], q, was) && q == Fifo(evs[..|evs| - 1])
    ensures BornAt(evs, Enter(q, evs[|evs| - 1]), born)
  {
    var n := |evs| - 1;
    var ev := evs[n];
    if ev.image in q {
      born := was;
      HitKeepsOrder(evs, q, was);
    } else {
      var d := if |q| < MAX_ENTRIES then 0 else 1;
      var left := q[d..];
      assert left == if |q| < MAX_ENTRIES then q else q[1..];
      born := was[d..];
      MissKeepsOrder(evs, q, was, d);
      if CreatesOk(ev.env) {
        EnteringIsLast(evs, left, born);
        born := born + [n];
      } else {
        assert Enter(q, ev) == left;
      }
    }
  }

  /** The images stand in the order of the lookups that last inserted them. */
  lemma {:induction false} ImagesAreInOrder(evs: seq<Event>) returns (born: seq<nat>)
    requires Lookups(evs)
    ensures BornAt(evs, Fifo(evs), born)
  {
    if evs == [] { return []; }
    var prev := evs[..|evs| - 1];
    var was := ImagesAreInOrder(prev);
    born := LookupOrders(evs, Fifo(prev), was);
  }

  // ---- The least recently looked up -----------------------------------------------------------

  predicate LooksAt(evs: seq<Event>, k: nat, image: nat) {
    k < |evs| && evs[k].EvGet? && evs[k].image == image
  }

  /** Lookup k is the last of this image. */
  ghost predicate LastLook(evs: seq<Event>, k: nat, image: nat) {
    LooksAt(evs, k, image) && forall j: nat :: k < j ==> !LooksAt(evs, j, image)
  }

  /** Of these images, this one's last lookup is the longest ago. */
  ghost predicate LeastRecent(evs: seq<Event>, q: seq<nat>, x: nat) {
    && x in q
    && forall y, a: nat, b: nat :: y in q && y != x && LastLook(evs, a, x) && LastLook(evs, b, y) ==> a < b
  }

  /** y has been looked up since the last lookup of x. */
  ghost predicate LookedSince(evs: seq<Event>, x: nat, y: nat) {
    exists b: nat :: LooksAt(evs, b, y) && forall k: nat :: b <= k ==> !LooksAt(evs, k, x)
  }

  lemma {:induction false} FindLastLook(evs: seq<Event>, j: nat, image: nat) returns (k: nat)
    requires LooksAt(evs, j, image)
    ensures j <= k && LastLook(evs, k, image)
    decreases |evs| - j
  {
    if i: nat :| j < i && LooksAt(evs, i, image) {
      k := FindLastLook(evs, i, image);
    } else {
      k := j;
    }
  }

  lemma LookedSinceIff(evs: seq<Event>, x: nat, y: nat, a: nat, b: nat)
    requires x != y && LastLook(evs, a, x) && LastLook(evs, b, y)
    ensures LookedSince(evs, x, y) <==> a < b
  {
    if c: nat :| LooksAt(evs, c, y) && forall k: nat :: c <= k ==> !LooksAt(evs, k, x) {
      assert a < c <= b;
    }
    if a < b {
      assert LooksAt(evs, b, y);
    }
  }

  /** Cached before, and no longer. */
  ghost predicate Dropped(before: State, after: State, image: nat) {
    !Uncached(before, image) && Uncached(after, image)
  }

  ghost predicate InsertedFirst(evs: seq<Event>, q: seq<nat>, x: nat) {
    && x in q
    && forall y, a: nat, b: nat :: y in q && y != x && LastInsert(evs, a, x) && LastInsert(evs, b, y) ==> a < b
  }

  lemma {:induction false} FrontIsFirst(evs: seq<Event>)
    requires Lookups(evs) && Fifo(evs) != []
    ensures InsertedFirst(evs, Fifo(evs), Fifo(evs)[0])
  {
    var q := Fifo(evs);
    var born := ImagesAreInOrder(evs);
    forall y, a: nat, b: nat | y in q && y != q[0] && LastInsert(evs, a, q[0]) && LastInsert(evs, b, y)
      ensures a < b
    {
      var i :| 0 <= i < |q| && q[i] == y;
      assert LastInsert(evs, born[0], q[0]) && LastInsert(evs, born[i], y);
      assert a == born[0] && b == born[i];
    }
  }

  lemma {:induction false} LeastRecentIff(evs: seq<Event>, x: nat)
    requires Lookups(evs) && x in Fifo(evs)
    ensures LeastRecent(evs, Fifo(evs), x) <==> forall y :: y in Fifo(evs) && y != x ==> LookedSince(evs, x, y)
  {
    var q := Fifo(evs);
    var born := ImagesAreInOrder(evs);
    var i :| 0 <= i < |q| && q[i] == x;
    assert LooksAt(evs, born[i], x);
    var a := FindLastLook(evs, born[i], x);
    forall y | y in q && y != x
      ensures LookedSince(evs, x, y) <==> forall c: nat, b: nat :: LastLook(evs, c, x) && LastLook(evs, b, y) ==> c < b
    {
      var j :| 0 <= j < |q| && q[j] == y;
      assert LooksAt(evs, born[j], y);
      var b := FindLastLook(evs, born[j], y);
      LookedSinceIff(evs, x, y, a, b);
    }
  }

  /** Over every run of lookups from an empty cache, hits, growths and failed builds included: what the
      next lookup drops, if anything, is the cached image inserted first; and that is the least recently
      looked up exactly when every other cached image was looked up since its last lookup. */
  lemma {:induction false} EvictsLeastRecentIff(s: State, evs: seq<Event>, ev: Event, x: nat)
    requires Sound(s) && s.entries == [] && Lookups(evs) && ev.EvGet?
    requires var t := Run(s, evs); Dropped(t, Next(t, ev), x)
    ensures var q := Images(Run(s, evs).entries);
            && |q| == MAX_ENTRIES && InsertedFirst(evs, q, x)
            && (LeastRecent(evs, q, x) <==> forall y :: y in q && y != x ==> LookedSince(evs, x, y))
  {
    var t := Run(s, evs);
    RunIsFifo(s, evs);
    LookupEnters(t, ev);
    var q, after := Images(t.entries), Images(Next(t, ev).entries);
    var i :| 0 <= i < |t.entries| && t.entries[i].image == x;
    assert forall j :: 0 < j < |q| ==> q[1..][j - 1] == q[j];
    assert q[i] == x && x !in after;
    FrontIsFirst(evs);
    LeastRecentIff(evs, x);
  }

  // ---- A run where it is not ------------------------------------------------------------------

  function LookupOf(image: nat): Event { EvGet(image, 1, 1, Env(true, true)) }

  /** Images 1 to n, one after the other. */
  function UpTo(n: nat): seq<Event> { seq(n, (i: nat) => LookupOf(i + 1)) }

  lemma {:induction false} UpToEnters(n: nat)
    requires n <= MAX_ENTRIES
    ensures Fifo(UpTo(n)) == seq(n, (i: nat) => i + 1)
  {
    if n > 0 {
      UpToEnters(n - 1);
      assert UpTo(n)[..n - 1] == UpTo(n - 1);
    }
  }

  const AGAIN := UpTo(8) + [LookupOf(1)]

  lemma AgainFifo()
    ensures Fifo(AGAIN) == [1, 2, 3, 4, 5, 6, 7, 8]
  {
    UpToEnters(8);
    assert AGAIN[..8] == UpTo(8);
    assert seq(8, (i: nat) => i + 1) == [1, 2, 3, 4, 5, 6, 7, 8];
  }

  lemma AgainLooks()
    ensures |AGAIN| == 9 && LastLook(AGAIN, 8, 1) && LastLook(AGAIN, 1, 2)
    ensures forall k :: 0 <= k < 8 ==> AGAIN[k] == LookupOf(k + 1)
  {
    assert AGAIN[8] == LookupOf(1);
  }

  lemma AgainRecency()
    ensures !LeastRecent(AGAIN, Fifo(AGAIN), 1) && LeastRecent(AGAIN, Fifo(AGAIN), 2)
  {
    AgainFifo();
    AgainLooks();
    var q := Fifo(AGAIN);
    assert q[1] == 2 && 2 in q;
    forall y, a: nat, b: nat | y in q && y != 2 && LastLook(AGAIN, a, 2) && LastLook(AGAIN, b, y) ensures a < b {
      assert a == 1;
      if y > 2 { assert LooksAt(AGAIN, y - 1, y); }
    }
  }

  /** Eight images, the first of them again, then a ninth: the first is dropped, though it was looked up
      last, and the second is the least recently looked up. */
  lemma {:induction false} HitDoesNotSaveTheOldest(s: State)
    requires Sound(s) && s.entries == []
    ensures var t := Run(s, AGAIN);
            && Dropped(t, Next(t, LookupOf(9)), 1) && !LeastRecent(AGAIN, Images(t.entries), 1)
            && LeastRecent(AGAIN, Images(t.entries), 2)
  {
    RunIsFifo(s, AGAIN);
    AgainFifo();
    AgainRecency();
    FrontIsDropped(Run(s, AGAIN), LookupOf(9));
  }

  lemma FrontIsDropped(s: State, ev: Event)
    requires Sound(s) && |s.entries| == MAX_ENTRIES && ev.EvGet? && Uncached(s, ev.image)
    ensures Dropped(s, Next(s, ev), s.entries[0].image)
  {
    LookupEnters(s, ev);
    var q, after := Images(s.entries), Images(Next(s, ev).entries);
    assert ev.image !in q && q[0] == s.entries[0].image;
    forall j | 0 < j < |q| ensures q[j] != q[0] { assert Apart(s.entries[0], s.entries[j]); }
    assert forall j :: 0 <= j < |Next(s, ev).entries| ==> Next(s, ev).entries[j].image == after[j];
  }
}
