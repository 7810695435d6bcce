/**
 The plug-in's monitor table: the last probe's bindings, a generation that moves exactly when their
 identities change, and the choice of THE panel among them.
 */
module ClaimTable {
  import opened Common
  import opened Claims

  const MAX_BINDINGS := 16

  /** What makes two bindings the same for the runtime's change counter. */
  datatype Identity = Identity(monitorId: nat, srDisplayId: nat, fpcVerified: bool, serial: string)

  function IdentityOf(b: Binding): Identity { Identity(b.monitorId, b.srDisplayId, b.fpcVerified, b.serial) }

  function Identities(bs: seq<Binding>): (r: seq<Identity>)
    ensures |r| == |bs| && forall i :: 0 <= i < |bs| ==> r[i] == IdentityOf(bs[i])
  {
    seq(|bs|, i requires 0 <= i < |bs| => IdentityOf(bs[i]))
  }

  datatype Table = Table(bindings: seq<Binding>, generation: nat)

  /** Storing replaces the table; no bindings at all clears it. */
  function Store(t: Table, bs: Option<seq<Binding>>): (r: Table)
    ensures |r.bindings| <= MAX_BINDINGS
  {
    var now := match bs case None => [] case Some(s) => Upto(s, MAX_BINDINGS);
    Table(now, if Identities(now) == Identities(t.bindings) then t.generation else t.generation + 1)
  }

  function StoreAll(t: Table, probes: seq<Option<seq<Binding>>>): Table
    decreases |probes|
  {
    if probes == [] then t else StoreAll(Store(t, probes[0]), probes[1..])
  }

  /** The generation only grows, and standing still means no probe of the run changed an identity:
      a reader that sees the same generation twice missed nothing. */
  lemma {:induction false} SameGenerationSameIdentities(t: Table, probes: seq<Option<seq<Binding>>>)
    ensures t.generation <= StoreAll(t, probes).generation <= t.generation + |probes|
    ensures StoreAll(t, probes).generation == t.generation <==>
            forall k :: 0 <= k <= |probes| ==> Identities(StoreAll(t, probes[..k]).bindings) == Identities(t.bindings)
    decreases |probes|
  {
    if probes != [] {
      var u := Store(t, probes[0]);
      SameGenerationSameIdentities(u, probes[1..]);
      forall k | 0 < k <= |probes|
        ensures StoreAll(t, probes[..k]) == StoreAll(u, probes[1..][..k - 1])
      {
        assert probes[..k][0] == probes[0] && probes[..k][1..] == probes[1..][..k - 1];
      }
      assert StoreAll(t, probes[..1]) == StoreAll(u, []);
      if StoreAll(t, probes).generation == t.generation {
        assert Identities(u.bindings) == Identities(t.bindings);
        forall k | 0 <= k <= |probes|
          ensures Identities(StoreAll(t, probes[..k]).bindings) == Identities(t.bindings)
        {
          if k > 0 {
            assert Identities(StoreAll(u, probes[1..][..k - 1]).bindings) == Identities(u.bindings);
          }
        }
      } else if forall k :: 0 <= k <= |probes| ==>
                  Identities(StoreAll(t, probes[..k]).bindings) == Identities(t.bindings) {
        assert Identities(StoreAll(t, probes[..1]).bindings) == Identities(t.bindings);
        forall k | 0 <= k <= |probes[1..]|
          ensures Identities(StoreAll(u, probes[1..][..k]).bindings) == Identities(u.bindings)
        {
          assert StoreAll(t, probes[..k + 1]) == StoreAll(u, probes[1..][..k]);
        }
      }
    }
  }

  /** A store keeps the first sixteen bindings, and moves the generation exactly when there are more or
      fewer than before, or one differs in its monitor, its SR display, its verification or its serial. */
  lemma StoreIff(t: Table, given: Option<seq<Binding>>, bs: seq<Binding>)
    requires bs == if given.None? then [] else if |given.value| <= 16 then given.value else given.value[..16]
    ensures var u := Store(t, given);
      && u.bindings == bs && t.generation <= u.generation <= t.generation + 1
      && (u.generation == t.generation <==>
            |bs| == |t.bindings|
            && forall k :: 0 <= k < |bs| ==>
                 && bs[k].monitorId == t.bindings[k].monitorId && bs[k].srDisplayId == t.bindings[k].srDisplayId
                 && bs[k].fpcVerified == t.bindings[k].fpcVerified && bs[k].serial == t.bindings[k].serial)
  {
    var u := Store(t, given);
    assert |bs| == |t.bindings| ==> forall k :: 0 <= k < |bs| ==> Identities(bs)[k] == IdentityOf(bs[k]);
    if |bs| == |t.bindings| && forall k :: 0 <= k < |bs| ==>
         && bs[k].monitorId == t.bindings[k].monitorId && bs[k].srDisplayId == t.bindings[k].srDisplayId
         && bs[k].fpcVerified == t.bindings[k].fpcVerified && bs[k].serial == t.bindings[k].serial {
      assert Identities(bs) == Identities(t.bindings);
    }
    if Identities(bs) == Identities(t.bindings) {
      forall k | 0 <= k < |bs| ensures IdentityOf(bs[k]) == IdentityOf(t.bindings[k]) {
        assert Identities(bs)[k] == Identities(t.bindings)[k];
      }
    }
  }

  function Lookup(t: Table, monitorId: nat): Option<Binding> {
    match First(t.bindings, (b: Binding) => b.monitorId == monitorId)
    case None => None
    case Some(k) => if k < |t.bindings| then Some(t.bindings[k]) else None
  }

  /** A stored binding is found again under its monitor, and only stored monitors are found. */
  lemma StoredIsFound(t: Table, bs: seq<Binding>, monitorId: nat)
    requires forall a, b :: 0 <= a < b < |bs| ==> bs[a].monitorId != bs[b].monitorId
    ensures var r := Lookup(Store(t, Some(bs)), monitorId);
            && (r.Some? ==> r.value in bs && r.value.monitorId == monitorId)
            && forall k :: 0 <= k < |bs| && k < MAX_BINDINGS && bs[k].monitorId == monitorId ==> r == Some(bs[k])
  {
    FirstFacts(Store(t, Some(bs)).bindings, (b: Binding) => b.monitorId == monitorId);
  }

  // ---- The panel ------------------------------------------------------------------------------

  /** Identity enough to move a window: verified, with a desktop position. */
  predicate Eligible(b: Binding) { b.verified && b.pos.Some? }

  predicate HasSize(b: Binding, w: nat, h: nat) {
    w != 0 && h != 0
    && (if b.nativeW != 0 then b.nativeW else b.pixelW) == w
    && (if b.nativeH != 0 then b.nativeH else b.pixelH) == h
  }

  function Candidates(bs: seq<Binding>): seq<Binding> {
    Collect(bs, (b: Binding) => if Eligible(b) then [b] else [])
  }

  function SizedCandidates(bs: seq<Binding>, w: nat, h: nat): seq<Binding> {
    Collect(bs, (b: Binding) => if Eligible(b) && HasSize(b, w, h) then [b] else [])
  }

  /** The only candidate, or the only one of the panel's size; never a guess. */
  function PickPanel(bs: seq<Binding>, w: nat, h: nat): Option<Binding> {
    var all, sized := Candidates(bs), SizedCandidates(bs, w, h);
    if |all| == 1 then Some(all[0])
    else if |all| > 1 && |sized| == 1 then Some(sized[0])
    else None
  }

  lemma SingletonOf<T>(a: seq<T>, b: seq<T>)
    requires multiset(a) == multiset(b) && |a| == 1
    ensures a == b
  {
    assert |multiset(b)| == 1 && |b| == 1;
    assert a == [a[0]] && b == [b[0]];
    assert b[0] in multiset(a);
  }

  /** The panel does not depend on the order the claims were made in. */
  lemma PickIsOrderIndependent(bs: seq<Binding>, other: seq<Binding>, w: nat, h: nat)
    requires multiset(bs) == multiset(other)
    ensures PickPanel(bs, w, h) == PickPanel(other, w, h)
  {
    CollectPermutes(bs, other, (b: Binding) => if Eligible(b) then [b] else []);
    CollectPermutes(bs, other, (b: Binding) => if Eligible(b) && HasSize(b, w, h) then [b] else []);
    var all, sized := Candidates(bs), SizedCandidates(bs, w, h);
    assert |multiset(all)| == |multiset(Candidates(other))|;
    assert |multiset(sized)| == |multiset(SizedCandidates(other, w, h))|;
    if |all| == 1 { SingletonOf(all, Candidates(other)); }
    if |sized| == 1 { SingletonOf(sized, SizedCandidates(other, w, h)); }
  }

  /** A picked panel is a verified, positioned binding, and nothing else of its kind competes. */
  lemma PickedIsUnique(bs: seq<Binding>, w: nat, h: nat, a: nat, b: nat)
    requires a < b < |bs| && Eligible(bs[a]) && Eligible(bs[b])
    requires HasSize(bs[a], w, h) == HasSize(bs[b], w, h) && PickPanel(bs, w, h).Some?
    ensures !HasSize(bs[a], w, h) && HasSize(PickPanel(bs, w, h).value, w, h)
  {
    var f := (x: Binding) => if Eligible(x) then [x] else [];
    var g := (x: Binding) => if Eligible(x) && HasSize(x, w, h) then [x] else [];
    Split(bs, a, b, f);
    Split(bs, a, b, g);
    CollectedFrom(bs, w, h);
  }

  lemma {:induction false} Split(bs: seq<Binding>, a: nat, b: nat, f: Binding -> seq<Binding>)
    requires a < b < |bs|
    ensures |Collect(bs, f)| >= |f(bs[a])| + |f(bs[b])|
  {
    assert bs == bs[..a] + ([bs[a]] + (bs[a + 1..b] + ([bs[b]] + bs[b + 1..])));
    CollectAppend(bs[..a], [bs[a]] + (bs[a + 1..b] + ([bs[b]] + bs[b + 1..])), f);
    CollectAppend([bs[a]], bs[a + 1..b] + ([bs[b]] + bs[b + 1..]), f);
    CollectAppend(bs[a + 1..b], [bs[b]] + bs[b + 1..], f);
    CollectAppend([bs[b]], bs[b + 1..], f);
    assert Collect([bs[a]], f) == f(bs[a]) + Collect([], f);
    assert Collect([bs[b]], f) == f(bs[b]) + Collect([], f);
  }

  lemma {:induction false} CollectedFrom(bs: seq<Binding>, w: nat, h: nat)
    ensures forall x :: x in Candidates(bs) ==> x in bs && Eligible(x)
    ensures forall x :: x in SizedCandidates(bs, w, h) ==> x in bs && Eligible(x) && HasSize(x, w, h)
  {
    if bs != [] {
      CollectedFrom(bs[1..], w, h);
    }
  }

  /** A verified binding with a desktop position. */
  ghost predicate Candidate(bs: seq<Binding>, k: int) {
    0 <= k < |bs| && bs[k].verified && bs[k].pos.Some?
  }

  /** One whose native size, or pixel size where that is not known, is the panel's. */
  ghost predicate OfSize(bs: seq<Binding>, w: nat, h: nat, k: int) {
    && Candidate(bs, k) && w > 0 && h > 0
    && w == (if bs[k].nativeW == 0 then bs[k].pixelW else bs[k].nativeW)
    && h == (if bs[k].nativeH == 0 then bs[k].pixelH else bs[k].nativeH)
  }

  ghost predicate OnlyCandidate(bs: seq<Binding>, k: int) {
    Candidate(bs, k) && forall j :: Candidate(bs, j) ==> j == k
  }

  ghost predicate OnlyOfSize(bs: seq<Binding>, w: nat, h: nat, k: int) {
    OfSize(bs, w, h, k) && forall j :: OfSize(bs, w, h, j) ==> j == k
  }

  lemma {:induction false} NoneCollected(bs: seq<Binding>, f: Binding -> seq<Binding>)
    requires forall k :: 0 <= k < |bs| ==> f(bs[k]) == []
    ensures Collect(bs, f) == []
  {
    if bs != [] { NoneCollected(bs[1..], f); }
  }

  /** Collecting with a test keeps exactly one element when exactly one passes. */
  lemma {:induction false} OneCollected(bs: seq<Binding>, f: Binding -> seq<Binding>, k: nat)
    requires k < |bs| && f(bs[k]) == [bs[k]] && forall j :: 0 <= j < |bs| && j != k ==> f(bs[j]) == []
    ensures Collect(bs, f) == [bs[k]]
  {
    SplitAt(bs, k);
    CollectAround(bs[..k], bs[k], bs[k + 1..], f);
    NoneCollected(bs[..k], f);
    NoneCollected(bs[k + 1..], f);
  }

  /** And only then. */
  lemma {:induction false} OneOnly(bs: seq<Binding>, f: Binding -> seq<Binding>) returns (k: nat)
    requires forall k :: 0 <= k < |bs| ==> |f(bs[k])| <= 1
    requires |Collect(bs, f)| == 1
    ensures k < |bs| && f(bs[k]) != [] && forall j :: 0 <= j < |bs| && j != k ==> f(bs[j]) == []
  {
    if forall k :: 0 <= k < |bs| ==> f(bs[k]) == [] {
      NoneCollected(bs, f);
    } else {
      k :| 0 <= k < |bs| && f(bs[k]) != [];
      forall j | 0 <= j < |bs| && j != k ensures f(bs[j]) == [] {
        if j < k { Split(bs, j, k, f); } else { Split(bs, k, j, f); }
      }
    }
  }

  lemma PickAll(bs: seq<Binding>, k: nat)
    requires k < |bs|
    ensures OnlyCandidate(bs, k) ==> Candidates(bs) == [bs[k]]
  {
    var f := (b: Binding) => if Eligible(b) then [b] else [];
    if OnlyCandidate(bs, k) {
      forall j | 0 <= j < |bs| && j != k ensures f(bs[j]) == [] { assert !Candidate(bs, j); }
      OneCollected(bs, f, k);
    }
  }

  lemma PickSized(bs: seq<Binding>, w: nat, h: nat, k: nat)
    requires k < |bs|
    ensures OnlyOfSize(bs, w, h, k) ==> SizedCandidates(bs, w, h) == [bs[k]]
  {
    var g := (b: Binding) => if Eligible(b) && HasSize(b, w, h) then [b] else [];
    if OnlyOfSize(bs, w, h, k) {
      forall j | 0 <= j < |bs| && j != k ensures g(bs[j]) == [] { assert !OfSize(bs, w, h, j); }
      OneCollected(bs, g, k);
    }
  }

  lemma AllPicked(bs: seq<Binding>)
    requires |Candidates(bs)| == 1
    ensures exists k: nat :: OnlyCandidate(bs, k)
  {
    var f := (b: Binding) => if Eligible(b) then [b] else [];
    var k := OneOnly(bs, f);
    forall j | Candidate(bs, j) ensures j == k { assert f(bs[j]) != []; }
    assert OnlyCandidate(bs, k);
  }

  lemma SizedPicked(bs: seq<Binding>, w: nat, h: nat)
    requires |SizedCandidates(bs, w, h)| == 1
    ensures exists k: nat :: OnlyOfSize(bs, w, h, k)
  {
    var g := (b: Binding) => if Eligible(b) && HasSize(b, w, h) then [b] else [];
    var k := OneOnly(bs, g);
    forall j | OfSize(bs, w, h, j) ensures j == k { assert g(bs[j]) != []; }
    assert OnlyOfSize(bs, w, h, k);
  }

  /** A sized candidate is a candidate, so one of them leaves one candidate at least. */
  lemma SizedAreCandidates(bs: seq<Binding>, w: nat, h: nat, k: nat)
    requires OfSize(bs, w, h, k)
    ensures |Candidates(bs)| >= 1
  {
    var f := (b: Binding) => if Eligible(b) then [b] else [];
    SplitAt(bs, k);
    CollectAround(bs[..k], bs[k], bs[k + 1..], f);
  }

  lemma AloneOfSize(bs: seq<Binding>, w: nat, h: nat, k: nat)
    requires OfSize(bs, w, h, k) && |Candidates(bs)| == 1
    ensures OnlyCandidate(bs, k)
  {
    AllPicked(bs);
    var j: nat :| OnlyCandidate(bs, j);
    assert Candidate(bs, k);
  }

  /** The panel is answered exactly when one binding is the only candidate, or the only one of the
      panel's size; and that binding is the answer. */
  lemma PickPanelIff(bs: seq<Binding>, w: nat, h: nat)
    ensures PickPanel(bs, w, h).Some? <==> exists k: nat :: OnlyCandidate(bs, k) || OnlyOfSize(bs, w, h, k)
    ensures forall k: nat :: OnlyCandidate(bs, k) || OnlyOfSize(bs, w, h, k) ==> PickPanel(bs, w, h) == Some(bs[k])
  {
    forall k: nat | OnlyCandidate(bs, k) || OnlyOfSize(bs, w, h, k) ensures PickPanel(bs, w, h) == Some(bs[k]) {
      if OfSize(bs, w, h, k) && |Candidates(bs)| == 1 { AloneOfSize(bs, w, h, k); }
      if OnlyCandidate(bs, k) {
        PickAll(bs, k);
      } else {
        PickSized(bs, w, h, k);
        SizedAreCandidates(bs, w, h, k);
      }
    }
    if |Candidates(bs)| == 1 { AllPicked(bs); }
    if |SizedCandidates(bs, w, h)| == 1 { SizedPicked(bs, w, h); }
  }

  // ---- The stored table and its readers -------------------------------------------------------

  method SameBinding(a: Binding, b: Binding) returns (r: bool)
    ensures r == (IdentityOf(a) == IdentityOf(b))
  {
    r := a.monitorId == b.monitorId && a.srDisplayId == b.srDisplayId && a.fpcVerified == b.fpcVerified
         && a.serial == b.serial;
  }

  class MonitorTable {
    const slots: array<Binding>
    var count: nat
    var generation: nat

    ghost predicate Valid()
      reads this
    {
      slots.Length == MAX_BINDINGS && count <= MAX_BINDINGS
    }

    ghost function View(): Table
      reads this, slots
      requires Valid()
    {
      Table(slots[..count], generation)
    }

    constructor (blank: Binding)
      ensures Valid() && fresh(slots) && View() == Table([], 0)
    {
      slots := new Binding[MAX_BINDINGS](_ => blank);
      count, generation := 0, 0;
    }

    /** leiasr claims store: compare identities, move the generation, then copy. */
    method StoreBindings(bs: Option<seq<Binding>>)
      requires Valid()
      modifies this, slots
      ensures Valid() && View() == Store(old(View()), bs)
    {
      ghost var before := slots[..count];
      var now := match bs case None => [] case Some(s) => Upto(s, MAX_BINDINGS);
      var changed := |now| != count;
      var i := 0;
      while !changed && i < |now|
        invariant 0 <= i <= |now|
        invariant generation == old(generation) && count == |before| && slots[..count] == before
        invariant |now| == count || changed
        invariant changed ==> Identities(now) != Identities(before)
        invariant !changed ==> forall k :: 0 <= k < i ==> IdentityOf(now[k]) == IdentityOf(before[k])
      {
        assert slots[i] == before[i];
        var same := SameBinding(slots[i], now[i]);
        if !same {
          changed := true;
          assert Identities(now)[i] != Identities(before)[i];
        }
        i := i + 1;
      }
      assert changed == (Identities(now) != Identities(before));
      if changed {
        generation := generation + 1;
      }
      forall k | 0 <= k < |now| {
        slots[k] := now[k];
      }
      count := |now|;
      assert slots[..count] == now;
    }

    /** leia_win_claims_lookup: the first binding of a monitor. */
    method LookupMonitor(monitorId: nat) returns (r: Option<Binding>)
      requires Valid()
      ensures r == Lookup(View(), monitorId)
    {
      ghost var p := (b: Binding) => b.monitorId == monitorId;
      var i := 0;
      while i < count
        invariant 0 <= i <= count
        invariant forall k :: 0 <= k < i ==> slots[k].monitorId != monitorId
      {
        if slots[i].monitorId == monitorId {
          FirstIs(View().bindings, p, i);
          return Some(slots[i]);
        }
        i := i + 1;
      }
      FirstNone(View().bindings, p);
      return None;
    }

    /** leia_win_claims_find_serial: only an FPC-verified binding answers, and never to "". */
    method FindSerial(serial: string) returns (r: Option<Binding>)
      requires Valid()
      ensures serial == "" ==> r.None?
      ensures serial != "" ==>
                match First(View().bindings, (b: Binding) => b.fpcVerified && b.serial == serial)
                case None => r.None?
                case Some(i) => i < |View().bindings| && r == Some(View().bindings[i])
    {
      if serial == "" { return None; }
      ghost var p := (b: Binding) => b.fpcVerified && b.serial == serial;
      var i := 0;
      while i < count
        invariant 0 <= i <= count
        invariant forall k :: 0 <= k < i ==> !(slots[k].fpcVerified && slots[k].serial == serial)
      {
        if slots[i].fpcVerified && slots[i].serial == serial {
          FirstIs(View().bindings, p, i);
          return Some(slots[i]);
        }
        i := i + 1;
      }
      FirstNone(View().bindings, p);
      return None;
    }
  }

  lemma CollectSnoc(bs: seq<Binding>, i: nat, f: Binding -> seq<Binding>)
    requires i < |bs|
    ensures Collect(bs[..i + 1], f) == Collect(bs[..i], f) + f(bs[i])
  {
    assert bs[..i + 1] == bs[..i] + [bs[i]];
    CollectAppend(bs[..i], [bs[i]], f);
    assert Collect([bs[i]], f) == f(bs[i]) + Collect([], f);
  }

  /** leia_win_claims_pick_panel: one counting scan. */
  method PickPanelScan(bs: seq<Binding>, w: nat, h: nat) returns (r: Option<Binding>)
    ensures r == PickPanel(bs, w, h)
  {
    ghost var f := (b: Binding) => if Eligible(b) then [b] else [];
    ghost var g := (b: Binding) => if Eligible(b) && HasSize(b, w, h) then [b] else [];
    var only, verified, bySize, sizeHits, i := 0, 0, 0, 0, 0;
    while i < |bs|
      invariant 0 <= i <= |bs|
      invariant verified == |Collect(bs[..i], f)| && sizeHits == |Collect(bs[..i], g)|
      invariant verified > 0 ==> 0 <= only < |bs| && Collect(bs[..i], f)[verified - 1] == bs[only]
      invariant sizeHits > 0 ==> 0 <= bySize < |bs| && Collect(bs[..i], g)[sizeHits - 1] == bs[bySize]
    {
      CollectSnoc(bs, i, f);
      CollectSnoc(bs, i, g);
      var b := bs[i];
      if b.verified && b.pos.Some? {
        verified, only := verified + 1, i;
        var bw := if b.nativeW != 0 then b.nativeW else b.pixelW;
        var bh := if b.nativeH != 0 then b.nativeH else b.pixelH;
        if w != 0 && h != 0 && bw == w && bh == h {
          sizeHits, bySize := sizeHits + 1, i;
        }
      }
      i := i + 1;
    }
    assert bs[..i] == bs;
    if verified == 1 { return Some(bs[only]); }
    if verified > 1 && sizeHits == 1 { return Some(bs[bySize]); }
    return None;
  }
}
