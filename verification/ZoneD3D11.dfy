/**
 The D3D11 sibling of the zone-mask readback. D3D11 keeps its own reference to what a queued copy
 uses, so there is nothing to guard; the readback is a staging texture mapped with DO_NOT_WAIT, and
 what could go wrong is reading a copy of the wrong generation or size.
 */
module ZoneD3D11 {
  import opened Common
  import opened ZoneLens
  import opened ZoneMask

  /** One CopyResource into the staging texture: the mask, and the rows a later Map shows. */
  datatype Copy = Copy(seqNo: nat, mask: Mask, rows: seq<seq<Byte>>)

  /** The staging texture, the size it was last created for, and the copy not consumed yet. */
  datatype Staging = Staging(made: bool, width: nat, height: nat, pending: bool, seqNo: nat)

  /** `copies` and `cleared` are history: every copy queued, and how many preceded the last clear. */
  datatype State = Dp(zone: Zone, lens: Lens, st: Staging, copies: seq<Copy>, cleared: nat)

  datatype MapResult = StillDrawing | MapFailed | Mapped

  datatype Env = Env(createOk: bool, mapping: MapResult, requestOk: bool, pad: seq<Byte>)

  const NO_STAGING := Staging(false, 0, 0, false, 0)

  predicate Initial(s: State) {
    s.zone == IDLE && s.lens.log == [] && s.lens.activation == 0 && s.st == NO_STAGING
    && s.copies == [] && s.cleared == 0
  }

  // ---- The specification of each operation ----------------------------------------------------

  function LensState(s: State): Authority { Authority(s.zone, s.lens) }

  function WithLens(s: State, l: Authority): State { s.(zone := l.zone, lens := l.lens) }

  function Edge(s: State, requestOk: bool): (State, bool) {
    var (l, ok) := Drive(LensState(s), requestOk);
    (WithLens(s, l), ok)
  }

  predicate Sized(s: State, m: Mask) {
    s.st.width == m.w && s.st.height == m.h
  }

  /** Copy the mask into a staging texture of its size, creating that when it is missing. */
  function Issue(s: State, m: Mask, n: nat, e: Env): (State, bool) {
    var create := !s.st.made || !Sized(s, m);
    if create && !e.createOk then (s.(st := s.st.(made := false)), false)
    else (s.(st := Staging(true, m.w, m.h, true, n), copies := s.copies + [Copy(n, m, Pitched(m, e.pad))]), true)
  }

  /** Map the staging texture; the blocking mode's Map never reports a copy still drawing. */
  function MapStaging(s: State, async: bool, m: Mask, n: nat, e: Env): (State, bool) {
    if async && e.mapping.StillDrawing? then
      if s.zone.valid then Edge(s, e.requestOk) else (s, true)
    else if e.mapping.MapFailed? then (s.(st := s.st.(pending := false)), false)
    else
      var rows := if s.copies == [] then [] else s.copies[|s.copies| - 1].rows;
      var l := Landed(LensState(s), n, AnySet(rows, m.w, m.h));
      Edge(WithLens(s, l).(st := s.st.(pending := false)), e.requestOk)
  }

  /** Another generation or another size is pending: this call must queue its own copy. */
  predicate MustIssue(s: State, m: Mask, n: nat) {
    !s.st.pending || s.st.seqNo != n || !Sized(s, m)
  }

  /** A publish that needs a verdict: queue a copy if none of this generation and size is pending, then map. */
  function Evaluate(s: State, async: bool, m: Mask, n: nat, e: Env): (State, bool) {
    if !MustIssue(s, m, n) then MapStaging(s, async, m, n, e)
    else
      var (t, ok) := Issue(s, m, n, e);
      if !ok then (t, false) else MapStaging(t, async, m, n, e)
  }

  function Publish(s: State, async: bool, mask: Option<Mask>, n: nat, e: Env): (State, bool) {
    if mask.None? || mask.value.w == 0 || mask.value.h == 0 then (s, false)
    else if s.zone.valid && n == s.zone.evalSeq then Edge(s, e.requestOk)
    else Evaluate(s, async, mask.value, n, e)
  }

  function ClearMask(s: State, viewCount: nat, requestOk: bool): State {
    var l := Cleared(LensState(s), viewCount >= 2, requestOk);
    WithLens(s, l).(st := s.st.(pending := false), cleared := |s.copies|)
  }

  datatype Event =
    | EvPublish(mask: Option<Mask>, n: nat, env: Env)
    | EvClear(viewCount: nat, requestOk: bool)

  /** This publish gets past the checks of its arguments and finds no verdict of its generation. */
  predicate Evaluates(s: State, mask: Option<Mask>, n: nat) {
    mask.Some? && mask.value.w != 0 && mask.value.h != 0 && !(s.zone.valid && n == s.zone.evalSeq)
  }

  /** The staging texture of the pending copy is gone. */
  predicate Gone(s: State) { s.st.pending && !s.st.made }

  /** The pending copy's own generation and size are published again with its staging texture gone: the
      code maps no texture there, so no such publish is modelled. */
  predicate MapsNothing(s: State, mask: Option<Mask>, n: nat) {
    Gone(s) && Evaluates(s, mask, n) && !MustIssue(s, mask.value, n)
  }

  predicate EventOk(s: State, ev: Event) {
    ev.EvPublish? ==> (ev.mask.Some? ==> WellFormed(ev.mask.value)) && !MapsNothing(s, ev.mask, ev.n)
  }

  function Next(s: State, async: bool, ev: Event): State {
    match ev
    case EvPublish(m, n, e) => Publish(s, async, m, n, e).0
    case EvClear(v, ok) => ClearMask(s, v, ok)
  }

  predicate RunOk(s: State, async: bool, evs: seq<Event>)
    decreases |evs|
  {
    evs == [] || (EventOk(s, evs[0]) && RunOk(Next(s, async, evs[0]), async, evs[1..]))
  }

  function Run(s: State, async: bool, evs: seq<Event>): State
    decreases |evs|
  {
    if evs == [] then s else Run(Next(s, async, evs[0]), async, evs[1..])
  }

  // ---- What every run keeps -------------------------------------------------------------------

  ghost predicate IsCopy(c: Copy) {
    WellFormed(c.mask) && AnySet(c.rows, c.mask.w, c.mask.h) == Wants3D(c.mask)
    && |c.rows| == c.mask.h && forall y :: 0 <= y < |c.rows| ==> c.mask.w <= |c.rows[y]|
  }

  /** A copy queued since the last clear carries the evaluated generation, and its mask the verdict. */
  ghost predicate Evidence(s: State) {
    exists k :: s.cleared <= k < |s.copies| && s.copies[k].seqNo == s.zone.evalSeq
                && WellFormed(s.copies[k].mask) && s.zone.want == Wants3D(s.copies[k].mask)
  }

  ghost predicate Safe(s: State) {
    && s.cleared <= |s.copies|
    && (forall k :: 0 <= k < |s.copies| ==> IsCopy(s.copies[k]))
    && (s.st.pending ==>
          && s.cleared < |s.copies|
          && var c := s.copies[|s.copies| - 1];
             c.seqNo == s.st.seqNo && c.mask.w == s.st.width && c.mask.h == s.st.height)
    && (s.zone.valid ==> Evidence(s))
    && (s.zone.active ==> s.zone.valid)
  }

  lemma IssueKeeps(s: State, m: Mask, n: nat, e: Env)
    requires Safe(s) && WellFormed(m)
    ensures var (t, ok) := Issue(s, m, n, e);
            Safe(t) && t.zone == s.zone && t.lens == s.lens
            && (ok ==> t.st.pending && t.st.seqNo == n && Sized(t, m) && t.copies[|t.copies| - 1].mask == m)
  {
    ScanSeesTheMask(m, e.pad);
    var t := Issue(s, m, n, e).0;
    assert forall k :: 0 <= k < |s.copies| ==> t.copies[k] == s.copies[k];
    if s.zone.valid {
      var k :| s.cleared <= k < |s.copies| && s.copies[k].seqNo == s.zone.evalSeq
               && WellFormed(s.copies[k].mask) && s.zone.want == Wants3D(s.copies[k].mask);
      assert t.copies[k] == s.copies[k];
    }
  }

  lemma EdgeKeeps(s: State, requestOk: bool)
    requires Safe(s) && s.zone.valid
    ensures Safe(Edge(s, requestOk).0)
  {
    assert Evidence(s);
    assert Evidence(Edge(s, requestOk).0);
  }

  /** A verdict landed is that of the pending copy. */
  lemma LandKeeps(s: State, any: bool)
    requires Safe(s) && s.st.pending && any == Wants3D(s.copies[|s.copies| - 1].mask)
    ensures var t := WithLens(s, Landed(LensState(s), s.st.seqNo, any)).(st := s.st.(pending := false));
            Safe(t) && t.zone.valid
  {
    var t := WithLens(s, Landed(LensState(s), s.st.seqNo, any)).(st := s.st.(pending := false));
    assert IsCopy(s.copies[|s.copies| - 1]);
    assert t.copies[|t.copies| - 1].seqNo == t.zone.evalSeq;
    assert Evidence(t);
  }

  lemma MapKeeps(s: State, async: bool, m: Mask, n: nat, e: Env)
    requires Safe(s) && s.st.pending && s.st.seqNo == n && Sized(s, m)
    ensures Safe(MapStaging(s, async, m, n, e).0)
  {
    var c := s.copies[|s.copies| - 1];
    assert IsCopy(c);
    if async && e.mapping.StillDrawing? {
      if s.zone.valid { EdgeKeeps(s, e.requestOk); }
    } else if e.mapping.MapFailed? {
      assert s.zone.valid ==> Evidence(s);
      assert s.zone.valid ==> Evidence(MapStaging(s, async, m, n, e).0);
    } else {
      LandKeeps(s, Wants3D(c.mask));
      EdgeKeeps(WithLens(s, Landed(LensState(s), n, Wants3D(c.mask))).(st := s.st.(pending := false)), e.requestOk);
    }
  }

  /** And what it reads is the pending copy: one of the published generation and size. */
  lemma MapReads(s: State, async: bool, m: Mask, n: nat, e: Env)
    requires Safe(s) && s.st.pending && s.st.seqNo == n && Sized(s, m) && e.mapping.Mapped?
    ensures var c, t := s.copies[|s.copies| - 1], MapStaging(s, async, m, n, e).0;
            && c.seqNo == n && c.mask.w == m.w && c.mask.h == m.h && WellFormed(c.mask)
            && t.zone.valid && t.zone.evalSeq == n && t.zone.want == Wants3D(c.mask)
  {
    assert IsCopy(s.copies[|s.copies| - 1]);
  }

  /** A mapped verdict is always that of the published generation's own copy, at its own size. */
  lemma NextKeeps(s: State, async: bool, ev: Event)
    requires Safe(s) && EventOk(s, ev)
    ensures Safe(Next(s, async, ev))
  {
    match ev
    case EvClear(v, ok) =>
    case EvPublish(mask, n, e) =>
      if mask.None? || mask.value.w == 0 || mask.value.h == 0 {
      } else if s.zone.valid && n == s.zone.evalSeq {
        assert Evidence(s);
        assert Evidence(Edge(s, e.requestOk).0);
      } else if !MustIssue(s, mask.value, n) {
        MapKeeps(s, async, mask.value, n, e);
      } else {
        IssueKeeps(s, mask.value, n, e);
        if Issue(s, mask.value, n, e).1 {
          MapKeeps(Issue(s, mask.value, n, e).0, async, mask.value, n, e);
        }
      }
  }

  /** Over every run: the verdict is that of a copy of its generation queued since the last clear. */
  lemma {:induction false} RunIsSafe(s: State, async: bool, evs: seq<Event>)
    requires Safe(s) && RunOk(s, async, evs)
    ensures Safe(Run(s, async, evs))
    decreases |evs|
  {
    if evs != [] {
      NextKeeps(s, async, evs[0]);
      RunIsSafe(Next(s, async, evs[0]), async, evs[1..]);
    }
  }

  // ---- What a clear forgets -------------------------------------------------------------------

  /** A clear drops the pending copy, the verdict and the zone's hold of the lens, and nothing else. */
  lemma ClearForgets(s: State, viewCount: nat, requestOk: bool)
    ensures var t := ClearMask(s, viewCount, requestOk);
            && !t.st.pending && !t.zone.valid && !t.zone.active && (s.zone.active ==> !t.zone.hint)
            && t.st == s.st.(pending := false) && t.copies == s.copies && t.cleared == |s.copies|
  {
  }

  lemma {:induction false} RunClearsNothing(s: State, async: bool, evs: seq<Event>)
    requires forall i :: 0 <= i < |evs| ==> !evs[i].EvClear?
    ensures Run(s, async, evs).cleared == s.cleared
    decreases |evs|
  {
    if evs != [] {
      assert Next(s, async, evs[0]).cleared == s.cleared;
      RunClearsNothing(Next(s, async, evs[0]), async, evs[1..]);
    }
  }

  ghost predicate VerdictFrom(s: State, k: nat) {
    exists j: nat :: k <= j < |s.copies| && s.copies[j].seqNo == s.zone.evalSeq
                     && WellFormed(s.copies[j].mask) && s.zone.want == Wants3D(s.copies[j].mask)
  }

  ghost predicate PendingFrom(s: State, k: nat) {
    k < |s.copies| && s.copies[|s.copies| - 1].seqNo == s.st.seqNo
  }

  /** Over any run to a clear and any run on from it without another: whatever verdict stands, and
      whatever copy is pending, is of a copy queued after that clear. */
  lemma {:induction false} ClearIsFinal(s: State, async: bool, before: seq<Event>, viewCount: nat, requestOk: bool,
                                        after: seq<Event>)
    requires Safe(s) && RunOk(s, async, before) && forall i :: 0 <= i < |after| ==> !after[i].EvClear?
    requires RunOk(Next(Run(s, async, before), async, EvClear(viewCount, requestOk)), async, after)
    ensures var u := Run(s, async, before);
            var t := Run(Next(u, async, EvClear(viewCount, requestOk)), async, after);
            (t.zone.valid ==> VerdictFrom(t, |u.copies|)) && (t.st.pending ==> PendingFrom(t, |u.copies|))
  {
    var u := Run(s, async, before);
    var c := Next(u, async, EvClear(viewCount, requestOk));
    RunIsSafe(s, async, before);
    NextKeeps(u, async, EvClear(viewCount, requestOk));
    ClearForgets(u, viewCount, requestOk);
    RunIsSafe(c, async, after);
    RunClearsNothing(c, async, after);
  }

  // ---- When the staging texture of a pending copy is gone --------------------------------------

  predicate CreatesFor(s: State, ev: Event) {
    ev.EvPublish? && Evaluates(s, ev.mask, ev.n) && MustIssue(s, ev.mask.value, ev.n)
    && (!s.st.made || !Sized(s, ev.mask.value))
  }

  /** A staging create fails with a copy pending. */
  predicate LosesStaging(s: State, ev: Event) { CreatesFor(s, ev) && !ev.env.createOk && s.st.pending }

  /** A staging create succeeds, or the zone is cleared. */
  predicate Recovers(s: State, ev: Event) { ev.EvClear? || (CreatesFor(s, ev) && ev.env.createOk) }

  lemma IssueGoneIff(s: State, m: Mask, n: nat, e: Env)
    ensures var create, t := !s.st.made || !Sized(s, m), Issue(s, m, n, e).0;
            Gone(t) <==> create && !e.createOk && s.st.pending
  {
  }

  lemma MapMakesNothing(s: State, async: bool, m: Mask, n: nat, e: Env)
    ensures var t := MapStaging(s, async, m, n, e).0; t.st.made == s.st.made && (t.st.pending ==> s.st.pending)
  {
  }

  lemma GoneStep(s: State, async: bool, ev: Event)
    requires EventOk(s, ev)
    ensures Gone(Next(s, async, ev)) <==> LosesStaging(s, ev) || (Gone(s) && !Recovers(s, ev))
  {
    if ev.EvPublish? && Evaluates(s, ev.mask, ev.n) {
      var m := ev.mask.value;
      IssueGoneIff(s, m, ev.n, ev.env);
      MapMakesNothing(s, async, m, ev.n, ev.env);
      MapMakesNothing(Issue(s, m, ev.n, ev.env).0, async, m, ev.n, ev.env);
    }
  }

  lemma {:induction false} RunSnoc(s: State, async: bool, evs: seq<Event>, k: nat)
    requires k < |evs| && RunOk(s, async, evs)
    ensures Run(s, async, evs[..k + 1]) == Next(Run(s, async, evs[..k]), async, evs[k])
    ensures EventOk(Run(s, async, evs[..k]), evs[k])
    decreases |evs|
  {
    if k == 0 {
      assert evs[..1][1..] == [];
    } else {
      RunSnoc(Next(s, async, evs[0]), async, evs[1..], k - 1);
      assert evs[..k + 1][1..] == evs[1..][..k] && evs[..k][1..] == evs[1..][..k - 1];
    }
  }

  predicate LosesAt(s: State, async: bool, evs: seq<Event>, k: nat) {
    k < |evs| && LosesStaging(Run(s, async, evs[..k]), evs[k])
  }

  predicate RecoversAt(s: State, async: bool, evs: seq<Event>, k: nat) {
    k < |evs| && Recovers(Run(s, async, evs[..k]), evs[k])
  }

  /** The staging texture of the pending copy is gone exactly when some create failed with a copy pending
      and since then no create succeeded and no clear came. */
  lemma {:induction false} GoneIff(s: State, async: bool, evs: seq<Event>)
    requires !Gone(s) && RunOk(s, async, evs)
    ensures Gone(Run(s, async, evs))
            <==> exists k: nat :: LosesAt(s, async, evs, k)
                                  && forall j: nat :: k < j < |evs| ==> !RecoversAt(s, async, evs, j)
  {
    var flag := (k: nat) => k <= |evs| && Gone(Run(s, async, evs[..k]));
    var raises, lowers := (k: nat) => LosesAt(s, async, evs, k), (k: nat) => RecoversAt(s, async, evs, k);
    forall k: nat | k < |evs| ensures flag(k + 1) <==> raises(k) || (flag(k) && !lowers(k)) {
      RunSnoc(s, async, evs, k);
      GoneStep(Run(s, async, evs[..k]), async, evs[k]);
    }
    assert evs[..0] == [] && evs[..|evs|] == evs;
    StandsIff(flag, raises, lowers, |evs|);
    if k: nat :| RaisedAt(raises, lowers, |evs|, k) {
      assert LosesAt(s, async, evs, k);
      assert forall j: nat :: RecoversAt(s, async, evs, j) ==> lowers(j);
    }
    if k: nat :| LosesAt(s, async, evs, k) && forall j: nat :: k < j < |evs| ==> !RecoversAt(s, async, evs, j) {
      assert RaisedAt(raises, lowers, |evs|, k);
    }
  }

  const DOT := Mask(1, 1, [[1]])
  const PAIR := Mask(2, 1, [[1, 1]])

  /** It can come to that: while generation 1 is being copied its mask is resized, the create for the new
      size fails, and the old size comes back. */
  lemma {:induction false} SmallerMaskReturns(s: State)
    requires Initial(s)
    ensures var evs := [EvPublish(Some(DOT), 1, Env(true, StillDrawing, true, [])),
                        EvPublish(Some(PAIR), 1, Env(false, StillDrawing, true, []))];
            RunOk(s, true, evs) && MapsNothing(Run(s, true, evs), Some(DOT), 1)
  {
    var e1, e2 := Env(true, StillDrawing, true, []), Env(false, StillDrawing, true, []);
    var ev1, ev2 := EvPublish(Some(DOT), 1, e1), EvPublish(Some(PAIR), 1, e2);
    var t := Next(s, true, ev1);
    assert t.st == Staging(true, 1, 1, true, 1) && !t.zone.valid;
    assert Next(t, true, ev2) == t.(st := t.st.(made := false));
    assert [ev1, ev2][1..] == [ev2] && [ev2][1..] == [];
    assert Run(t, true, [ev2]) == Run(Next(t, true, ev2), true, []);
  }

  // ---- Refinement of the lens machine ---------------------------------------------------------

  lemma PublishRefines(s: State, async: bool, mask: Option<Mask>, n: nat, e: Env) returns (step: Step)
    ensures !step.Clear? && Enabled(LensState(s), step)
    ensures Apply(LensState(s), step)
            == (LensState(Publish(s, async, mask, n, e).0), Publish(s, async, mask, n, e).1)
  {
    if mask.None? || mask.value.w == 0 || mask.value.h == 0 {
      step := Refuse;
    } else if s.zone.valid && n == s.zone.evalSeq {
      step := Carry(e.requestOk);
    } else if MustIssue(s, mask.value, n) && !Issue(s, mask.value, n, e).1 {
      step := Refuse;
    } else if async && e.mapping.StillDrawing? {
      step := if s.zone.valid then Carry(e.requestOk) else Wait;
    } else if e.mapping.MapFailed? {
      step := Refuse;
    } else {
      var t := if MustIssue(s, mask.value, n) then Issue(s, mask.value, n, e).0 else s;
      var rows := if t.copies == [] then [] else t.copies[|t.copies| - 1].rows;
      step := Land(n, AnySet(rows, mask.value.w, mask.value.h), e.requestOk);
    }
  }

  lemma {:induction false} RunRefines(s: State, async: bool, evs: seq<Event>) returns (run: seq<Step>)
    ensures |run| == |evs| && EnabledRun(LensState(s), run)
    ensures ZoneLens.Run(LensState(s), run) == LensState(Run(s, async, evs))
    decreases |evs|
  {
    if evs == [] {
      run := [];
    } else {
      var rest := RunRefines(Next(s, async, evs[0]), async, evs[1..]);
      var step: Step;
      match evs[0] {
        case EvPublish(m, n, e) => step := PublishRefines(s, async, m, n, e);
        case EvClear(v, ok) => step := Clear(v >= 2, ok);
      }
      run := [step] + rest;
      assert run[1..] == rest;
    }
  }

  lemma {:induction false} RequestsAlternate(s: State, async: bool, evs: seq<Event>)
    requires Initial(s)
    ensures Coherent(LensState(Run(s, async, evs)))
    ensures Alternates(Run(s, async, evs).lens.log)
  {
    var run := RunRefines(s, async, evs);
    RunKeeps(LensState(s), run);
  }

  predicate Settled(s: State, m: Mask, n: nat)
    requires WellFormed(m)
  {
    s.zone == Zone(true, n, Wants3D(m), Wants3D(m), true)
  }

  /** The pending copy is one of this generation's mask. */
  ghost predicate Waiting(s: State, m: Mask, n: nat) {
    && s.st.pending && s.st.seqNo == n && Sized(s, m) && !(s.zone.valid && s.zone.evalSeq == n)
    && s.copies != [] && IsCopy(s.copies[|s.copies| - 1]) && s.copies[|s.copies| - 1].mask == m
  }

  lemma MappingSettles(s: State, async: bool, m: Mask, n: nat, e: Env)
    requires WellFormed(m) && Waiting(s, m, n) && !e.mapping.MapFailed? && e.requestOk
    requires s.zone.active ==> s.zone.valid
    ensures var t := MapStaging(s, async, m, n, e).0; Settled(t, m, n) || Waiting(t, m, n)
    ensures e.mapping.Mapped? ==> Settled(MapStaging(s, async, m, n, e).0, m, n)
  {
  }

  lemma FirstPublish(s: State, async: bool, m: Mask, n: nat, e: Env)
    requires Safe(s) && EventOk(s, EvPublish(Some(m), n, e)) && m.w > 0 && m.h > 0 && e.createOk
    requires !(s.zone.valid && s.zone.evalSeq == n) && (s.st.pending && s.st.seqNo == n && Sized(s, m)
             ==> s.copies[|s.copies| - 1].mask == m)
    requires !e.mapping.MapFailed? && e.requestOk
    ensures var t := Publish(s, async, Some(m), n, e).0;
            (t.zone.active ==> t.zone.valid) && (Settled(t, m, n) || Waiting(t, m, n))
  {
    NextKeeps(s, async, EvPublish(Some(m), n, e));
    var i := if MustIssue(s, m, n) then Issue(s, m, n, e).0 else s;
    IssueKeeps(s, m, n, e);
    assert IsCopy(i.copies[|i.copies| - 1]);
    MappingSettles(i, async, m, n, e);
  }

  /** Once the copy of a generation has retired, one more publish of it settles the zone. */
  lemma RetiredCopySettles(s: State, async: bool, m: Mask, n: nat, e1: Env, e2: Env)
    requires Safe(s) && EventOk(s, EvPublish(Some(m), n, e1)) && m.w > 0 && m.h > 0 && e1.createOk && e2.createOk
    requires !(s.zone.valid && s.zone.evalSeq == n) && (s.st.pending && s.st.seqNo == n && Sized(s, m)
             ==> s.copies[|s.copies| - 1].mask == m)
    requires !e1.mapping.MapFailed? && e2.mapping.Mapped? && e1.requestOk && e2.requestOk
    ensures Settled(Publish(Publish(s, async, Some(m), n, e1).0, async, Some(m), n, e2).0, m, n)
  {
    FirstPublish(s, async, m, n, e1);
    var t := Publish(s, async, Some(m), n, e1).0;
    if Waiting(t, m, n) {
      MappingSettles(t, async, m, n, e2);
    }
  }

  // ---- The display processor's own code -------------------------------------------------------

  class DisplayProcessor {
    const asyncPublish: bool
    var zone: Zone
    var st: Staging
    var lens: Lens
    var copies: seq<Copy>
    ghost var cleared: nat

    ghost function View(): State
      reads this
    {
      Dp(zone, lens, st, copies, cleared)
    }

    constructor (async: bool, panel: Lens)
      ensures asyncPublish == async && View() == Dp(IDLE, panel, NO_STAGING, [], 0)
      ensures Safe(View())
    {
      asyncPublish := async;
      zone, st, lens, copies, cleared := IDLE, NO_STAGING, panel, [], 0;
    }

    method RequestDisplayMode(on: bool, ok: bool) returns (accepted: bool)
      modifies this`lens
      ensures accepted == ok
      ensures lens == if ok then Send(old(lens), on) else old(lens)
    {
      if ok {
        lens := Send(lens, on);
      }
      return ok;
    }

    method DriveLens(requestOk: bool) returns (ok: bool)
      modifies this`zone, this`lens
      ensures View() == Edge(old(View()), requestOk).0 && ok == Edge(old(View()), requestOk).1
    {
      if !zone.active || zone.hint != zone.want {
        if !zone.active && requestOk { lens := lens.(activation := lens.activation + 1); }
        var accepted := RequestDisplayMode(zone.want, requestOk);
        if !accepted { return false; }
        zone := zone.(hint := zone.want);
      }
      zone := zone.(active := true);
      return true;
    }

    method CopyMask(m: Mask, n: nat, e: Env) returns (ok: bool)
      requires WellFormed(m)
      modifies this`st, this`copies
      ensures View() == Issue(old(View()), m, n, e).0 && ok == Issue(old(View()), m, n, e).1
    {
      if !st.made || st.width != m.w || st.height != m.h {
        st := st.(made := false);
        if !e.createOk { return false; }
        st := st.(made := true, width := m.w, height := m.h);
      }
      copies := copies + [Copy(n, m, Pitched(m, e.pad))];
      st := st.(pending := true, seqNo := n);
      return true;
    }

    method MapAndScan(m: Mask, n: nat, e: Env) returns (ok: bool)
      requires |copies| > 0
      requires var rows := copies[|copies| - 1].rows;
               m.h <= |rows| && forall y :: 0 <= y < m.h ==> m.w <= |rows[y]|
      modifies this
      ensures View() == MapStaging(old(View()), asyncPublish, m, n, e).0
      ensures ok == MapStaging(old(View()), asyncPublish, m, n, e).1
    {
      if asyncPublish && e.mapping.StillDrawing? {
        if !zone.valid { return true; }
      } else if e.mapping.MapFailed? {
        st := st.(pending := false);
        return false;
      } else {
        var any := Scan(copies[|copies| - 1].rows, m.w, m.h);
        zone := zone.(want := any, evalSeq := n, valid := true);
        st := st.(pending := false);
      }
      ok := DriveLens(e.requestOk);
    }

    /** publish_local_zone_mask. */
    method PublishMask(mask: Option<Mask>, n: nat, e: Env) returns (ok: bool)
      requires Safe(View()) && EventOk(View(), EvPublish(mask, n, e))
      modifies this
      ensures View() == Publish(old(View()), asyncPublish, mask, n, e).0
      ensures ok == Publish(old(View()), asyncPublish, mask, n, e).1
      ensures Safe(View())
    {
      NextKeeps(View(), asyncPublish, EvPublish(mask, n, e));
      if mask.None? || mask.value.w == 0 || mask.value.h == 0 { return false; }
      var m := mask.value;
      if zone.valid && n == zone.evalSeq {
        ok := DriveLens(e.requestOk);
        return;
      }
      ok := EvaluateMask(m, n, e);
    }

    method EvaluateMask(m: Mask, n: nat, e: Env) returns (ok: bool)
      requires Safe(View()) && WellFormed(m)
      modifies this
      ensures View() == Evaluate(old(View()), asyncPublish, m, n, e).0
      ensures ok == Evaluate(old(View()), asyncPublish, m, n, e).1
    {
      if !st.pending || st.seqNo != n || st.width != m.w || st.height != m.h {
        IssueKeeps(View(), m, n, e);
        ok := CopyMask(m, n, e);
        if !ok { return; }
      }
      assert IsCopy(copies[|copies| - 1]);
      ok := MapAndScan(m, n, e);
    }

    /** clear_local_zone_mask. */
    method ClearLocalMask(viewCount: nat, requestOk: bool) returns (ok: bool)
      modifies this
      ensures ok && View() == ClearMask(old(View()), viewCount, requestOk)
    {
      if zone.active {
        if zone.hint != (viewCount >= 2) {
          var accepted := RequestDisplayMode(viewCount >= 2, requestOk);
        }
        zone := zone.(hint := false);
      }
      zone := zone.(active := false, valid := false);
      st := st.(pending := false);
      cleared := |copies|;
      return true;
    }
  }
}
