/**
 The D3D12 zone-mask readback: a copy is issued on the display processor's own queue, polled off a
 fence on later publishes, and its verdict drives the lens. The GPU is an environment that advances
 the fence's completed value on its own; any call may meet a failing D3D call.
 */
module ZoneD3D12 {
  import opened Common
  import opened ZoneLens
  import opened ZoneMask

  // ---- The GPU side ---------------------------------------------------------------------------

  /** One executed copy list: the mask it reads, the bytes it writes, the fence value behind it. */
  datatype Job = Job(seqNo: nat, mask: Mask, rows: seq<seq<Byte>>, value: nat)

  /** `completed` is what the fence reads; `signalled` the last value a Signal queued. */
  datatype Gpu = Gpu(completed: nat, signalled: nat, jobs: seq<Job>)

  /** Some list may still be executing: its fence value has not been reached. */
  predicate Busy(g: Gpu) {
    exists k :: 0 <= k < |g.jobs| && g.completed < g.jobs[k].value
  }

  // ---- The display processor's zone fields ----------------------------------------------------

  datatype Readback = Readback(
    hasAlloc: bool, hasList: bool, hasFence: bool, hasEvent: bool,
    buffer: bool, width: nat, height: nat,
    fenceValue: nat, seqNo: nat, armed: bool, src: Option<Mask>)

  /** `hazard` records a Reset, Release or Map of what an executing list uses; `cleared` counts the
      jobs executed before the last clear. Neither is read by the code. */
  datatype State = Dp(zone: Zone, lens: Lens, rb: Readback, gpu: Gpu, cleared: nat, hazard: bool)

  /** Which D3D calls of one publish succeed, the row padding the copy leaves, and SR's answer. */
  datatype Env = Env(allocOk: bool, listOk: bool, fenceOk: bool, eventOk: bool, bufferOk: bool,
                     resetOk: bool, closeOk: bool, signalOk: bool, waitOk: bool, mapOk: bool,
                     requestOk: bool, pad: seq<Byte>)

  predicate AllOk(e: Env) {
    e.allocOk && e.listOk && e.fenceOk && e.eventOk && e.bufferOk && e.resetOk && e.closeOk && e.signalOk
    && e.waitOk && e.mapOk && e.requestOk
  }

  const NO_READBACK := Readback(false, false, false, false, false, 0, 0, 0, 0, false, None)

  predicate Initial(s: State) {
    s.zone == IDLE && s.lens.log == [] && s.lens.activation == 0 && s.rb == NO_READBACK
    && s.gpu == Gpu(0, 0, []) && s.cleared == 0 && !s.hazard
  }

  predicate InFlight(s: State) {
    s.rb.hasFence && s.gpu.completed < s.rb.fenceValue
  }

  // ---- The specification of each operation ----------------------------------------------------

  /** Touching the allocator, the buffer or the held mask is a hazard while a list may execute. */
  function Touch(s: State): State {
    s.(hazard := s.hazard || Busy(s.gpu))
  }

  function DropSource(s: State): State {
    if s.rb.src.Some? then Touch(s).(rb := s.rb.(src := None)) else s
  }

  function MakeList(s: State, e: Env): (State, bool) {
    if !s.rb.hasAlloc && !e.allocOk then (s, false)
    else if !s.rb.hasList && !e.listOk then (s.(rb := s.rb.(hasAlloc := true)), false)
    else (s.(rb := s.rb.(hasAlloc := true, hasList := true)), true)
  }

  function MakeFence(s: State, e: Env): (State, bool) {
    if s.rb.hasFence then (s, true)
    else if !e.fenceOk then (s, false)
    else if !e.eventOk then (s.(rb := s.rb.(hasFence := true)), false)
    else (s.(rb := s.rb.(hasFence := true, hasEvent := true, fenceValue := 0)), true)
  }

  function MakeQueueObjects(s: State, e: Env): (State, bool) {
    var (s, listed) := MakeList(s, e);
    if !listed then (s, false) else MakeFence(s, e)
  }

  function SizeBuffer(s: State, m: Mask, e: Env): (State, bool) {
    if s.rb.buffer && s.rb.width == m.w && s.rb.height == m.h then (s, true) else
    var s := if s.rb.buffer then Touch(s).(rb := s.rb.(buffer := false)) else s;
    if !e.bufferOk then (s, false)
    else (s.(rb := s.rb.(buffer := true, width := m.w, height := m.h)), true)
  }

  function Execute(s: State, m: Mask, n: nat, e: Env): (State, bool) {
    var v := s.rb.fenceValue + 1;
    var s := s.(rb := s.rb.(fenceValue := v),
                gpu := s.gpu.(jobs := s.gpu.jobs + [Job(n, m, Pitched(m, e.pad), v)]));
    if !e.signalOk then (s, false)
    else (s.(gpu := s.gpu.(signalled := v), rb := s.rb.(seqNo := n, src := Some(m), armed := true)), true)
  }

  function Record(s: State, m: Mask, n: nat, e: Env): (State, bool) {
    var (s, sized) := SizeBuffer(s, m, e);
    if !sized then (s, false) else
    var s := Touch(s);
    if !e.resetOk || !e.closeOk then (s, false) else Execute(s, m, n, e)
  }

  function Issue(s: State, m: Mask, n: nat, e: Env): (State, bool) {
    var (s, made) := MakeQueueObjects(DropSource(s), e);
    if !made then (s, false) else Record(s, m, n, e)
  }

  datatype Polled = Pending | LandedAs(any: bool) | Failed

  function Poll(s: State, blocking: bool, e: Env): (State, Polled) {
    if !s.rb.buffer || !s.rb.hasFence then (s, Failed)
    else if InFlight(s) && !blocking then (s, Pending)
    else if InFlight(s) && (!s.rb.hasEvent || !e.waitOk) then (s, Failed)
    else
      var s := if InFlight(s) then s.(gpu := s.gpu.(completed := s.rb.fenceValue)) else s;
      if !e.mapOk then (s, Failed) else
      var rows := if s.gpu.jobs == [] then [] else s.gpu.jobs[|s.gpu.jobs| - 1].rows;
      (Touch(s), LandedAs(AnySet(rows, s.rb.width, s.rb.height)))
  }

  function LensState(s: State): Authority { Authority(s.zone, s.lens) }

  function WithLens(s: State, l: Authority): State { s.(zone := l.zone, lens := l.lens) }

  function Edge(s: State, requestOk: bool): (State, bool) {
    var (l, ok) := Drive(LensState(s), requestOk);
    (WithLens(s, l), ok)
  }

  predicate NeedsEval(s: State, n: nat) {
    !s.zone.valid || n != s.zone.evalSeq
  }

  /** The second half of a publish that needs an evaluation: consume or carry. */
  function Consume(s: State, async: bool, e: Env): (State, bool) {
    if !s.rb.armed then
      if s.zone.valid then Edge(s, e.requestOk) else (s, true)
    else
      var (s, p) := Poll(s, !async, e);
      match p
      case Failed => (s.(rb := s.rb.(armed := false)), false)
      case Pending => if s.zone.valid then Edge(s, e.requestOk) else (s, true)
      case LandedAs(any) =>
        var l := Landed(LensState(s), s.rb.seqNo, any);
        Edge(WithLens(s, l).(rb := s.rb.(armed := false)), e.requestOk)
  }

  /** A publish of generation `n`; `None` is a refused call (null mask, empty mask, no device). */
  function Publish(s: State, async: bool, mask: Option<Mask>, n: nat, e: Env): (State, bool) {
    if mask.None? || mask.value.w == 0 || mask.value.h == 0 then (s, false)
    else if !NeedsEval(s, n) then Edge(s, e.requestOk)
    else if s.rb.armed || InFlight(s) then Consume(s, async, e)
    else
      var (s, ok) := Issue(s, mask.value, n, e);
      if !ok then (s, false) else Consume(s, async, e)
  }

  function ClearMask(s: State, viewCount: nat, requestOk: bool): State {
    var l := Cleared(LensState(s), viewCount >= 2, requestOk);
    WithLens(s, l).(rb := s.rb.(armed := false), cleared := |s.gpu.jobs|)
  }

  /** The environment's step: the fence reaches `v`. */
  function Progress(s: State, v: nat): State {
    if s.gpu.completed <= v <= s.gpu.signalled then s.(gpu := s.gpu.(completed := v)) else s
  }

  datatype Event =
    | EvPublish(mask: Option<Mask>, n: nat, env: Env)
    | EvClear(viewCount: nat, requestOk: bool)
    | EvProgress(to: nat)

  predicate EventOk(ev: Event) {
    ev.EvPublish? && ev.mask.Some? ==> WellFormed(ev.mask.value)
  }

  function Next(s: State, async: bool, ev: Event): State {
    match ev
    case EvPublish(m, n, e) => Publish(s, async, m, n, e).0
    case EvClear(v, ok) => ClearMask(s, v, ok)
    case EvProgress(to) => Progress(s, to)
  }

  function Run(s: State, async: bool, evs: seq<Event>): State
    decreases |evs|
  {
    if evs == [] then s else Run(Next(s, async, evs[0]), async, evs[1..])
  }

  // ---- Safety over every interleaving ---------------------------------------------------------

  /** The one copy a poll may consume: executed since the last clear, with the recorded generation
      and dimensions, its fence value signalled and its mask held. */
  ghost predicate Armed(s: State) {
    && s.rb.buffer && s.rb.hasFence && s.gpu.signalled == s.rb.fenceValue
    && s.cleared < |s.gpu.jobs|
    && var j := s.gpu.jobs[|s.gpu.jobs| - 1];
       j.seqNo == s.rb.seqNo && j.mask.w == s.rb.width && j.mask.h == s.rb.height
  }

  /** A copy executed since the last clear carries the evaluated generation, and its mask the verdict. */
  ghost predicate Evidence(s: State) {
    exists k :: s.cleared <= k < |s.gpu.jobs| && s.gpu.jobs[k].seqNo == s.zone.evalSeq
                && WellFormed(s.gpu.jobs[k].mask) && s.zone.want == Wants3D(s.gpu.jobs[k].mask)
  }

  ghost predicate Fence(s: State) {
    && s.gpu.completed <= s.gpu.signalled <= s.rb.fenceValue
    && (!s.rb.hasFence ==> s.rb.fenceValue == 0)
    && (forall k :: 0 <= k < |s.gpu.jobs| ==> 0 < s.gpu.jobs[k].value <= s.rb.fenceValue)
    && (forall k :: 0 <= k < |s.gpu.jobs| - 1 ==> s.gpu.jobs[k].value <= s.gpu.completed)
  }

  ghost predicate IsCopy(j: Job) {
    WellFormed(j.mask) && AnySet(j.rows, j.mask.w, j.mask.h) == Wants3D(j.mask)
    && |j.rows| == j.mask.h && forall y :: 0 <= y < |j.rows| ==> j.mask.w <= |j.rows[y]|
  }

  /** The executing copy's mask is held exactly when the Signal behind it succeeded. */
  ghost predicate Held(s: State) {
    Busy(s.gpu) ==>
      |s.gpu.jobs| > 0 &&
      (s.rb.src == Some(s.gpu.jobs[|s.gpu.jobs| - 1].mask) <==> s.gpu.signalled == s.rb.fenceValue)
  }

  /** What the fence-derived test buys: no copy in flight means nothing is executing. */
  lemma IdleFence(s: State)
    requires Fence(s) && !InFlight(s)
    ensures !Busy(s.gpu)
  {
  }

  ghost predicate Safe(s: State) {
    && !s.hazard
    && s.cleared <= |s.gpu.jobs|
    && (forall k :: 0 <= k < |s.gpu.jobs| ==> IsCopy(s.gpu.jobs[k]))
    && Fence(s)
    && Held(s)
    && (s.rb.armed ==> Armed(s))
    && (s.zone.valid ==> Evidence(s))
    && (s.zone.active ==> s.zone.valid)
  }

  /** With nothing executing and nothing armed, the owned objects may be made or dropped freely. */
  lemma IdleObjectsKeep(s: State, t: State)
    requires Safe(s) && !Busy(s.gpu)
    requires t == s.(rb := t.rb) && t.rb.fenceValue == s.rb.fenceValue && !t.rb.armed
    requires s.rb.hasFence ==> t.rb.hasFence
    ensures Safe(t) && !Busy(t.gpu)
  {
    if s.zone.valid {
      assert Evidence(s);
      assert Evidence(t);
    }
  }

  lemma MadeQueueObjectsKeep(s: State, e: Env)
    requires Safe(s) && !InFlight(s) && !s.rb.armed
    ensures var t := MakeQueueObjects(DropSource(s), e).0;
            t == s.(rb := t.rb) && Safe(t) && !Busy(t.gpu) && !t.rb.armed && t.rb.src.None?
            && (MakeQueueObjects(DropSource(s), e).1 ==> t.rb.hasFence)
  {
    IdleFence(s);
    var t := MakeQueueObjects(DropSource(s), e).0;
    assert DropSource(s) == s.(rb := s.rb.(src := None));
    assert t == s.(rb := t.rb);
    IdleObjectsKeep(s, t);
  }

  lemma ExecuteKeeps(s: State, m: Mask, n: nat, e: Env)
    requires Safe(s) && !Busy(s.gpu) && WellFormed(m) && s.rb.hasFence && s.rb.buffer && s.rb.src.None?
    requires s.rb.width == m.w && s.rb.height == m.h && !s.rb.armed
    ensures Safe(Execute(s, m, n, e).0)
    ensures Execute(s, m, n, e).1 ==> Execute(s, m, n, e).0.rb.armed
  {
    ScanSeesTheMask(m, e.pad);
    var t := Execute(s, m, n, e).0;
    assert t.gpu.jobs[|s.gpu.jobs|].value == t.rb.fenceValue;
    assert forall k :: 0 <= k < |s.gpu.jobs| ==> t.gpu.jobs[k] == s.gpu.jobs[k];
    if s.zone.valid {
      var k :| s.cleared <= k < |s.gpu.jobs| && s.gpu.jobs[k].seqNo == s.zone.evalSeq
                && s.zone.want == Wants3D(s.gpu.jobs[k].mask);
      assert t.gpu.jobs[k] == s.gpu.jobs[k];
    }
  }

  /** Every Reset and Release of an issue happens with no list executing. */
  lemma IssueKeeps(s: State, m: Mask, n: nat, e: Env)
    requires Safe(s) && !InFlight(s) && !s.rb.armed && WellFormed(m)
    ensures var (t, ok) := Issue(s, m, n, e);
            Safe(t) && t.zone == s.zone && t.lens == s.lens && (ok == t.rb.armed)
  {
    MadeQueueObjectsKeep(s, e);
    var (t, made) := MakeQueueObjects(DropSource(s), e);
    if made {
      var (u, sized) := SizeBuffer(t, m, e);
      IdleObjectsKeep(t, u);
      if sized && e.resetOk && e.closeOk {
        assert Touch(u) == u;
        ExecuteKeeps(u, m, n, e);
      }
    }
  }

  /** A poll that lands scans the very mask its copy was issued with, and only a finished copy. */
  lemma PollKeeps(s: State, blocking: bool, e: Env)
    requires Safe(s) && s.rb.armed
    ensures var (t, p) := Poll(s, blocking, e);
            Safe(t) && t.zone == s.zone && t.lens == s.lens && t.rb == s.rb
            && (p.LandedAs? ==> p.any == Wants3D(s.gpu.jobs[|s.gpu.jobs| - 1].mask) && !Busy(t.gpu))
            && (blocking ==> !p.Pending?)
            && t.gpu.jobs == s.gpu.jobs && t.cleared == s.cleared
  {
    var t := Poll(s, blocking, e).0;
    assert IsCopy(s.gpu.jobs[|s.gpu.jobs| - 1]);
    if s.zone.valid {
      assert Evidence(s);
    }
  }

  lemma EdgeKeeps(s: State, requestOk: bool)
    requires Safe(s) && s.zone.valid
    ensures Safe(Edge(s, requestOk).0)
  {
    assert Evidence(s);
    assert Evidence(Edge(s, requestOk).0);
  }

  lemma DisarmKeeps(s: State)
    requires Safe(s)
    ensures Safe(s.(rb := s.rb.(armed := false)))
  {
    assert s.zone.valid ==> Evidence(s);
    assert s.zone.valid ==> Evidence(s.(rb := s.rb.(armed := false)));
  }

  /** A verdict landed is that of the last copy. */
  lemma LandKeeps(s: State, any: bool)
    requires Safe(s) && s.rb.armed && any == Wants3D(s.gpu.jobs[|s.gpu.jobs| - 1].mask)
    ensures var t := WithLens(s, Landed(LensState(s), s.rb.seqNo, any)).(rb := s.rb.(armed := false));
            Safe(t) && t.zone.valid
  {
    DisarmKeeps(s);
    var t := WithLens(s, Landed(LensState(s), s.rb.seqNo, any)).(rb := s.rb.(armed := false));
    assert t.gpu.jobs[|t.gpu.jobs| - 1].seqNo == t.zone.evalSeq;
    assert Evidence(t);
  }

  lemma ConsumeKeeps(s: State, async: bool, e: Env)
    requires Safe(s)
    ensures Safe(Consume(s, async, e).0)
  {
    if !s.rb.armed {
      if s.zone.valid { EdgeKeeps(s, e.requestOk); }
    } else {
      PollKeeps(s, !async, e);
      var (t, p) := Poll(s, !async, e);
      match p
      case Failed => DisarmKeeps(t);
      case Pending => if t.zone.valid { EdgeKeeps(t, e.requestOk); }
      case LandedAs(any) =>
        LandKeeps(t, any);
        EdgeKeeps(WithLens(t, Landed(LensState(t), t.rb.seqNo, any)).(rb := t.rb.(armed := false)), e.requestOk);
    }
  }

  lemma NextKeeps(s: State, async: bool, ev: Event)
    requires Safe(s) && EventOk(ev)
    ensures Safe(Next(s, async, ev))
  {
    match ev
    case EvPublish(m, n, e) =>
      if m.None? || m.value.w == 0 || m.value.h == 0 {
      } else if !NeedsEval(s, n) {
        EdgeKeeps(s, e.requestOk);
      } else if s.rb.armed || InFlight(s) {
        ConsumeKeeps(s, async, e);
      } else {
        IssueKeeps(s, m.value, n, e);
        if Issue(s, m.value, n, e).1 { ConsumeKeeps(Issue(s, m.value, n, e).0, async, e); }
      }
    case EvClear(v, ok) =>
    case EvProgress(to) =>
      assert s.zone.valid ==> Evidence(s);
      assert s.zone.valid ==> Evidence(Next(s, async, ev));
  }

  /** Over every interleaving of publishes, clears, resizes, failures and GPU progress: nothing in
      use by an executing list is Reset, released or mapped; at most the last copy executes; the
      held mask is that copy's; and the verdict is that of a copy issued since the last clear. */
  lemma {:induction false} RunIsSafe(s: State, async: bool, evs: seq<Event>)
    requires Safe(s) && forall i :: 0 <= i < |evs| ==> EventOk(evs[i])
    ensures Safe(Run(s, async, evs))
    decreases |evs|
  {
    if evs != [] {
      NextKeeps(s, async, evs[0]);
      RunIsSafe(Next(s, async, evs[0]), async, evs[1..]);
    }
  }

  // ---- What a clear forgets -------------------------------------------------------------------

  /** A clear disarms the poll, drops the verdict and the zone's hold of the lens, and touches nothing
      the GPU was given. */
  lemma ClearForgets(s: State, viewCount: nat, requestOk: bool)
    ensures var t := ClearMask(s, viewCount, requestOk);
            && !t.rb.armed && !t.zone.valid && !t.zone.active && (s.zone.active ==> !t.zone.hint)
            && t.rb == s.rb.(armed := false) && t.gpu == s.gpu && t.hazard == s.hazard
            && t.cleared == |s.gpu.jobs|
  {
  }

  lemma PublishClearsNothing(s: State, async: bool, m: Mask, n: nat, e: Env)
    ensures Publish(s, async, Some(m), n, e).0.cleared == s.cleared
  {
    ConsumeClearsNothing(s, async, e);
    ConsumeClearsNothing(Issue(s, m, n, e).0, async, e);
    IssueClearsNothing(s, m, n, e);
  }

  lemma ConsumeClearsNothing(s: State, async: bool, e: Env)
    ensures Consume(s, async, e).0.cleared == s.cleared
  {
  }

  lemma IssueClearsNothing(s: State, m: Mask, n: nat, e: Env)
    ensures Issue(s, m, n, e).0.cleared == s.cleared
  {
    assert MakeQueueObjects(DropSource(s), e).0.cleared == s.cleared;
  }

  lemma NextClearsNothing(s: State, async: bool, ev: Event)
    requires !ev.EvClear?
    ensures Next(s, async, ev).cleared == s.cleared
  {
    if ev.EvPublish? && ev.mask.Some? { PublishClearsNothing(s, async, ev.mask.value, ev.n, ev.env); }
  }

  lemma {:induction false} RunClearsNothing(s: State, async: bool, evs: seq<Event>)
    requires forall i :: 0 <= i < |evs| ==> !evs[i].EvClear?
    ensures Run(s, async, evs).cleared == s.cleared
    decreases |evs|
  {
    if evs != [] {
      NextClearsNothing(s, async, evs[0]);
      RunClearsNothing(Next(s, async, evs[0]), async, evs[1..]);
    }
  }

  /** A copy from the k-th job on is of the evaluated generation and has the standing verdict. */
  ghost predicate VerdictFrom(s: State, k: nat) {
    exists j: nat :: k <= j < |s.gpu.jobs| && s.gpu.jobs[j].seqNo == s.zone.evalSeq
                     && WellFormed(s.gpu.jobs[j].mask) && s.zone.want == Wants3D(s.gpu.jobs[j].mask)
  }

  /** The copy a poll waits for is the last one, executed at or after the k-th job. */
  ghost predicate ArmedFrom(s: State, k: nat) {
    k < |s.gpu.jobs| && s.gpu.jobs[|s.gpu.jobs| - 1].seqNo == s.rb.seqNo
  }

  /** Over any run to a clear and any run on from it without another: whatever verdict stands, and
      whatever copy is armed, is of a copy executed after that clear. */
  lemma {:induction false} ClearIsFinal(s: State, async: bool, before: seq<Event>, viewCount: nat, requestOk: bool,
                                        after: seq<Event>)
    requires Safe(s) && (forall i :: 0 <= i < |before| ==> EventOk(before[i]))
    requires forall i :: 0 <= i < |after| ==> EventOk(after[i]) && !after[i].EvClear?
    ensures var u := Run(s, async, before);
            var t := Run(Next(u, async, EvClear(viewCount, requestOk)), async, after);
            (t.zone.valid ==> VerdictFrom(t, |u.gpu.jobs|)) && (t.rb.armed ==> ArmedFrom(t, |u.gpu.jobs|))
  {
    var u := Run(s, async, before);
    var c := Next(u, async, EvClear(viewCount, requestOk));
    RunIsSafe(s, async, before);
    NextKeeps(u, async, EvClear(viewCount, requestOk));
    ClearForgets(u, viewCount, requestOk);
    RunIsSafe(c, async, after);
    RunClearsNothing(c, async, after);
  }

  lemma InitialIsSafe(s: State)
    requires Initial(s)
    ensures Safe(s)
  {
  }

  /** One job at most, of this mask and generation, joins those there were. */
  ghost predicate AddsOne(before: seq<Job>, after: seq<Job>, m: Mask, n: nat) {
    after == before
    || (|after| == |before| + 1 && after[..|before|] == before
        && after[|before|].seqNo == n && after[|before|].mask == m)
  }

  lemma RecordJobs(s: State, m: Mask, n: nat, e: Env)
    ensures AddsOne(s.gpu.jobs, Record(s, m, n, e).0.gpu.jobs, m, n)
  {
    assert SizeBuffer(s, m, e).0.gpu == s.gpu;
  }

  lemma MakingKeepsJobs(s: State, e: Env)
    ensures MakeQueueObjects(DropSource(s), e).0.gpu == s.gpu
  {
  }

  /** An issue executes at most one copy, of the mask and generation it was given. */
  lemma IssueJobs(s: State, m: Mask, n: nat, e: Env)
    ensures AddsOne(s.gpu.jobs, Issue(s, m, n, e).0.gpu.jobs, m, n)
  {
    MakingKeepsJobs(s, e);
    RecordJobs(MakeQueueObjects(DropSource(s), e).0, m, n, e);
  }

  lemma ConsumeJobs(s: State, async: bool, e: Env)
    ensures Consume(s, async, e).0.gpu.jobs == s.gpu.jobs
  {
  }

  /** Every executed copy read the content of its generation. */
  ghost predicate CopiesOf(s: State, content: nat -> Mask) {
    forall k :: 0 <= k < |s.gpu.jobs| ==> s.gpu.jobs[k].mask == content(s.gpu.jobs[k].seqNo)
  }

  ghost predicate Publishes(ev: Event, content: nat -> Mask) {
    ev.EvPublish? && ev.mask.Some? ==> ev.mask.value == content(ev.n)
  }

  lemma PublishJobs(s: State, async: bool, m: Mask, n: nat, e: Env)
    ensures AddsOne(s.gpu.jobs, Publish(s, async, Some(m), n, e).0.gpu.jobs, m, n)
  {
    IssueJobs(s, m, n, e);
    ConsumeJobs(s, async, e);
    ConsumeJobs(Issue(s, m, n, e).0, async, e);
  }

  /** An event executes at most one copy, of the mask and generation it publishes. */
  lemma NextJobs(s: State, async: bool, ev: Event)
    ensures var after := Next(s, async, ev).gpu.jobs;
            if ev.EvPublish? && ev.mask.Some? then AddsOne(s.gpu.jobs, after, ev.mask.value, ev.n)
            else after == s.gpu.jobs
  {
    if ev.EvPublish? && ev.mask.Some? { PublishJobs(s, async, ev.mask.value, ev.n, ev.env); }
  }

  lemma AddedIsOf(before: seq<Job>, after: seq<Job>, m: Mask, n: nat, content: nat -> Mask)
    requires AddsOne(before, after, m, n) && m == content(n)
    requires forall k :: 0 <= k < |before| ==> before[k].mask == content(before[k].seqNo)
    ensures forall k :: 0 <= k < |after| ==> after[k].mask == content(after[k].seqNo)
  {
    if after != before {
      assert forall k :: 0 <= k < |before| ==> after[..|before|][k] == after[k];
    }
  }

  lemma NextCopiesOf(s: State, async: bool, ev: Event, content: nat -> Mask)
    requires CopiesOf(s, content) && Publishes(ev, content)
    ensures CopiesOf(Next(s, async, ev), content)
  {
    NextJobs(s, async, ev);
    if ev.EvPublish? && ev.mask.Some? {
      AddedIsOf(s.gpu.jobs, Next(s, async, ev).gpu.jobs, ev.mask.value, ev.n, content);
    }
  }

  /** When each generation has one content, a standing verdict is that of its generation's content. */
  lemma {:induction false} VerdictMatchesGeneration(s: State, async: bool, evs: seq<Event>, content: nat -> Mask)
    requires Safe(s) && CopiesOf(s, content)
    requires forall i :: 0 <= i < |evs| ==> EventOk(evs[i]) && Publishes(evs[i], content)
    ensures var z := Run(s, async, evs).zone;
            z.valid ==> WellFormed(content(z.evalSeq)) && z.want == Wants3D(content(z.evalSeq))
    decreases |evs|
  {
    if evs != [] {
      NextKeeps(s, async, evs[0]);
      NextCopiesOf(s, async, evs[0], content);
      VerdictMatchesGeneration(Next(s, async, evs[0]), async, evs[1..], content);
    } else if s.zone.valid {
      var k :| s.cleared <= k < |s.gpu.jobs| && s.gpu.jobs[k].seqNo == s.zone.evalSeq
               && WellFormed(s.gpu.jobs[k].mask) && s.zone.want == Wants3D(s.gpu.jobs[k].mask);
    }
  }

  // ---- Refinement of the lens machine ---------------------------------------------------------

  /** Neither half of the readback touches the verdict fields or the lens. */
  lemma ReadbackFrame(s: State, m: Mask, n: nat, blocking: bool, e: Env)
    ensures LensState(Issue(s, m, n, e).0) == LensState(s)
    ensures LensState(Poll(s, blocking, e).0) == LensState(s)
    ensures Poll(s, blocking, e).0.rb == s.rb
  {
    assert LensState(MakeQueueObjects(DropSource(s), e).0) == LensState(s);
  }

  /** What a consuming publish does, seen from the lens machine. */
  lemma ConsumeRefines(s: State, async: bool, e: Env) returns (step: Step)
    ensures !step.Clear? && Enabled(LensState(s), step)
    ensures Apply(LensState(s), step) == (LensState(Consume(s, async, e).0), Consume(s, async, e).1)
  {
    step := if s.zone.valid then Carry(e.requestOk) else Wait;
    if s.rb.armed {
      ReadbackFrame(s, Mask(0, 0, []), 0, !async, e);
      match Poll(s, !async, e).1
      case Failed => step := Refuse;
      case Pending =>
      case LandedAs(any) => step := Land(s.rb.seqNo, any, e.requestOk);
    }
  }

  /** One publish is exactly one step of the lens machine, with the same return value. */
  lemma PublishRefines(s: State, async: bool, mask: Option<Mask>, n: nat, e: Env) returns (step: Step)
    ensures !step.Clear? && Enabled(LensState(s), step)
    ensures Apply(LensState(s), step) == (LensState(Publish(s, async, mask, n, e).0), Publish(s, async, mask, n, e).1)
  {
    if mask.None? || mask.value.w == 0 || mask.value.h == 0 {
      step := Refuse;
    } else if !NeedsEval(s, n) {
      step := Carry(e.requestOk);
    } else {
      var waiting := s.rb.armed || InFlight(s);
      ReadbackFrame(s, mask.value, n, false, e);
      if !waiting && !Issue(s, mask.value, n, e).1 {
        step := Refuse;
      } else {
        step := ConsumeRefines(if waiting then s else Issue(s, mask.value, n, e).0, async, e);
      }
    }
  }

  /** Over whole runs the driver is the lens machine: GPU progress is invisible to it. */
  lemma {:induction false} RunRefines(s: State, async: bool, evs: seq<Event>) returns (run: seq<Step>)
    ensures EnabledRun(LensState(s), run)
    ensures ZoneLens.Run(LensState(s), run) == LensState(Run(s, async, evs))
    decreases |evs|
  {
    if evs == [] {
      run := [];
    } else {
      var t := Next(s, async, evs[0]);
      var rest := RunRefines(t, async, evs[1..]);
      match evs[0]
      case EvPublish(m, n, e) =>
        var step := PublishRefines(s, async, m, n, e);
        run := [step] + rest;
        assert run[1..] == rest;
      case EvClear(v, ok) =>
        run := [Clear(v >= 2, ok)] + rest;
        assert run[1..] == rest;
      case EvProgress(_) =>
        run := rest;
    }
  }

  /** Requests alternate inside each activation, over every interleaving. */
  lemma {:induction false} RequestsAlternate(s: State, async: bool, evs: seq<Event>)
    requires Initial(s)
    ensures Coherent(LensState(Run(s, async, evs)))
    ensures Alternates(Run(s, async, evs).lens.log)
  {
    var run := RunRefines(s, async, evs);
    RunKeeps(LensState(s), run);
  }

  // ---- The asynchronous path reaches the blocking verdict --------------------------------------

  /** A generation's content never changes: every copy of generation `n` so far read mask `m`. */
  ghost predicate Generation(s: State, n: nat, m: Mask) {
    forall k :: 0 <= k < |s.gpu.jobs| && s.gpu.jobs[k].seqNo == n ==> s.gpu.jobs[k].mask == m
  }

  /** The verdict of generation `n` has landed and the lens has been driven to it. */
  ghost predicate Settled(s: State, n: nat, m: Mask)
    requires WellFormed(m)
  {
    s.zone == Zone(true, n, Wants3D(m), Wants3D(m), true)
  }

  ghost predicate Ready(s: State, n: nat, m: Mask) {
    Safe(s) && Generation(s, n, m) && s.gpu.signalled == s.rb.fenceValue && WellFormed(m) && m.w > 0 && m.h > 0
  }

  function Completed(s: State): State { Progress(s, s.gpu.signalled) }

  /** The GPU finishes what it was given, then the runtime republishes the generation. */
  function Frame(s: State, m: Mask, n: nat, e: Env): State {
    Publish(Completed(s), true, Some(m), n, e).0
  }

  /** A current verdict is the mask's own, whichever copy of the generation gave it. */
  lemma CurrentIsRight(s: State, n: nat, m: Mask)
    requires Ready(s, n, m) && s.zone.valid && s.zone.evalSeq == n
    ensures s.zone.want == Wants3D(m)
  {
    var k :| s.cleared <= k < |s.gpu.jobs| && s.gpu.jobs[k].seqNo == s.zone.evalSeq
             && WellFormed(s.gpu.jobs[k].mask) && s.zone.want == Wants3D(s.gpu.jobs[k].mask);
    assert s.gpu.jobs[k].mask == m;
  }

  lemma CompletedKeeps(s: State, n: nat, m: Mask)
    requires Ready(s, n, m)
    ensures Ready(Completed(s), n, m) && !InFlight(Completed(s))
    ensures Completed(s) == s.(gpu := Completed(s).gpu) && Completed(s).gpu.jobs == s.gpu.jobs
  {
    assert Completed(s) == Next(s, true, EvProgress(s.gpu.signalled));
    NextKeeps(s, true, EvProgress(s.gpu.signalled));
  }

  /** With nothing failing, an issue executes, signals and arms its copy, and keeps or makes the event. */
  lemma IssueArms(s: State, m: Mask, n: nat, e: Env)
    requires AllOk(e)
    ensures var (t, ok) := Issue(s, m, n, e);
            && ok && t.rb.armed && t.rb.seqNo == n && t.gpu.signalled == t.rb.fenceValue
            && t.gpu.jobs == s.gpu.jobs + [Job(n, m, Pitched(m, e.pad), t.rb.fenceValue)]
            && t.gpu.completed == s.gpu.completed && t.cleared == s.cleared
  {
    MakingKeepsJobs(s, e);
  }

  lemma IssueMakesTheEvent(s: State, m: Mask, n: nat, e: Env)
    requires AllOk(e)
    ensures var t := Issue(s, m, n, e).0;
            t.zone == s.zone && t.lens == s.lens && (t.rb.hasEvent <==> s.rb.hasEvent || !s.rb.hasFence)
  {
  }

  lemma IssueSucceeds(s: State, m: Mask, n: nat, e: Env)
    requires Ready(s, n, m) && !InFlight(s) && !s.rb.armed && AllOk(e)
    ensures var (t, ok) := Issue(s, m, n, e);
            ok && t.rb.armed && t.rb.seqNo == n && InFlight(t) && Ready(t, n, m)
            && t.zone == s.zone && t.lens == s.lens && (t.rb.hasEvent || !s.rb.hasEvent)
            && (s.rb.hasEvent || !s.rb.hasFence ==> t.rb.hasEvent)
  {
    IssueKeeps(s, m, n, e);
    IssueArms(s, m, n, e);
    IssueMakesTheEvent(s, m, n, e);
  }

  /** One frame: an armed copy lands, an unevaluated generation is issued, a settled one stays. */
  lemma FrameProgress(s: State, m: Mask, n: nat, e: Env)
    requires Ready(s, n, m) && AllOk(e)
    ensures var t := Frame(s, m, n, e);
            && Ready(t, n, m)
            && (!NeedsEval(s, n) ==> Settled(t, n, m))
            && (NeedsEval(s, n) && s.rb.armed ==> !t.rb.armed && (s.rb.seqNo == n ==> Settled(t, n, m)))
            && (NeedsEval(s, n) && !s.rb.armed ==> t.rb.armed && t.rb.seqNo == n && t.zone.valid == s.zone.valid
                                                    && t.zone.evalSeq == s.zone.evalSeq)
  {
    var c := Completed(s);
    CompletedKeeps(s, n, m);
    NextKeeps(c, true, EvPublish(Some(m), n, e));
    if !NeedsEval(c, n) {
      CurrentIsRight(c, n, m);
    } else if c.rb.armed {
      PollKeeps(c, false, e);
      if c.rb.seqNo == n {
        assert c.gpu.jobs[|c.gpu.jobs| - 1].mask == m;
      }
    } else {
      IssueSucceeds(c, m, n, e);
    }
  }

  /** With no failures, and the GPU done between publishes, three publishes settle any generation. */
  lemma ThreePublishesSettle(s: State, m: Mask, n: nat, e1: Env, e2: Env, e3: Env)
    requires Ready(s, n, m) && AllOk(e1) && AllOk(e2) && AllOk(e3)
    ensures Settled(Frame(Frame(Frame(s, m, n, e1), m, n, e2), m, n, e3), n, m)
  {
    FrameProgress(s, m, n, e1);
    FrameProgress(Frame(s, m, n, e1), m, n, e2);
    FrameProgress(Frame(Frame(s, m, n, e1), m, n, e2), m, n, e3);
  }

  /** Two publishes are enough exactly when no older generation's copy is still armed. */
  lemma TwoPublishesSettleIff(s: State, m: Mask, n: nat, e1: Env, e2: Env)
    requires Ready(s, n, m) && AllOk(e1) && AllOk(e2)
    ensures Settled(Frame(Frame(s, m, n, e1), m, n, e2), n, m) <==> !(NeedsEval(s, n) && s.rb.armed && s.rb.seqNo != n)
  {
    FrameProgress(s, m, n, e1);
    FrameProgress(Frame(s, m, n, e1), m, n, e2);
    if NeedsEval(s, n) && s.rb.armed && s.rb.seqNo != n { OlderCopyLands(s, m, n, e1); }
  }

  lemma OlderCopyLands(s: State, m: Mask, n: nat, e: Env)
    requires Ready(s, n, m) && AllOk(e) && NeedsEval(s, n) && s.rb.armed && s.rb.seqNo != n
    ensures var t := Frame(s, m, n, e); NeedsEval(t, n) && !t.rb.armed
  {
    CompletedKeeps(s, n, m);
    PollKeeps(Completed(s), false, e);
    FrameProgress(s, m, n, e);
  }

  /** What the kill switch's blocking mode is in between publishes. */
  ghost predicate BlockingIdle(s: State, n: nat, m: Mask) {
    Ready(s, n, m) && !s.rb.armed && !InFlight(s) && (s.rb.hasFence ==> s.rb.hasEvent)
  }

  /** Blocking mode settles a generation in the one publish, and is idle again after it. */
  lemma BlockingSettles(s: State, m: Mask, n: nat, e: Env)
    requires BlockingIdle(s, n, m) && AllOk(e)
    ensures var t := Publish(s, false, Some(m), n, e).0;
            BlockingIdle(t, n, m) && Settled(t, n, m)
  {
    NextKeeps(s, false, EvPublish(Some(m), n, e));
    if !NeedsEval(s, n) {
      CurrentIsRight(s, n, m);
    } else {
      IssueSucceeds(s, m, n, e);
      var i := Issue(s, m, n, e).0;
      PollKeeps(i, true, e);
      assert i.gpu.jobs[|i.gpu.jobs| - 1].mask == m;
    }
  }

  /** So the asynchronous path, from any of its states, reaches the blocking path's zone state. */
  lemma AsyncReachesBlocking(s: State, b: State, m: Mask, n: nat, e1: Env, e2: Env, e3: Env, eb: Env)
    requires Ready(s, n, m) && BlockingIdle(b, n, m)
    requires AllOk(e1) && AllOk(e2) && AllOk(e3) && AllOk(eb)
    ensures Frame(Frame(Frame(s, m, n, e1), m, n, e2), m, n, e3).zone == Publish(b, false, Some(m), n, eb).0.zone
  {
    ThreePublishesSettle(s, m, n, e1, e2, e3);
    BlockingSettles(b, m, n, eb);
  }

  // ---- Where the protocol stops ---------------------------------------------------------------

  /** A copy whose Signal failed is never seen to finish, so nothing is ever issued again. */
  lemma {:induction false} FailedSignalIsFinal(s: State, async: bool, evs: seq<Event>)
    requires Safe(s) && s.gpu.signalled < s.rb.fenceValue
    requires forall i :: 0 <= i < |evs| ==> EventOk(evs[i])
    ensures Run(s, async, evs).gpu.jobs == s.gpu.jobs
    decreases |evs|
  {
    if evs != [] {
      var t := Next(s, async, evs[0]);
      NextKeeps(s, async, evs[0]);
      assert InFlight(s) && !s.rb.armed;
      assert t.gpu.jobs == s.gpu.jobs && t.gpu.signalled == s.gpu.signalled && t.rb.fenceValue == s.rb.fenceValue;
      FailedSignalIsFinal(t, async, evs[1..]);
    }
  }

  /** The bounded drain, then the unconditional releases, at destroy. */
  function Destroy(s: State, waitOk: bool): State {
    var s := if InFlight(s) && s.rb.hasEvent && waitOk then Progress(s, s.rb.fenceValue) else s;
    Touch(s).(rb := NO_READBACK)
  }

  /** Destroy releases under an executing list exactly when one may execute and the drain fails. */
  lemma DestroyIsSafeIff(s: State, waitOk: bool)
    requires Safe(s)
    ensures Destroy(s, waitOk).hazard
            <==> Busy(s.gpu) && !(s.rb.hasEvent && waitOk && s.gpu.signalled == s.rb.fenceValue)
  {
    if !InFlight(s) {
      IdleFence(s);
    }
    if Busy(s.gpu) && s.gpu.signalled != s.rb.fenceValue {
      assert Busy(Destroy(s, waitOk).gpu);
    }
  }

  // ---- The display processor's own code -------------------------------------------------------

  /** The implementation struct's zone fields (verdict and readback), the GPU and the lens. */
  class DisplayProcessor {
    const asyncPublish: bool
    var zone: Zone
    var rb: Readback
    var lens: Lens
    var gpu: Gpu
    ghost var cleared: nat
    ghost var hazard: bool

    ghost function View(): State
      reads this
    {
      Dp(zone, lens, rb, gpu, cleared, hazard)
    }

    ghost predicate Valid()
      reads this
    {
      Safe(View())
    }

    constructor (async: bool, panel: Lens)
      ensures asyncPublish == async && Valid()
      ensures View() == Dp(IDLE, panel, NO_READBACK, Gpu(0, 0, []), 0, false)
    {
      asyncPublish := async;
      zone, rb, lens, gpu := IDLE, NO_READBACK, panel, Gpu(0, 0, []);
      cleared, hazard := 0, false;
    }

    predicate CopyInFlight()
      reads this
    {
      rb.hasFence && gpu.completed < rb.fenceValue
    }

    /** The mapped rows of an armed copy cover the dimensions it was issued with. */
    ghost predicate Scannable()
      reads this
    {
      rb.armed ==>
        && |gpu.jobs| > 0
        && var rows := gpu.jobs[|gpu.jobs| - 1].rows;
           rb.height <= |rows| && forall y :: 0 <= y < rb.height ==> rb.width <= |rows[y]|
    }

    /** leiasr_d3d12_request_display_mode: SR accepts the hint or not. */
    method RequestDisplayMode(on: bool, ok: bool) returns (accepted: bool)
      modifies this`lens
      ensures accepted == ok
      ensures lens == if ok then Send(old(lens), on) else old(lens)
    {
      if ok {
        lens := Send(lens, on);
      }
      return ok;
    }

    /** The previous copy is done: let its source go. */
    method ReleaseSource()
      modifies this`rb, this`hazard
      ensures View() == DropSource(old(View()))
    {
      if rb.src.Some? {
        hazard := hazard || Busy(gpu);
        rb := rb.(src := None);
      }
    }

    /** Lazy one-time allocator and list. */
    method PrepareList(e: Env) returns (ok: bool)
      modifies this`rb
      ensures View() == MakeList(old(View()), e).0 && ok == MakeList(old(View()), e).1
    {
      if !rb.hasAlloc {
        if !e.allocOk { return false; }
        rb := rb.(hasAlloc := true);
      }
      if !rb.hasList {
        if !e.listOk { return false; }
        rb := rb.(hasList := true);
      }
      return true;
    }

    /** Lazy one-time fence and event; a fence without its event is kept as it is. */
    method PrepareFence(e: Env) returns (ok: bool)
      modifies this`rb
      ensures View() == MakeFence(old(View()), e).0 && ok == MakeFence(old(View()), e).1
    {
      if !rb.hasFence {
        if !e.fenceOk { return false; }
        rb := rb.(hasFence := true);
        if !e.eventOk { return false; }
        rb := rb.(hasEvent := true, fenceValue := 0);
      }
      return true;
    }

    /** The readback buffer follows the mask's size. */
    method SizeReadback(m: Mask, e: Env) returns (ok: bool)
      modifies this`rb, this`hazard
      ensures View() == SizeBuffer(old(View()), m, e).0 && ok == SizeBuffer(old(View()), m, e).1
    {
      if !rb.buffer || rb.width != m.w || rb.height != m.h {
        if rb.buffer {
          hazard := hazard || Busy(gpu);
          rb := rb.(buffer := false);
        }
        if !e.bufferOk { return false; }
        rb := rb.(buffer := true, width := m.w, height := m.h);
      }
      return true;
    }

    /** Execute the recorded list, then queue its fence value and hold the mask it reads. */
    method Submit(m: Mask, n: nat, e: Env) returns (ok: bool)
      requires WellFormed(m) && !rb.armed && rb.width == m.w && rb.height == m.h
      modifies this`rb, this`gpu
      ensures View() == Execute(old(View()), m, n, e).0 && ok == Execute(old(View()), m, n, e).1
      ensures Scannable() && (ok == rb.armed)
    {
      rb := rb.(fenceValue := rb.fenceValue + 1);
      gpu := gpu.(jobs := gpu.jobs + [Job(n, m, Pitched(m, e.pad), rb.fenceValue)]);
      if !e.signalOk { return false; }
      gpu := gpu.(signalled := rb.fenceValue);
      rb := rb.(seqNo := n, src := Some(m), armed := true);
      return true;
    }

    method PrepareQueueObjects(e: Env) returns (ok: bool)
      modifies this`rb, this`hazard
      ensures View() == MakeQueueObjects(DropSource(old(View())), e).0
      ensures ok == MakeQueueObjects(DropSource(old(View())), e).1
    {
      ReleaseSource();
      ok := PrepareList(e);
      if ok {
        ok := PrepareFence(e);
      }
    }

    /** Size the buffer, Reset the allocator and list, record the copy and submit it. */
    method RecordCopy(m: Mask, n: nat, e: Env) returns (ok: bool)
      requires WellFormed(m) && !rb.armed
      modifies this`rb, this`hazard, this`gpu
      ensures View() == Record(old(View()), m, n, e).0 && ok == Record(old(View()), m, n, e).1
      ensures Scannable() && (ok == rb.armed)
    {
      ok := SizeReadback(m, e);
      if !ok { return; }
      hazard := hazard || Busy(gpu);
      if !e.resetOk || !e.closeOk { return false; }
      ok := Submit(m, n, e);
    }

    /** The issue half: record and execute the copy, signal the fence, do not wait. */
    method ReadbackIssue(m: Mask, n: nat, e: Env) returns (ok: bool)
      requires WellFormed(m) && !rb.armed
      modifies this`rb, this`hazard, this`gpu
      ensures View() == Issue(old(View()), m, n, e).0 && ok == Issue(old(View()), m, n, e).1
      ensures Scannable() && (ok == rb.armed)
    {
      ok := PrepareQueueObjects(e);
      if ok {
        ok := RecordCopy(m, n, e);
      }
    }

    /** The poll half: PENDING until the fence has caught up, unless the caller blocks on it. */
    method ReadbackPoll(blocking: bool, e: Env) returns (r: Polled)
      requires Scannable() && rb.armed
      modifies this`gpu, this`hazard
      ensures View() == Poll(old(View()), blocking, e).0 && r == Poll(old(View()), blocking, e).1
    {
      if !rb.buffer || !rb.hasFence { return Failed; }
      if CopyInFlight() {
        if !blocking { return Pending; }
        if !rb.hasEvent || !e.waitOk { return Failed; }
        gpu := gpu.(completed := rb.fenceValue);
      }
      if !e.mapOk { return Failed; }
      hazard := hazard || Busy(gpu);
      var any := Scan(gpu.jobs[|gpu.jobs| - 1].rows, rb.width, rb.height);
      return LandedAs(any);
    }

    /** The edge-triggered hint that ends a publish. */
    method DriveLens(requestOk: bool) returns (ok: bool)
      modifies this`zone, this`lens
      ensures View() == Edge(old(View()), requestOk).0 && ok == Edge(old(View()), requestOk).1
    {
      if !zone.active || zone.hint != zone.want {
        if !zone.active && requestOk { lens := lens.(activation := lens.activation + 1); }
        var accepted := RequestDisplayMode(zone.want, requestOk);
        if !accepted { return false; }
        zone := zone.(hint := zone.want);
      }
      zone := zone.(active := true);
      return true;
    }

    /** Consume a landed verdict, or carry the last one; false when the poll failed. */
    method ConsumeVerdict(e: Env) returns (ok: bool)
      requires Scannable()
      modifies this
      ensures View() == Consume(old(View()), asyncPublish, e).0 && ok == Consume(old(View()), asyncPublish, e).1
    {
      if rb.armed {
        var r := ReadbackPoll(!asyncPublish, e);
        match r {
          case LandedAs(any) =>
            zone := zone.(want := any, evalSeq := rb.seqNo, valid := true);
            rb := rb.(armed := false);
          case Pending =>
            if !zone.valid { return true; }
          case Failed =>
            rb := rb.(armed := false);
            return false;
        }
      } else if !zone.valid {
        return true;
      }
      ok := DriveLens(e.requestOk);
    }

    /** publish_local_zone_mask, as written: issue once, poll, carry, then drive the edge. */
    method PublishCore(mask: Option<Mask>, n: nat, e: Env) returns (ok: bool)
      requires Scannable() && (mask.Some? ==> WellFormed(mask.value))
      modifies this
      ensures View() == Publish(old(View()), asyncPublish, mask, n, e).0
      ensures ok == Publish(old(View()), asyncPublish, mask, n, e).1
    {
      if mask.None? || mask.value.w == 0 || mask.value.h == 0 { return false; }
      if zone.valid && n == zone.evalSeq {
        ok := DriveLens(e.requestOk);
        return;
      }
      if !rb.armed && !CopyInFlight() {
        ok := ReadbackIssue(mask.value, n, e);
        if !ok { return; }
      }
      ok := ConsumeVerdict(e);
    }

    /** publish_local_zone_mask keeps the protocol's invariant whatever the GPU and D3D do. */
    method PublishMask(mask: Option<Mask>, n: nat, e: Env) returns (ok: bool)
      requires Valid() && (mask.Some? ==> WellFormed(mask.value))
      modifies this
      ensures View() == Publish(old(View()), asyncPublish, mask, n, e).0
      ensures ok == Publish(old(View()), asyncPublish, mask, n, e).1
      ensures Valid() && !hazard
    {
      NextKeeps(View(), asyncPublish, EvPublish(mask, n, e));
      assert Scannable() by {
        if rb.armed { assert IsCopy(gpu.jobs[|gpu.jobs| - 1]); }
      }
      ok := PublishCore(mask, n, e);
    }

    /** clear_local_zone_mask, as written: the verdict is forgotten, the executing copy is not. */
    method ClearCore(viewCount: nat, requestOk: bool)
      modifies this
      ensures View() == ClearMask(old(View()), viewCount, requestOk)
    {
      if zone.active {
        if zone.hint != (viewCount >= 2) {
          var accepted := RequestDisplayMode(viewCount >= 2, requestOk);
        }
        zone := zone.(hint := false);
      }
      zone := zone.(active := false, valid := false);
      rb := rb.(armed := false);
      cleared := |gpu.jobs|;
    }

    method ClearLocalMask(viewCount: nat, requestOk: bool) returns (ok: bool)
      requires Valid()
      modifies this
      ensures ok && View() == ClearMask(old(View()), viewCount, requestOk)
      ensures Valid() && !hazard
    {
      NextKeeps(View(), asyncPublish, EvClear(viewCount, requestOk));
      ClearCore(viewCount, requestOk);
      return true;
    }

    /** The zone part of destroy: a bounded drain, then every release. */
    method Teardown(waitOk: bool)
      modifies this
      ensures View() == Destroy(old(View()), waitOk)
    {
      if CopyInFlight() && rb.hasEvent && waitOk && gpu.completed <= rb.fenceValue <= gpu.signalled {
        gpu := gpu.(completed := rb.fenceValue);
      }
      hazard := hazard || Busy(gpu);
      rb := NO_READBACK;
    }
  }
}
