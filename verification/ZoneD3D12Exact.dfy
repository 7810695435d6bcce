/**
 What one publish of the D3D12 zone path does, in the state and the answers of its D3D calls alone:
 exactly when it executes a copy, what its poll reports, and what a half-made fence comes to.
 */
module ZoneD3D12Exact {
  import opened Common
  import opened ZoneMask
  import opened ZoneD3D12

  // ---- Issuing --------------------------------------------------------------------------------

  /** The copy allocator, list, fence and its event are there or can be made. */
  ghost predicate QueueReady(s: State, e: Env) {
    && (s.rb.hasAlloc || e.allocOk) && (s.rb.hasList || e.listOk)
    && (s.rb.hasFence || (e.fenceOk && e.eventOk))
  }

  /** The readback buffer has the mask's size, or one of that size can be made. */
  ghost predicate BufferReady(s: State, m: Mask, e: Env) {
    (s.rb.buffer && s.rb.width == m.w && s.rb.height == m.h) || e.bufferOk
  }

  lemma ListIff(s: State, e: Env)
    ensures var (t, ok) := MakeList(s, e);
      && (ok <==> (s.rb.hasAlloc || e.allocOk) && (s.rb.hasList || e.listOk))
      && t == s.(rb := s.rb.(hasAlloc := t.rb.hasAlloc, hasList := t.rb.hasList))
  {
  }

  lemma MadeIff(s: State, e: Env)
    ensures var (t, ok) := MakeQueueObjects(DropSource(s), e);
      && (ok <==> QueueReady(s, e))
      && t == s.(rb := t.rb, hazard := t.hazard)
      && t.rb.buffer == s.rb.buffer && t.rb.width == s.rb.width && t.rb.height == s.rb.height
      && t.rb.src == None
      && (t.hazard <==> s.hazard || (s.rb.src.Some? && Busy(s.gpu)))
  {
    assert Busy(DropSource(s).gpu) == Busy(s.gpu);
    ListIff(DropSource(s), e);
  }

  lemma SizedIff(s: State, m: Mask, e: Env)
    ensures var (t, ok) := SizeBuffer(s, m, e);
      && (ok <==> BufferReady(s, m, e))
      && t == s.(rb := t.rb, hazard := t.hazard)
      && (ok ==> t.rb.buffer && t.rb.width == m.w && t.rb.height == m.h)
      && (t.hazard <==> s.hazard || (Busy(s.gpu) && s.rb.buffer && !(s.rb.width == m.w && s.rb.height == m.h)))
  {
  }

  lemma RecordIff(s: State, m: Mask, n: nat, e: Env)
    ensures var (t, ok) := Record(s, m, n, e);
      && (ok <==> BufferReady(s, m, e) && e.resetOk && e.closeOk && e.signalOk)
      && (|t.gpu.jobs| == |s.gpu.jobs| + 1 <==> BufferReady(s, m, e) && e.resetOk && e.closeOk)
      && (t.hazard <==> s.hazard || (Busy(s.gpu) && (s.rb.buffer || e.bufferOk)))
  {
    SizedIff(s, m, e);
  }

  /** An issue succeeds exactly when everything it needs is there or can be made, and its Reset, Close
      and Signal succeed; its copy is executed whatever the Signal does; and it would be a hazard exactly
      when, with a list executing, it lets a held mask go or touches the buffer or the allocator. */
  lemma IssueIff(s: State, m: Mask, n: nat, e: Env)
    ensures var (t, ok) := Issue(s, m, n, e);
      && (ok <==> QueueReady(s, e) && BufferReady(s, m, e) && e.resetOk && e.closeOk && e.signalOk)
      && (|t.gpu.jobs| == |s.gpu.jobs| + 1 <==>
            QueueReady(s, e) && BufferReady(s, m, e) && e.resetOk && e.closeOk)
      && (t.hazard <==>
            s.hazard
            || (Busy(s.gpu) && (s.rb.src.Some? || (QueueReady(s, e) && (s.rb.buffer || e.bufferOk)))))
  {
    MadeIff(s, e);
    RecordIff(MakeQueueObjects(DropSource(s), e).0, m, n, e);
  }

  /** A publish executes a copy exactly when its mask is not empty and not judged yet, none is armed or
      in flight, and the issue gets as far: one copy at a time, and none for what is known. */
  lemma ExecutesIff(s: State, async: bool, mask: Option<Mask>, n: nat, e: Env)
    ensures var t := Publish(s, async, mask, n, e).0;
      |t.gpu.jobs| == |s.gpu.jobs| + 1 <==>
        && mask.Some? && mask.value.w > 0 && mask.value.h > 0
        && !(s.zone.valid && s.zone.evalSeq == n)
        && !s.rb.armed && !(s.rb.hasFence && s.gpu.completed < s.rb.fenceValue)
        && QueueReady(s, e) && BufferReady(s, mask.value, e) && e.resetOk && e.closeOk
  {
    ConsumeJobs(s, async, e);
    if mask.Some? {
      IssueIff(s, mask.value, n, e);
      IssueJobs(s, mask.value, n, e);
      ConsumeJobs(Issue(s, mask.value, n, e).0, async, e);
    }
  }

  // ---- Polling --------------------------------------------------------------------------------

  /** The poll's answer: pending exactly when the copy is in flight and waiting is not allowed; failed
      when there is nothing to map, the wait or the Map fails; else the verdict of the last copy. A poll
      that lands while a list executes would be a hazard. */
  lemma PollIff(s: State, blocking: bool, e: Env)
    requires s.gpu.jobs != []
    ensures var (t, p) := Poll(s, blocking, e);
      var ready := s.rb.buffer && s.rb.hasFence;
      && (p == Pending <==> ready && s.gpu.completed < s.rb.fenceValue && !blocking)
      && (p == ZoneD3D12.Failed <==>
            !ready
            || (s.gpu.completed < s.rb.fenceValue && blocking && !(s.rb.hasEvent && e.waitOk && e.mapOk))
            || (s.gpu.completed >= s.rb.fenceValue && !e.mapOk))
      && (p.LandedAs? ==>
            && (p.any <==> AnySet(s.gpu.jobs[|s.gpu.jobs| - 1].rows, s.rb.width, s.rb.height))
            && (t.hazard <==> s.hazard || Busy(t.gpu)))
  {
  }

  /** A poll that fails gives the copy up and refuses the publish; one that lands gives it up too; a
      copy still in flight stays armed. */
  lemma ConsumeIff(s: State, async: bool, e: Env)
    requires s.rb.armed
    ensures var (t, ok) := Consume(s, async, e);
      var p := Poll(s, !async, e).1;
      && (t.rb.armed <==> p == Pending)
      && (p == ZoneD3D12.Failed ==> !ok && t.zone == s.zone && t.lens == s.lens)
      && (p.LandedAs? ==> t.zone.valid && t.zone.evalSeq == s.rb.seqNo && t.zone.want == p.any)
      && (p == Pending && !s.zone.valid ==> ok && t.zone == s.zone && t.lens == s.lens)
  {
  }

  /** A consuming publish is refused exactly when its poll fails. */
  lemma ConsumeRefusedIff(s: State, async: bool, e: Env)
    requires e.requestOk
    ensures !Consume(s, async, e).1 <==> s.rb.armed && Poll(s, !async, e).1 == ZoneD3D12.Failed
  {
  }

  /** The state a publish polls in: as it is while a copy is armed or in flight, else after an issue. */
  ghost predicate PollsIn(s: State, m: Mask, n: nat, e: Env, t: State, issued: bool) {
    (t, issued) == if s.rb.armed || (s.rb.hasFence && s.gpu.completed < s.rb.fenceValue) then (s, true)
                   else Issue(s, m, n, e)
  }

  lemma PublishIs(s: State, async: bool, m: Mask, n: nat, e: Env, t: State, issued: bool)
    requires PollsIn(s, m, n, e, t, issued) && m.w > 0 && m.h > 0 && !(s.zone.valid && s.zone.evalSeq == n)
    ensures Publish(s, async, Some(m), n, e) == if issued then Consume(t, async, e) else (t, false)
  {
  }

  lemma KnownIsAccepted(s: State, async: bool, m: Mask, n: nat, e: Env)
    requires e.requestOk && m.w > 0 && m.h > 0 && s.zone.valid && s.zone.evalSeq == n
    ensures Publish(s, async, Some(m), n, e).1
  {
  }

  /** Nothing is refused but a bad mask, a failed issue, a failed poll, and a lens request SR turns down. */
  lemma RefusedIff(s: State, async: bool, m: Mask, n: nat, e: Env, t: State, issued: bool)
    requires e.requestOk && PollsIn(s, m, n, e, t, issued)
    ensures !Publish(s, async, None, n, e).1
    ensures !Publish(s, async, Some(m), n, e).1 <==>
      || m.w == 0 || m.h == 0
      || (&& !(s.zone.valid && s.zone.evalSeq == n)
          && (!issued || (t.rb.armed && Poll(t, !async, e).1 == ZoneD3D12.Failed)))
  {
    ConsumeRefusedIff(t, async, e);
    if m.w > 0 && m.h > 0 {
      if s.zone.valid && s.zone.evalSeq == n {
        KnownIsAccepted(s, async, m, n, e);
      } else {
        PublishIs(s, async, m, n, e, t, issued);
      }
    }
  }

  // ---- A fence without its event --------------------------------------------------------------

  /** The fence comes first and stays when its event cannot be made; the event is made with it or never. */
  lemma FenceIff(s: State, e: Env)
    ensures var (t, ok) := MakeFence(s, e);
      && (ok <==> s.rb.hasFence || (e.fenceOk && e.eventOk))
      && (t.rb.hasFence <==> s.rb.hasFence || e.fenceOk)
      && (t.rb.hasEvent <==> s.rb.hasEvent || (!s.rb.hasFence && e.fenceOk && e.eventOk))
  {
  }

  ghost predicate Eventless(s: State) { s.rb.hasFence && !s.rb.hasEvent }

  lemma IssueStaysEventless(s: State, m: Mask, n: nat, e: Env)
    requires Eventless(s)
    ensures Eventless(Issue(s, m, n, e).0)
  {
    assert Eventless(MakeQueueObjects(DropSource(s), e).0);
  }

  lemma ConsumeStaysEventless(s: State, async: bool, e: Env)
    requires Eventless(s)
    ensures Eventless(Consume(s, async, e).0)
  {
  }

  lemma NextStaysEventless(s: State, async: bool, ev: Event)
    requires Eventless(s)
    ensures Eventless(Next(s, async, ev))
  {
    match ev
    case EvPublish(mask, n, e) =>
      ConsumeStaysEventless(s, async, e);
      if mask.Some? {
        IssueStaysEventless(s, mask.value, n, e);
        ConsumeStaysEventless(Issue(s, mask.value, n, e).0, async, e);
      }
    case _ =>
  }

  /** Once that happened, no publish ever makes the event up, and in the blocking mode every publish that
      has to judge a mask whose copy is in flight is refused. */
  lemma {:induction false} EventlessIsFinal(s: State, async: bool, evs: seq<Event>)
    requires Eventless(s)
    ensures var t := Run(s, async, evs);
      Eventless(t) && forall e: Env :: t.gpu.completed < t.rb.fenceValue ==> Poll(t, true, e).1 == ZoneD3D12.Failed
    decreases |evs|
  {
    if evs != [] {
      NextStaysEventless(s, async, evs[0]);
      EventlessIsFinal(Next(s, async, evs[0]), async, evs[1..]);
    }
  }

  // ---- Clearing -------------------------------------------------------------------------------

  /** A clear puts the lens where the rendering mode wants it: 3D for two views or more. */
  lemma ClearRestoresTheMode(s: State, viewCount: nat)
    requires s.zone.active && s.lens.on == s.zone.hint
    ensures ClearMask(s, viewCount, true).lens.on <==> viewCount > 1
    ensures ClearMask(s, viewCount, false).lens == s.lens
  {
  }
}
