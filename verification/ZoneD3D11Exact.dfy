/**
 What one publish of the D3D11 zone path does, in the state and the answers of its D3D calls alone.
 */
module ZoneD3D11Exact {
  import opened Common
  import opened ZoneMask
  import opened ZoneD3D11

  /** The texture of this size is there, or can be made. */
  ghost predicate StagingReady(s: State, m: Mask, e: Env) {
    (s.st.made && s.st.width == m.w && s.st.height == m.h) || e.createOk
  }

  /** A copy of this generation and size waits to be mapped. */
  ghost predicate Waits(s: State, m: Mask, n: nat) {
    s.st.pending && s.st.seqNo == n && s.st.width == m.w && s.st.height == m.h
  }

  lemma IssueIff(s: State, m: Mask, n: nat, e: Env)
    ensures var (t, ok) := Issue(s, m, n, e);
      && (ok <==> StagingReady(s, m, e))
      && (if ok then |t.copies| == |s.copies| + 1 && t.st.made && Waits(t, m, n)
          else t.copies == s.copies && !t.st.made && t.st.pending == s.st.pending)
  {
  }

  /** The Map: still drawing leaves the copy pending, a failure and a verdict give it up; a failure alone
      refuses the publish, unless SR turns the lens request down. */
  lemma MapIff(s: State, async: bool, m: Mask, n: nat, e: Env)
    requires s.copies != []
    ensures var (t, ok) := MapStaging(s, async, m, n, e);
      && (t.st.pending <==> s.st.pending && async && e.mapping == StillDrawing)
      && (e.requestOk ==> (ok <==> e.mapping != MapFailed))
      && (e.mapping == MapFailed || (async && e.mapping == StillDrawing && !s.zone.valid) ==>
            t.zone == s.zone && t.lens == s.lens)
      && (e.mapping == Mapped || (e.mapping == StillDrawing && !async) ==>
            t.zone.valid && t.zone.evalSeq == n
            && (t.zone.want <==> AnySet(s.copies[|s.copies| - 1].rows, m.w, m.h)))
  {
  }

  /** A publish queues a copy exactly when its mask is not empty and not judged yet, no copy of its
      generation and size waits, and the texture is there or can be made. */
  lemma QueuesIff(s: State, async: bool, mask: Option<Mask>, n: nat, e: Env)
    ensures var t := Publish(s, async, mask, n, e).0;
      |t.copies| == |s.copies| + 1 <==>
        && mask.Some? && mask.value.w > 0 && mask.value.h > 0
        && !(s.zone.valid && s.zone.evalSeq == n) && !Waits(s, mask.value, n) && StagingReady(s, mask.value, e)
  {
    if mask.Some? {
      IssueIff(s, mask.value, n, e);
      MapQueuesNothing(s, async, mask.value, n, e);
      MapQueuesNothing(Issue(s, mask.value, n, e).0, async, mask.value, n, e);
    }
  }

  lemma MapQueuesNothing(s: State, async: bool, m: Mask, n: nat, e: Env)
    ensures MapStaging(s, async, m, n, e).0.copies == s.copies
  {
  }

  /** With SR accepting, nothing is refused but a bad mask, a texture that cannot be made, a failed Map. */
  lemma RefusedIff(s: State, async: bool, mask: Option<Mask>, n: nat, e: Env)
    requires e.requestOk
    ensures !Publish(s, async, mask, n, e).1 <==>
      || mask.None? || mask.value.w == 0 || mask.value.h == 0
      || (&& !(s.zone.valid && s.zone.evalSeq == n)
          && (e.mapping == MapFailed || (!Waits(s, mask.value, n) && !StagingReady(s, mask.value, e))))
  {
  }

  /** A clear puts the lens where the rendering mode wants it: 3D for two views or more. */
  lemma ClearRestoresTheMode(s: State, viewCount: nat)
    requires s.zone.active && s.lens.on == s.zone.hint
    ensures ClearMask(s, viewCount, true).lens.on <==> viewCount > 1
    ensures ClearMask(s, viewCount, false).lens == s.lens
  {
  }
}
