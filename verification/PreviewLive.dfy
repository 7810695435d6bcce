/**
 The background preview does publish: what a produce queued is handed out after the next produce,
 exactly when that one has the same crop size and its map succeeds.
 */
module PreviewLive {
  import opened Common
  import opened PreviewGeometry
  import opened Preview

  /** A side of the crop, reduced, and never 0. */
  function Reduced(side: nat, shift: nat): nat { if Shr(side, shift) == 0 then 1 else Shr(side, shift) }

  predicate BigEnough(p: PollIn) {
    p.crop.Some? && p.crop.value.rect.w >= 8 && p.crop.value.rect.h >= 8
  }

  /** The poll brings a frame of a generation other than the last, with a crop worth reducing. */
  predicate Brings(lastGen: nat, p: PollIn) {
    p.alive && p.hasFrame && p.gen != lastGen && BigEnough(p)
  }

  /** The generation last seen after a poll. */
  function Seen(lastGen: nat, p: PollIn): nat { if p.alive && p.hasFrame then p.gen else lastGen }

  predicate AllOk(e: Env) { e.mipOk && e.viewOk && e.slot0Ok && e.slot1Ok }

  /** The targets are those of a crop of this size. */
  ghost predicate Fits(s: State, w: nat, h: nat) {
    && s.mip && s.srcW == w && s.srcH == h && s.shift == ShiftFor(w, h)
  }

  predicate SameSize(p: PollIn, q: PollIn)
    requires p.crop.Some? && q.crop.Some?
  {
    p.crop.value.rect.w == q.crop.value.rect.w && p.crop.value.rect.h == q.crop.value.rect.h
  }

  /** What must come of a poll that queues a produce. */
  function Promised(p: PollIn): Shot
    requires BigEnough(p)
  {
    var Crop(r, canvas) := p.crop.value;
    var shift := ShiftFor(r.w, r.h);
    Shot(Reduced(r.w, shift), Reduced(r.h, shift), p.gen, canvas, Pixels(p.frame, r, shift))
  }

  // ---- The slots are made for the crop --------------------------------------------------------

  predicate SlotOf(slot: Slot, w: nat, h: nat, shift: nat) {
    slot.made && slot.w == Reduced(w, shift) && slot.h == Reduced(h, shift)
  }

  /** While a size is recorded, both slots have it reduced. */
  ghost predicate Fitted(s: State) {
    && Shaped(s)
    && (s.srcW > 0 ==> SlotOf(s.slots[0], s.srcW, s.srcH, s.shift) && SlotOf(s.slots[1], s.srcW, s.srcH, s.shift))
  }

  lemma EnsureFits(s: State, w: nat, h: nat, e: Env)
    requires Fitted(s) && w > 0
    ensures var (t, ok) := EnsureTargets(s, w, h, e);
            Fitted(t) && (ok ==> Fits(t, w, h)) && (ok <==> Fits(s, w, h) || AllOk(e))
  {
  }

  lemma QueueFits(s: State, crop: Crop, frame: nat, gen: nat)
    requires Fitted(s)
    ensures Fitted(Queue(s, crop, frame, gen))
  {
  }

  lemma ReadBackFits(s: State, m: MapResult)
    requires Fitted(s)
    ensures Fitted(ReadBack(s, m))
  {
  }

  lemma PollFits(s: State, p: PollIn)
    requires Fitted(s)
    ensures Fitted(Poll(s, p))
  {
    PollIs(s, p);
    var t := Stamp(s, p);
    if Fresher(s, p) && t.enabled && !t.broken && Worthwhile(p.crop) {
      EnsureFits(t, p.crop.value.rect.w, p.crop.value.rect.h, p.env);
      var (r, ok) := EnsureTargets(t, p.crop.value.rect.w, p.crop.value.rect.h, p.env);
      if ok {
        QueueFits(r, p.crop.value, p.frame, p.gen);
        ReadBackFits(Queue(r, p.crop.value, p.frame, p.gen), p.env.mapping);
      }
    }
  }

  lemma {:induction false} RunFits(s: State, polls: seq<PollIn>)
    requires Fitted(s)
    ensures Fitted(Run(s, polls))
    decreases |polls|
  {
    if polls != [] {
      PollFits(s, polls[0]);
      RunFits(Poll(s, polls[0]), polls[1..]);
    }
  }

  // ---- One poll -------------------------------------------------------------------------------

  /** The poll's produce, as far as its targets. */
  lemma PollProduces(s: State, p: PollIn)
    requires Shaped(s)
    ensures !Brings(s.lastGen, p) || !s.enabled || s.broken ==> Poll(s, p) == Stamp(s, p)
    ensures Brings(s.lastGen, p) && s.enabled && !s.broken ==>
              var (t, ok) := EnsureTargets(Stamp(s, p), p.crop.value.rect.w, p.crop.value.rect.h, p.env);
              if ok then
                Shaped(t) && Poll(s, p) == ReadBack(Queue(t, p.crop.value, p.frame, p.gen), p.env.mapping)
              else Poll(s, p) == t.(broken := true)
  {
    PollIs(s, p);
    ShapeKeeps(s, p);
    if BigEnough(p) && !Sized(Stamp(s, p), p.crop.value.rect.w, p.crop.value.rect.h) {
      RebuildForgets(Stamp(s, p), p.crop.value.rect.w, p.crop.value.rect.h, p.env);
    }
  }

  /** A produce that finds the other slot full publishes it, when the map succeeds, and never otherwise. */
  lemma ReadsTheOther(s: State, crop: Crop, frame: nat, gen: nat, m: MapResult)
    requires Shaped(s)
    ensures var t := ReadBack(Queue(s, crop, frame, gen), m);
            var other := s.slots[1 - s.write];
            t.cpu == if other.pending && m == Mapped && other.pixels.Some? then
                       Some(Shot(other.w, other.h, other.gen, other.canvas, other.pixels.value))
                     else s.cpu
  {
  }

  /** A poll replaces the published bytes exactly when it brings a new generation of the size the
      targets have, a produce is waiting in the other slot, and the map succeeds. */
  lemma PublishesIff(s: State, p: PollIn)
    requires Ok(s) && Forward(s, p)
    ensures Poll(s, p).cpu != s.cpu <==>
              && Brings(s.lastGen, p) && s.enabled && !s.broken
              && Fits(s, p.crop.value.rect.w, p.crop.value.rect.h)
              && s.slots[1 - s.write].pending && p.env.mapping == Mapped
    ensures Poll(s, p).cpu != s.cpu ==> s.calls != [] && Poll(s, p).cpu == Some(s.calls[|s.calls| - 1])
  {
    PollProduces(s, p);
    if Brings(s.lastGen, p) && s.enabled && !s.broken {
      var Rect(_, _, w, h) := p.crop.value.rect;
      EnsureLeaves(Stamp(s, p), w, h, p.env);
      var (t, ok) := EnsureTargets(Stamp(s, p), w, h, p.env);
      if ok { ReadsTheOther(t, p.crop.value, p.frame, p.gen, p.env.mapping); }
      if s.slots[1 - s.write].pending { LastIsNew(s); }
    }
  }

  /** Targets of the size asked for are left alone; others leave no produce waiting. */
  lemma EnsureLeaves(s: State, w: nat, h: nat, e: Env)
    requires Shaped(s)
    ensures var (t, ok) := EnsureTargets(s, w, h, e);
            Shaped(t) && t.cpu == s.cpu && t.enabled == s.enabled && t.broken == s.broken && t.lastGen == s.lastGen
            && t.pollOk == s.pollOk
            && (if Fits(s, w, h) then t == s && ok else !t.slots[0].pending && !t.slots[1].pending)
  {
    if !Fits(s, w, h) { RebuildForgets(s, w, h, e); }
  }

  /** The produce waiting to be read is not what is published already. */
  lemma LastIsNew(s: State)
    requires Ok(s) && s.slots[1 - s.write].pending
    ensures s.calls != [] && Holds(s, s.slots[1 - s.write], |s.calls| - 1)
    ensures s.cpu != Some(s.calls[|s.calls| - 1])
  {
    if s.cpu.Some? { SupersededStays(s.calls, s.calls, s.cpu.value); }
  }

  /** How far a rebuild of the targets comes, and what it leaves when a create fails. */
  lemma RebuildIs(s: State, w: nat, h: nat, e: Env)
    requires !Fits(s, w, h)
    ensures var (t, ok) := EnsureTargets(s, w, h, e);
      && |t.slots| == 2 && t.mip == e.mipOk
      && (t.slots[0].made <==> e.mipOk && e.viewOk && e.slot0Ok)
      && (t.slots[1].made <==> e.mipOk && e.viewOk && e.slot0Ok && e.slot1Ok)
      && ((t.srcW == w && t.srcH == h) || (t.srcW == 0 && t.srcH == 0 && !ok))
      && t.cpu == s.cpu && t.broken == s.broken
  {
  }

  /** A waiting produce is given up when its map succeeds or fails, and only then. */
  lemma ReadBackGivesUpIff(s: State, m: MapResult)
    requires Shaped(s) && s.slots[s.write].pending && s.slots[s.write].pixels.Some?
    ensures var t := ReadBack(s, m);
      |t.slots| == 2 && t.write == s.write && t.slots[1 - s.write] == s.slots[1 - s.write]
      && (t.slots[s.write].pending <==> m == StillDrawing)
  {
  }

  /** After a poll something is handed out exactly when that poll had a frame, the preview is on and its
      targets could always be made, and some bytes are published. */
  lemma ServesIff(s: State, p: PollIn)
    requires Shaped(s)
    ensures GetPreview(Poll(s, p)).Some? <==>
              && p.alive && p.hasFrame && s.enabled && !Poll(s, p).broken
              && Poll(s, p).cpu.Some? && Poll(s, p).cpu.value.w > 0 && Poll(s, p).cpu.value.h > 0
  {
    PollProduces(s, p);
    if Brings(s.lastGen, p) && s.enabled && !s.broken {
      EnsureLeaves(Stamp(s, p), p.crop.value.rect.w, p.crop.value.rect.h, p.env);
    }
  }

  // ---- From one produce to the next -----------------------------------------------------------

  /** The produce of poll `p` waits to be read back, and nothing as new is published. */
  ghost predicate Waiting(s: State, p: PollIn)
    requires BigEnough(p)
  {
    && Shaped(s) && s.enabled && !s.broken && p.gen <= s.lastGen
    && Fits(s, p.crop.value.rect.w, p.crop.value.rect.h)
    && s.slots[1 - s.write].pending && Carries(s.slots[1 - s.write], Promised(p))
    && (s.cpu.Some? ==> s.cpu.value.gen < p.gen)
  }

  predicate Carries(slot: Slot, shot: Shot) {
    slot.pixels.Some? && Shot(slot.w, slot.h, slot.gen, slot.canvas, slot.pixels.value) == shot
  }

  lemma QueueWaits(s: State, p: PollIn)
    requires BigEnough(p) && Fitted(s) && s.enabled && !s.broken && s.lastGen == p.gen
    requires Fits(s, p.crop.value.rect.w, p.crop.value.rect.h)
    requires s.cpu.Some? ==> s.cpu.value.gen < p.gen
    ensures Waiting(Queue(s, p.crop.value, p.frame, p.gen), p)
  {
  }

  lemma ReadBackWaits(s: State, p: PollIn, m: MapResult)
    requires BigEnough(p) && Waiting(s, p)
    requires s.slots[s.write].pending ==> s.slots[s.write].gen < p.gen
    ensures Waiting(ReadBack(s, m), p)
  {
  }

  /** A poll that brings something, with its creates succeeding where targets are needed, queues it. */
  lemma BringsWaits(s: State, p: PollIn)
    requires Ok(s) && Fitted(s) && Forward(s, p) && s.enabled && !s.broken && Brings(s.lastGen, p)
    requires Fits(s, p.crop.value.rect.w, p.crop.value.rect.h) || AllOk(p.env)
    ensures Waiting(Poll(s, p), p)
  {
    var Rect(_, _, w, h) := p.crop.value.rect;
    var s1 := Stamp(s, p);
    PollProduces(s, p);
    EnsureFits(s1, w, h, p.env);
    EnsureLeaves(s1, w, h, p.env);
    var (t, ok) := EnsureTargets(s1, w, h, p.env);
    OlderThan(s, p.gen);
    QueueWaits(t, p);
    ReadBackWaits(Queue(t, p.crop.value, p.frame, p.gen), p, p.env.mapping);
  }

  /** Everything a coherent state holds is older than a generation still to come. */
  lemma OlderThan(s: State, gen: nat)
    requires Ok(s) && s.lastGen < gen
    ensures s.slots[1 - s.write].pending ==> s.slots[1 - s.write].gen < gen
    ensures s.cpu.Some? ==> s.cpu.value.gen < gen
  {
    if s.cpu.Some? { SupersededStays(s.calls, s.calls, s.cpu.value); }
  }

  /** None of these polls brings anything. */
  predicate Quiet(lastGen: nat, polls: seq<PollIn>)
    decreases |polls|
  {
    polls == [] || (!Brings(lastGen, polls[0]) && Quiet(Seen(lastGen, polls[0]), polls[1..]))
  }

  lemma QuietPollWaits(s: State, p: PollIn, r: PollIn)
    requires BigEnough(p) && Waiting(s, p) && Forward(s, r) && !Brings(s.lastGen, r)
    ensures Waiting(Poll(s, r), p) && Poll(s, r).lastGen == Seen(s.lastGen, r)
  {
    PollProduces(s, r);
  }

  lemma {:induction false} QuietRunWaits(s: State, p: PollIn, polls: seq<PollIn>)
    requires BigEnough(p) && Waiting(s, p) && NeverBack(s, polls) && Quiet(s.lastGen, polls)
    ensures Waiting(Run(s, polls), p)
    decreases |polls|
  {
    if polls != [] {
      QuietPollWaits(s, p, polls[0]);
      QuietRunWaits(Poll(s, polls[0]), p, polls[1..]);
    }
  }

  /** What the next poll makes of a waiting produce. */
  lemma WaitingIsPublishedIff(s: State, p: PollIn, q: PollIn)
    requires BigEnough(p) && Waiting(s, p)
    ensures Poll(s, q).cpu == Some(Promised(p)) <==>
              Brings(s.lastGen, q) && SameSize(p, q) && q.env.mapping == Mapped
    ensures Poll(s, q).cpu == Some(Promised(p)) ==> Poll(s, q).pollOk && !Poll(s, q).broken && Poll(s, q).enabled
  {
    PollProduces(s, q);
    if Brings(s.lastGen, q) {
      var Rect(_, _, w, h) := q.crop.value.rect;
      EnsureLeaves(Stamp(s, q), w, h, q.env);
      var (t, ok) := EnsureTargets(Stamp(s, q), w, h, q.env);
      if ok { ReadsTheOther(t, q.crop.value, q.frame, q.gen, q.env.mapping); }
    }
  }

  /** A capture in any reachable state, enabled and not broken. One poll brings a frame and finds or
      makes its targets, then any number bring nothing, then another poll. The first one's preview is
      what is published after the last exactly when that one brings a frame too, of the same crop
      size, and its map succeeds; it is then handed out, whole. */
  lemma {:induction false} PublishedByTheNextIff(s: State, p: PollIn, quiet: seq<PollIn>, q: PollIn)
    requires Ok(s) && Fitted(s) && s.enabled && !s.broken && Brings(s.lastGen, p) && Forward(s, p)
    requires Fits(s, p.crop.value.rect.w, p.crop.value.rect.h) || AllOk(p.env)
    requires Quiet(p.gen, quiet) && NeverBack(Poll(s, p), quiet)
    ensures var t := Run(Poll(s, p), quiet);
      var Crop(r, canvas) := p.crop.value;
      var shift := ShiftFor(r.w, r.h);
      var w, h := Reduced(r.w, shift), Reduced(r.h, shift);
      var u := Run(Poll(s, p), quiet + [q]);
      && (u.cpu == Some(Shot(w, h, p.gen, canvas, Pixels(p.frame, r, shift))) <==>
            Brings(t.lastGen, q) && SameSize(p, q) && q.env.mapping == Mapped)
      && (Brings(t.lastGen, q) && SameSize(p, q) && q.env.mapping == Mapped ==>
            GetPreview(u) == Some(Preview(p.gen % 0x1_0000_0000, w, h, w * 4, canvas, Pixels(p.frame, r, shift))))
  {
    BringsWaits(s, p);
    PollStamps(s, p);
    QuietRunWaits(Poll(s, p), p, quiet);
    WaitingIsPublishedIff(Run(Poll(s, p), quiet), p, q);
    RunOneMore(Poll(s, p), quiet, q);
  }

  lemma {:induction false} RunOneMore(s: State, polls: seq<PollIn>, q: PollIn)
    requires Shaped(s)
    ensures Shaped(Run(s, polls)) && Run(s, polls + [q]) == Poll(Run(s, polls), q)
    decreases |polls|
  {
    var all := polls + [q];
    ShapeKeeps(s, all[0]);
    if polls == [] {
      assert all[1..] == [];
    } else {
      assert all[1..] == polls[1..] + [q];
      RunOneMore(Poll(s, polls[0]), polls[1..], q);
    }
  }

  lemma PollStamps(s: State, p: PollIn)
    requires Shaped(s) && Brings(s.lastGen, p)
    ensures Poll(s, p).lastGen == p.gen
  {
    PollProduces(s, p);
    EnsureLeaves(Stamp(s, p), p.crop.value.rect.w, p.crop.value.rect.h, p.env);
  }

  /** A new capture's slots fit. */
  lemma InitialFits(on: bool)
    ensures Fitted(Initial(on))
  {
  }
}
