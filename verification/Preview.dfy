/**
 The background preview's double-buffered readback: each capture generation is reduced into one slot
 while the other is read back without waiting, so pixels, generation and canvas rectangle must travel
 together. Everything runs on the compositor's thread.
 */
module Preview {
  import opened Common
  import opened PreviewGeometry

  /** What reduced pixels are made from: the captured monitor frame, the crop, and the mip level. */
  datatype Pixels = Pixels(frame: nat, crop: Rect, shift: nat)

  datatype Slot = Slot(made: bool, w: nat, h: nat, gen: nat, pending: bool, canvas: Canvas, pixels: Option<Pixels>)

  const EMPTY_SLOT := Slot(false, 0, 0, 0, false, WHOLE, None)

  /** The read-back bytes and everything published with them. */
  datatype Shot = Shot(w: nat, h: nat, gen: nat, canvas: Canvas, pixels: Pixels)

  /** `calls` is history: what every produce that queued its copies put into its slot. */
  datatype State = State(
    enabled: bool, broken: bool, pollOk: bool, srcW: nat, srcH: nat, shift: nat, mip: bool,
    slots: seq<Slot>, write: nat, lastGen: nat, cpu: Option<Shot>, calls: seq<Shot>)

  datatype MapResult = StillDrawing | MapFailed | Mapped

  /** Which creates succeed, and what the non-blocking map reports. */
  datatype Env = Env(mipOk: bool, viewOk: bool, slot0Ok: bool, slot1Ok: bool, mapping: MapResult)

  /** One poll. `alive` is false on a monitor change or a lost window; `frame` is the captured frame
      and `crop` the window clamped to the monitor. */
  datatype PollIn = PollIn(alive: bool, hasFrame: bool, gen: nat, frame: nat, crop: Option<Crop>, env: Env)

  function Initial(enabled: bool): State {
    State(enabled, false, false, 0, 0, 0, false, [EMPTY_SLOT, EMPTY_SLOT], 0, 0, None, [])
  }

  predicate Shaped(s: State) { |s.slots| == 2 && s.write < 2 }

  // ---- The specification of each operation ----------------------------------------------------

  function Sized(s: State, w: nat, h: nat): bool {
    s.mip && s.srcW == w && s.srcH == h && s.shift == ShiftFor(w, h)
  }

  function AtLeastOne(x: nat): nat { if x != 0 then x else 1 }

  /** Rebuild the mip chain and both slots for a crop size, dropping whatever they held. */
  function EnsureTargets(s: State, w: nat, h: nat, e: Env): (State, bool) {
    if Sized(s, w, h) then (s, true) else
    var shift := ShiftFor(w, h);
    var s := s.(mip := false, slots := [EMPTY_SLOT, EMPTY_SLOT], write := 0, srcW := 0, srcH := 0);
    if !e.mipOk then (s, false) else
    var s := s.(mip := true);
    if !e.viewOk then (s, false) else
    var slot := EMPTY_SLOT.(made := true, w := AtLeastOne(Shr(w, shift)), h := AtLeastOne(Shr(h, shift)));
    if !e.slot0Ok then (s, false)
    else if !e.slot1Ok then (s.(slots := [slot, EMPTY_SLOT]), false)
    else (s.(slots := [slot, slot], srcW := w, srcH := h, shift := shift), true)
  }

  /** Queue the reduced copy into the slot being written, with its generation and rectangle. */
  function Queue(s: State, crop: Crop, frame: nat, gen: nat): State
    requires Shaped(s)
  {
    var slot := s.slots[s.write];
    var p := Pixels(frame, crop.rect, s.shift);
    s.(slots := s.slots[s.write := slot.(gen := gen, pending := true, canvas := crop.canvas, pixels := Some(p))],
       write := 1 - s.write,
       calls := s.calls + [Shot(slot.w, slot.h, gen, crop.canvas, p)])
  }

  /** Read the slot that is now next to be written: the one the previous produce filled. */
  function ReadBack(s: State, m: MapResult): State
    requires Shaped(s)
  {
    var slot := s.slots[s.write];
    if !slot.pending || m.StillDrawing? || slot.pixels.None? then s
    else if m.MapFailed? then s.(slots := s.slots[s.write := slot.(pending := false)])
    else s.(slots := s.slots[s.write := slot.(pending := false)],
            cpu := Some(Shot(slot.w, slot.h, slot.gen, slot.canvas, slot.pixels.value)))
  }

  predicate Worthwhile(crop: Option<Crop>) {
    crop.Some? && crop.value.rect.w >= MIN_SRC && crop.value.rect.h >= MIN_SRC
  }

  function Produce(s: State, crop: Option<Crop>, gen: nat, frame: nat, e: Env): State
    requires Shaped(s)
  {
    if !s.enabled || s.broken || !Worthwhile(crop) then s else
    var (t, ok) := EnsureTargets(s, crop.value.rect.w, crop.value.rect.h, e);
    if !ok then t.(broken := true)
    else ReadBack(Queue(t, crop.value, frame, gen), e.mapping)
  }

  function Poll(s: State, p: PollIn): State
    requires Shaped(s)
  {
    if !p.alive then s.(pollOk := false) else
    var s := s.(pollOk := p.hasFrame);
    if p.hasFrame && p.gen != s.lastGen then
      Produce(s.(lastGen := p.gen), p.crop, p.gen, p.frame, p.env)
    else s
  }

  /** What the runtime is handed; the generation is cut to 32 bits. */
  datatype Preview = Preview(generation: nat, w: nat, h: nat, stride: nat, canvas: Canvas, pixels: Pixels)

  function GetPreview(s: State): Option<Preview> {
    if !s.enabled || s.broken || !s.pollOk || s.cpu.None? || s.cpu.value.w == 0 || s.cpu.value.h == 0 then None
    else
      var c := s.cpu.value;
      Some(Preview(c.gen % 0x1_0000_0000, c.w, c.h, c.w * 4, c.canvas, c.pixels))
  }

  // ---- What every run keeps -------------------------------------------------------------------

  /** The slot holds what produce `k` put into it. */
  ghost predicate Holds(s: State, slot: Slot, k: int) {
    0 <= k < |s.calls| && slot.pixels.Some?
    && s.calls[k] == Shot(slot.w, slot.h, slot.gen, slot.canvas, slot.pixels.value)
  }

  ghost predicate Increasing(calls: seq<Shot>) {
    forall a, b :: 0 <= a < b < |calls| ==> calls[a].gen < calls[b].gen
  }

  /** This shot is an earlier produce's, not the last one's. */
  ghost predicate Superseded(calls: seq<Shot>, shot: Shot) {
    exists k :: 0 <= k < |calls| - 1 && calls[k] == shot
  }

  lemma SupersededStays(calls: seq<Shot>, more: seq<Shot>, shot: Shot)
    requires Superseded(calls, shot) && calls <= more
    ensures Superseded(more, shot)
    ensures Increasing(calls) ==> shot.gen < calls[|calls| - 1].gen
  {
    var k :| 0 <= k < |calls| - 1 && calls[k] == shot;
    assert more[k] == calls[k];
  }

  /** Pending slots hold the last two produces, the bytes come whole from one earlier produce. */
  ghost predicate Coherent(s: State) {
    && Shaped(s)
    && Increasing(s.calls)
    && (s.calls != [] ==> s.calls[|s.calls| - 1].gen <= s.lastGen)
    && (s.slots[1 - s.write].pending ==> Holds(s, s.slots[1 - s.write], |s.calls| - 1))
    && (s.slots[s.write].pending ==> Holds(s, s.slots[s.write], |s.calls| - 2))
    && (s.cpu.Some? ==> Superseded(s.calls, s.cpu.value))
  }

  lemma QueueKeeps(s: State, crop: Crop, frame: nat, gen: nat)
    requires Coherent(s) && Newer(s, gen) && gen <= s.lastGen
    ensures Coherent(Queue(s, crop, frame, gen))
  {
    var t := Queue(s, crop, frame, gen);
    assert t.calls[..|s.calls|] == s.calls;
    if s.cpu.Some? {
      SupersededStays(s.calls, t.calls, s.cpu.value);
    }
    assert t.slots[t.write] == s.slots[1 - s.write];
  }

  /** A read-back takes the slot filled by the produce right before this one, whole. */
  lemma ReadBackKeeps(s: State, m: MapResult)
    requires Coherent(s)
    ensures var t := ReadBack(s, m);
            Coherent(t) && t == s.(slots := t.slots, cpu := t.cpu) && SlotsMade(t) == SlotsMade(s)
            && (t.cpu == s.cpu || (|s.calls| >= 2 && t.cpu == Some(s.calls[|s.calls| - 2])))
  {
    var t := ReadBack(s, m);
    if t.cpu != s.cpu {
      assert t.calls[|s.calls| - 2] == t.cpu.value;
    }
  }

  /** The generation moves strictly forward from one produce to the next. */
  ghost predicate Newer(s: State, gen: nat) {
    s.calls != [] ==> s.calls[|s.calls| - 1].gen < gen
  }

  predicate SlotsMade(s: State)
    requires Shaped(s)
  {
    s.slots[0].made && s.slots[1].made
  }

  /** A rebuild forgets both slots, so nothing of another size can be read back. */
  lemma EnsureKeeps(s: State, w: nat, h: nat, e: Env)
    requires Coherent(s) && (s.srcW > 0 ==> SlotsMade(s)) && w > 0
    ensures var (t, ok) := EnsureTargets(s, w, h, e);
            && Coherent(t) && (ok ==> SlotsMade(t)) && (t.srcW > 0 ==> SlotsMade(t))
            && t.calls == s.calls && t.cpu == s.cpu && t.lastGen == s.lastGen
            && (ok ==> Sized(t, w, h))
            && (Sized(s, w, h) ==> t == s)
            && (!Sized(s, w, h) ==> forall i :: 0 <= i < |t.slots| ==> !t.slots[i].pending)
  {
    if !Sized(s, w, h) { RebuildForgets(s, w, h, e); }
  }

  /** What a rebuild makes, as far as it comes. */
  lemma RebuildForgets(s: State, w: nat, h: nat, e: Env)
    requires !Sized(s, w, h)
    ensures var (t, ok) := EnsureTargets(s, w, h, e);
            && |t.slots| == 2 && t.write == 0 && !t.slots[0].pending && !t.slots[1].pending
            && t == s.(mip := t.mip, slots := t.slots, write := 0, srcW := t.srcW, srcH := t.srcH, shift := t.shift)
            && (ok ==> SlotsMade(t) && Sized(t, w, h)) && (!ok ==> t.srcW == 0)
  {
  }

  /** One full produce: queue, then read back the slot the previous one filled. */
  lemma FullProduceKeeps(s: State, crop: Crop, frame: nat, gen: nat, m: MapResult)
    requires Coherent(s) && Newer(s, gen) && gen <= s.lastGen && SlotsMade(s)
    ensures var t := ReadBack(Queue(s, crop, frame, gen), m);
            && Coherent(t) && SlotsMade(t) && Advanced(s, t, gen)
            && (t.cpu == s.cpu || (|s.calls| > 0 && t.cpu == Some(s.calls[|s.calls| - 1])))
            && t.lastGen == s.lastGen
  {
    QueueKeeps(s, crop, frame, gen);
    var q := Queue(s, crop, frame, gen);
    ReadBackKeeps(q, m);
    assert q.calls[|s.calls|].gen == gen && q.calls[..|s.calls|] == s.calls;
    assert |q.calls| >= 2 ==> q.calls[|q.calls| - 2] == s.calls[|s.calls| - 1];
  }

  /** Exactly one produce of this generation was queued in between. */
  ghost predicate Advanced(s: State, t: State, gen: nat) {
    |t.calls| == |s.calls| + 1 && s.calls <= t.calls && t.calls[|s.calls|].gen == gen
  }

  ghost predicate Ok(s: State) {
    Coherent(s) && (s.srcW > 0 ==> SlotsMade(s))
  }

  /** From `s` to `t` at most one produce was queued, and what was published, if anything, is the
      produce that was last in `s`. */
  ghost predicate Steps(s: State, t: State, gen: nat) {
    && Ok(t) && t.lastGen == s.lastGen
    && (t.calls == s.calls || Advanced(s, t, gen))
    && (t.cpu == s.cpu || (|s.calls| > 0 && Advanced(s, t, gen) && t.cpu == Some(s.calls[|s.calls| - 1])))
  }

  /** `t` is `s` with its targets made anew, or not. */
  ghost predicate Retargeted(s: State, t: State) {
    Coherent(t) && (t.srcW > 0 ==> SlotsMade(t)) && t.calls == s.calls && t.cpu == s.cpu && t.lastGen == s.lastGen
  }

  lemma BreakingSteps(s: State, t: State, gen: nat)
    requires Retargeted(s, t)
    ensures Steps(s, t, gen) && Steps(s, t.(broken := true), gen)
  {
  }

  lemma FullProduceSteps(s: State, t: State, crop: Crop, frame: nat, gen: nat, m: MapResult)
    requires Retargeted(s, t) && SlotsMade(t) && Newer(t, gen) && gen <= t.lastGen
    ensures Steps(s, ReadBack(Queue(t, crop, frame, gen), m), gen)
  {
    FullProduceKeeps(t, crop, frame, gen, m);
  }

  lemma ProduceKeeps(s: State, crop: Option<Crop>, gen: nat, frame: nat, e: Env)
    requires Ok(s) && Newer(s, gen) && gen <= s.lastGen
    ensures Steps(s, Produce(s, crop, gen, frame, e), gen)
  {
    if !s.enabled || s.broken || !Worthwhile(crop) {
      BreakingSteps(s, s, gen);
    } else {
      EnsureKeeps(s, crop.value.rect.w, crop.value.rect.h, e);
      var (t, ok) := EnsureTargets(s, crop.value.rect.w, crop.value.rect.h, e);
      if ok {
        FullProduceSteps(s, t, crop.value, frame, gen, e.mapping);
      } else {
        BreakingSteps(s, t, gen);
      }
    }
  }

  /** The capture's counter never goes back. */
  ghost predicate Forward(s: State, p: PollIn) { s.lastGen <= p.gen }

  /** The state a poll produces from, or ends with. */
  function Stamp(s: State, p: PollIn): State {
    if !p.alive then s.(pollOk := false)
    else s.(pollOk := p.hasFrame, lastGen := if p.hasFrame then p.gen else s.lastGen)
  }

  predicate Fresher(s: State, p: PollIn) { p.alive && p.hasFrame && p.gen != s.lastGen }

  lemma StampKeeps(s: State, p: PollIn)
    requires Ok(s) && Forward(s, p)
    ensures Steps(Stamp(s, p), Stamp(s, p), p.gen) && (Fresher(s, p) ==> Newer(Stamp(s, p), p.gen))
  {
  }

  lemma PollIs(s: State, p: PollIn)
    requires Shaped(s)
    ensures Poll(s, p) == if Fresher(s, p) then Produce(Stamp(s, p), p.crop, p.gen, p.frame, p.env) else Stamp(s, p)
  {
  }

  lemma PollKeeps(s: State, p: PollIn)
    requires Ok(s) && Forward(s, p)
    ensures Steps(Stamp(s, p), Poll(s, p), p.gen)
  {
    StampKeeps(s, p);
    PollIs(s, p);
    if Fresher(s, p) { ProduceKeeps(Stamp(s, p), p.crop, p.gen, p.frame, p.env); }
  }

  function Run(s: State, polls: seq<PollIn>): State
    requires Shaped(s)
    decreases |polls|
  {
    if polls == [] then s else
    ShapeKeeps(s, polls[0]);
    Run(Poll(s, polls[0]), polls[1..])
  }

  lemma ProduceIsShaped(s: State, crop: Option<Crop>, gen: nat, frame: nat, e: Env)
    requires Shaped(s)
    ensures Shaped(Produce(s, crop, gen, frame, e))
  {
    if Worthwhile(crop) && !Sized(s, crop.value.rect.w, crop.value.rect.h) {
      RebuildForgets(s, crop.value.rect.w, crop.value.rect.h, e);
    }
  }

  lemma ShapeKeeps(s: State, p: PollIn)
    requires Shaped(s)
    ensures Shaped(Poll(s, p))
  {
    PollIs(s, p);
    if Fresher(s, p) { ProduceIsShaped(Stamp(s, p), p.crop, p.gen, p.frame, p.env); }
  }

  /** The bytes published along a run, in the order they replaced each other. */
  function Published(s: State, polls: seq<PollIn>): seq<Shot>
    requires Shaped(s)
    decreases |polls|
  {
    if polls == [] then [] else
    ShapeKeeps(s, polls[0]);
    var t := Poll(s, polls[0]);
    NewShot(s.cpu, t.cpu) + Published(t, polls[1..])
  }

  ghost predicate NeverBack(s: State, polls: seq<PollIn>) {
    (forall k :: 0 <= k < |polls| ==> s.lastGen <= polls[k].gen)
    && forall a, b :: 0 <= a < b < |polls| ==> polls[a].gen <= polls[b].gen
  }

  ghost predicate AllFrom(shots: seq<Shot>, calls: seq<Shot>) {
    forall k :: 0 <= k < |shots| ==> shots[k] in calls
  }

  ghost predicate AllNewer(shots: seq<Shot>, gen: nat) {
    forall k :: 0 <= k < |shots| ==> gen < shots[k].gen
  }

  function NewShot(before: Option<Shot>, after: Option<Shot>): seq<Shot> {
    if after != before && after.Some? then [after.value] else []
  }

  /** What a run that starts with these produces and these bytes publishes, from which produces. */
  ghost predicate Follows(calls: seq<Shot>, cpu: Option<Shot>, shots: seq<Shot>, from: seq<Shot>) {
    && calls <= from
    && Increasing(shots) && AllFrom(shots, from)
    && (cpu.Some? ==> AllNewer(shots, cpu.value.gen))
    && (|calls| > 1 ==> AllNewer(shots, calls[|calls| - 2].gen))
  }

  /** Produces `c` with bytes `b` become `c2` with bytes `b2` in one poll. */
  ghost predicate Moves(c: seq<Shot>, b: Option<Shot>, c2: seq<Shot>, b2: Option<Shot>) {
    && Increasing(c2) && c <= c2 && |c2| <= |c| + 1
    && (b.Some? ==> Superseded(c, b.value))
    && (b2 == b || (|c2| == |c| + 1 && |c| > 0 && b2 == Some(c[|c| - 1])))
  }

  lemma PollMoves(s: State, p: PollIn)
    requires Ok(s) && Forward(s, p)
    ensures Moves(s.calls, s.cpu, Poll(s, p).calls, Poll(s, p).cpu) && Ok(Poll(s, p))
  {
    var t := Poll(s, p);
    PollKeeps(s, p);
    StampKeeps(s, p);
  }

  lemma FollowsStep(c: seq<Shot>, b: Option<Shot>, c2: seq<Shot>, b2: Option<Shot>, shots: seq<Shot>, from: seq<Shot>)
    requires Moves(c, b, c2, b2) && Follows(c2, b2, shots, from)
    ensures Follows(c, b, NewShot(b, b2) + shots, from)
  {
    if b.Some? {
      SupersededStays(c, c2, b.value);
      var k :| 0 <= k < |c| - 1 && c[k] == b.value;
      assert c2[k] == b.value;
    }
    if b2 != b {
      assert c2[|c| - 1] == b2.value && from[|c| - 1] == b2.value;
    }
  }

  lemma {:induction false} RunIsOk(s: State, polls: seq<PollIn>)
    requires Ok(s) && NeverBack(s, polls)
    ensures Ok(Run(s, polls))
    decreases |polls|
  {
    if polls != [] {
      PollMoves(s, polls[0]);
      NeverBackTail(s, polls);
      RunIsOk(Poll(s, polls[0]), polls[1..]);
    }
  }

  /** Over any run of produces, resizes, off-screen gaps, maps still drawing and maps that fail: the
      published bytes, size, generation and canvas come whole from produces, generations strictly
      increase, and none is older than the produce that was last when the run began. */
  lemma {:induction false} RunIsCoherent(s: State, polls: seq<PollIn>)
    requires Ok(s) && NeverBack(s, polls)
    ensures Follows(s.calls, s.cpu, Published(s, polls), Run(s, polls).calls)
    decreases |polls|
  {
    if polls != [] {
      var t := Poll(s, polls[0]);
      PollMoves(s, polls[0]);
      NeverBackTail(s, polls);
      RunIsCoherent(t, polls[1..]);
      FollowsStep(s.calls, s.cpu, t.calls, t.cpu, Published(t, polls[1..]), Run(t, polls[1..]).calls);
    }
  }

  lemma NeverBackTail(s: State, polls: seq<PollIn>)
    requires polls != [] && Ok(s) && NeverBack(s, polls)
    ensures NeverBack(Poll(s, polls[0]), polls[1..])
  {
    PollKeeps(s, polls[0]);
    assert forall k :: 0 <= k < |polls| ==> polls[0].gen <= polls[k].gen;
  }

  /** A generation whose map was still drawing is overwritten, never published later. */
  lemma {:induction false} StillDrawingIsLost(s: State, polls: seq<PollIn>)
    requires Ok(s) && NeverBack(s, polls) && s.slots[s.write].pending
    ensures forall x :: x in Published(s, polls) ==> x.gen != s.slots[s.write].gen
  {
    RunIsCoherent(s, polls);
    assert Holds(s, s.slots[s.write], |s.calls| - 2);
    assert AllNewer(Published(s, polls), s.slots[s.write].gen);
  }

  function StillPoll(gen: nat): PollIn {
    PollIn(true, true, gen, gen, Some(Crop(Rect(0, 0, 8, 8), WHOLE)), Env(true, true, true, true, StillDrawing))
  }

  /** A poll that queues into targets of its size and finds the other slot still drawing. */
  lemma StillPollQueues(s: State, gen: nat)
    requires Shaped(s) && s.enabled && !s.broken && gen != s.lastGen && Sized(s, 8, 8)
    ensures var t := Poll(s, StillPoll(gen));
            && Shaped(t) && t.write == 1 - s.write && t.slots[t.write] == s.slots[t.write]
            && t.slots[s.write].pending && t.slots[s.write].gen == gen
            && t.enabled && !t.broken && t.lastGen == gen && Sized(t, 8, 8)
  {
  }

  lemma FirstStillPoll()
    ensures var t := Poll(Initial(true), StillPoll(1));
            && Shaped(t) && t.write == 1 && t.slots[0].pending && t.slots[0].gen == 1
            && t.enabled && !t.broken && t.lastGen == 1 && Sized(t, 8, 8)
  {
  }

  lemma {:induction false} RunTwo(s: State, p: PollIn, q: PollIn)
    requires Shaped(s) && Shaped(Poll(s, p))
    ensures Run(s, [p, q]) == Poll(Poll(s, p), q)
  {
    var t := Poll(s, p);
    ShapeKeeps(t, q);
    assert [p, q][1..] == [q] && [q][1..] == [];
    assert Run(t, [q]) == Run(Poll(t, q), []);
  }

  /** Two polls whose maps report a copy still drawing come to that: the copy of the first is then next to
      be overwritten. */
  lemma {:induction false} StillDrawingHappens()
    ensures var s := Run(Initial(true), [StillPoll(1), StillPoll(2)]);
            Ok(s) && s.slots[s.write].pending && s.slots[s.write].gen == 1
  {
    InitialIsOk(true);
    RunIsOk(Initial(true), [StillPoll(1), StillPoll(2)]);
    FirstStillPoll();
    var t := Poll(Initial(true), StillPoll(1));
    StillPollQueues(t, 2);
    RunTwo(Initial(true), StillPoll(1), StillPoll(2));
  }

  /** What get_preview hands out is one produce's, whole. */
  lemma HandedOutIsOneProduce(s: State) returns (k: nat)
    requires Ok(s) && GetPreview(s).Some?
    ensures k < |s.calls|
            && GetPreview(s).value == Preview(s.calls[k].gen % 0x1_0000_0000, s.calls[k].w, s.calls[k].h,
                                              s.calls[k].w * 4, s.calls[k].canvas, s.calls[k].pixels)
  {
    k :| 0 <= k < |s.calls| - 1 && s.calls[k] == s.cpu.value;
  }

  // ---- The capture's own code -----------------------------------------------------------------

  class Capture {
    const enabled: bool
    const slot: array<Slot>
    var broken: bool
    var pollOk: bool
    var srcW: nat
    var srcH: nat
    var shift: nat
    var mip: bool
    var write: nat
    var lastGen: nat
    var cpu: Option<Shot>
    ghost var calls: seq<Shot>

    ghost predicate Valid()
      reads this
    {
      slot.Length == 2 && write < 2
    }

    ghost function View(): State
      reads this, slot
      requires Valid()
    {
      State(enabled, broken, pollOk, srcW, srcH, shift, mip, slot[..], write, lastGen, cpu, calls)
    }

    constructor (on: bool)
      ensures Valid() && fresh(slot) && View() == Initial(on)
    {
      enabled := on;
      slot := new Slot[2](_ => EMPTY_SLOT);
      broken, pollOk, srcW, srcH, shift, mip := false, false, 0, 0, 0, false;
      write, lastGen, cpu, calls := 0, 0, None, [];
      new;
      assert slot[..] == [EMPTY_SLOT, EMPTY_SLOT];
    }

    /** preview_ensure_targets. */
    method EnsureFor(w: nat, h: nat, e: Env) returns (ok: bool)
      requires Valid()
      modifies this`srcW, this`srcH, this`shift, this`mip, this`write, slot
      ensures Valid() && View() == EnsureTargets(old(View()), w, h, e).0 && ok == EnsureTargets(old(View()), w, h, e).1
    {
      var s := PreviewShiftFor(w, h);
      if mip && srcW == w && srcH == h && shift == s { return true; }
      DropTargets();
      if !e.mipOk { return false; }
      mip := true;
      if !e.viewOk { return false; }
      ok := MakeSlots(EMPTY_SLOT.(made := true, w := AtLeastOne(Shr(w, s)), h := AtLeastOne(Shr(h, s))), e);
      if ok { srcW, srcH, shift := w, h, s; }
    }

    /** Both read-back slots, or as many as can be made. */
    method MakeSlots(made: Slot, e: Env) returns (ok: bool)
      requires Valid() && slot[..] == [EMPTY_SLOT, EMPTY_SLOT]
      modifies slot
      ensures Valid() && ok == (e.slot0Ok && e.slot1Ok)
      ensures slot[..] == if !e.slot0Ok then [EMPTY_SLOT, EMPTY_SLOT]
                          else if !e.slot1Ok then [made, EMPTY_SLOT] else [made, made]
    {
      if !e.slot0Ok { return false; }
      slot[0] := made;
      assert slot[..] == [made, EMPTY_SLOT];
      if !e.slot1Ok { return false; }
      slot[1] := made;
      assert slot[..] == [made, made];
      return true;
    }

    method DropTargets()
      requires Valid()
      modifies this`srcW, this`srcH, this`mip, this`write, slot
      ensures Valid()
      ensures View() == old(View()).(mip := false, slots := [EMPTY_SLOT, EMPTY_SLOT], write := 0, srcW := 0, srcH := 0)
    {
      mip := false;
      slot[0], slot[1], write, srcW, srcH := EMPTY_SLOT, EMPTY_SLOT, 0, 0, 0;
      assert slot[..] == [EMPTY_SLOT, EMPTY_SLOT];
    }

    /** Steps 1 to 3 of a produce: queue the copies, stamp the slot, turn to the other one. */
    method QueueInto(crop: Crop, frame: nat, gen: nat)
      requires Valid()
      modifies this`write, this`calls, slot
      ensures Valid() && View() == Queue(old(View()), crop, frame, gen)
    {
      var p := Pixels(frame, crop.rect, shift);
      calls := calls + [Shot(slot[write].w, slot[write].h, gen, crop.canvas, p)];
      slot[write] := slot[write].(gen := gen, pending := true, canvas := crop.canvas, pixels := Some(p));
      write := 1 - write;
    }

    /** Step 4: map the other slot without waiting, and take what travels with its pixels. */
    method ReadOther(m: MapResult)
      requires Valid()
      modifies this`cpu, slot
      ensures Valid() && View() == ReadBack(old(View()), m)
    {
      var r := slot[write];
      if !r.pending || m.StillDrawing? || r.pixels.None? { return; }
      if m.Mapped? {
        cpu := Some(Shot(r.w, r.h, r.gen, r.canvas, r.pixels.value));
      }
      slot[write] := r.(pending := false);
    }

    /** preview_produce. */
    method ProduceFrom(win: Rect, monW: int, monH: int, gen: nat, frame: nat, e: Env)
      requires Valid()
      modifies this, slot
      ensures Valid() && View() == Produce(old(View()), Clamp(win, monW, monH), gen, frame, e)
    {
      if !enabled || broken { return; }
      var crop := CanvasUv(win, monW, monH);
      if crop.None? || crop.value.rect.w < MIN_SRC || crop.value.rect.h < MIN_SRC { return; }
      var ok := EnsureFor(crop.value.rect.w, crop.value.rect.h, e);
      if !ok {
        broken := true;
        return;
      }
      QueueInto(crop.value, frame, gen);
      ReadOther(e.mapping);
    }

    /** The tail of leia_bg_capture_poll: at most one produce per capture generation. */
    method PollWindow(alive: bool, hasFrame: bool, gen: nat, frame: nat, win: Rect, monW: int, monH: int, e: Env)
      requires Valid()
      modifies this, slot
      ensures Valid()
      ensures View() == Poll(old(View()), PollIn(alive, hasFrame, gen, frame, Clamp(win, monW, monH), e))
      ensures old(Ok(View())) && old(lastGen) <= gen ==> Ok(View())
    {
      ghost var p := PollIn(alive, hasFrame, gen, frame, Clamp(win, monW, monH), e);
      if Ok(View()) && Forward(View(), p) { PollKeeps(View(), p); }
      if !alive {
        pollOk := false;
        return;
      }
      pollOk := hasFrame;
      if hasFrame && gen != lastGen {
        lastGen := gen;
        ProduceFrom(win, monW, monH, gen, frame, e);
      }
    }

    /** leia_bg_capture_get_preview. */
    method ServePreview() returns (r: Option<Preview>)
      requires Valid()
      ensures r == GetPreview(View())
    {
      if !enabled || broken || !pollOk { return None; }
      if cpu.None? || cpu.value.w == 0 || cpu.value.h == 0 { return None; }
      var c := cpu.value;
      return Some(Preview(c.gen % 0x1_0000_0000, c.w, c.h, c.w * 4, c.canvas, c.pixels));
    }
  }

  lemma InitialIsOk(on: bool)
    ensures Ok(Initial(on))
  {
  }
}
