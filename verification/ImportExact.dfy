/**
 When the conversion provider's calls succeed, in the caches, the image and the device's answers alone;
 what each success leaves queued; and when the provider gives the device up for lost.
 */
module ImportExact {
  import opened Common
  import opened ImportCache
  import opened ImportConvert

  // ---- Opening --------------------------------------------------------------------------------

  ghost predicate Cached(cs: seq<Import>, key: nat) {
    exists i :: 0 <= i < |cs| && cs[i].key == key
  }

  /** The first import cached under this key. */
  ghost predicate CachedAt(cs: seq<Import>, key: nat, i: int) {
    0 <= i < |cs| && cs[i].key == key && forall j :: 0 <= j < i ==> cs[j].key != key
  }

  lemma IndexIs(cs: seq<Import>, key: nat)
    ensures match IndexOf(cs, key)
            case Some(i) => CachedAt(cs, key, i)
            case None => !Cached(cs, key)
  {
    FirstFacts(cs, (c: Import) => c.key == key);
  }

  ghost predicate Opens(s: State, img: Image, e: Env) {
    img.memory.NtHandle? && img.handle != 0 && (Cached(s.textures, img.key) || e.openOk)
  }

  /** A handle opens exactly when it is a real NT handle whose key is cached or whose opening succeeds. A
      cached texture is itself again, seen now; a new one is named from `next`, with a mutex exactly when
      it is asked for and there. */
  lemma OpenTextureIff(s: State, img: Image, e: Env)
    ensures var (t, r) := OpenTexture(s, img, e);
      && (r.Some? <==> Opens(s, img, e))
      && t == s.(textures := t.textures, next := t.next)
      && (r.None? ==> t == s)
      && (r.Some? ==> r.value.key == img.key && r.value.lastUsed == s.tick && r.value in t.textures)
      && (r.Some? && !Cached(s.textures, img.key) ==>
            && r.value.item == s.next && t.textures == s.textures + [r.value]
            && r.value.km == if img.sync.kind == KeyedMutex && e.mutexOk then Some(s.next + 1) else None)
    ensures forall i :: CachedAt(s.textures, img.key, i) && OpenTexture(s, img, e).1.Some? ==>
              && OpenTexture(s, img, e).1.value.item == s.textures[i].item
              && OpenTexture(s, img, e).1.value.km == s.textures[i].km
  {
    IndexIs(s.textures, img.key);
    var (t, r) := OpenTexture(s, img, e);
    match IndexOf(s.textures, img.key)
    case Some(i) => assert r.Some? ==> t.textures[i] == r.value;
    case None => assert r.Some? ==> t.textures[|s.textures|] == r.value;
  }

  ghost predicate FenceOpens(s: State, sync: Sync, e: Env) {
    sync.kind == FenceNt && sync.handle != 0 && e.fencesOn && (Cached(s.fences, sync.key) || e.fenceOk)
  }

  lemma OpenFenceIff(s: State, sync: Sync, e: Env)
    ensures var (t, r) := OpenFence(s, sync, e);
      && (r.Some? <==> FenceOpens(s, sync, e))
      && t == s.(fences := t.fences, next := t.next)
      && (r.Some? && !Cached(s.fences, sync.key) ==> r == Some(s.next))
    ensures forall i :: CachedAt(s.fences, sync.key, i) && OpenFence(s, sync, e).1.Some? ==>
              OpenFence(s, sync, e).1 == Some(s.fences[i].item)
  {
    IndexIs(s.fences, sync.key);
  }

  // ---- Acquiring ------------------------------------------------------------------------------

  /** The texture of this image has, or comes with, a keyed mutex. */
  ghost predicate HasMutex(s: State, img: Image, e: Env) {
    if Cached(s.textures, img.key) then exists i :: CachedAt(s.textures, img.key, i) && s.textures[i].km.Some?
    else e.mutexOk
  }

  /** No synchronization needs nothing, a fence must open and be waited for, a mutex must be there and
      acquired; nothing else is known. */
  ghost predicate Acquires(s: State, img: Image, e: Env) {
    match img.sync.kind
    case NoSync => true
    case FenceNt => FenceOpens(s, img.sync, e) && e.waitOk
    case KeyedMutex => HasMutex(s, img, e) && e.acquireOk
    case OtherSync => false
  }

  lemma AcquireIff(s: State, img: Image, e: Env)
    requires Opens(s, img, e)
    ensures var (t, r) := OpenTexture(s, img, e);
      r.Some? && (Acquire(t, img, r.value, e).1 <==> Acquires(s, img, e))
  {
    OpenTextureIff(s, img, e);
    IndexIs(s.textures, img.key);
    var (t, r) := OpenTexture(s, img, e);
    assert FenceOpens(t, img.sync, e) == FenceOpens(s, img.sync, e);
    OpenFenceIff(t, img.sync, e);
    var i := IndexOf(s.textures, img.key);
    if i.Some? { assert CachedAt(s.textures, img.key, i.value); }
  }

  lemma AcquireTakes(s: State, img: Image, x: Import, e: Env)
    ensures var (t, ok) := Acquire(s, img, x, e);
      && t == s.(fences := t.fences, next := t.next, acquired := t.acquired)
      && t.acquired == if ok && img.sync.kind == KeyedMutex && x.km.Some? then s.acquired + multiset{x.km.value}
                       else s.acquired
  {
  }

  /** One release more is queued for a fence or a mutex; without one the finish must drain. */
  ghost predicate Owes(s: State, t: State, kind: SyncKind) {
    if kind == FenceNt || kind == KeyedMutex then
      && |t.pending| == |s.pending| + 1 && t.pending[..|s.pending|] == s.pending
      && t.pending[|s.pending|].kind == kind && t.drain == s.drain
    else t.pending == s.pending && t.drain
  }

  lemma QueueOwes(s: State, img: Image, x: Import, e: Env)
    ensures Owes(s, QueueRelease(s, img, x, e), img.sync.kind) && QueueRelease(s, img, x, e).lost == s.lost
  {
  }

  // ---- The calls ------------------------------------------------------------------------------

  /** A target is written exactly when the device is not lost, its extent is known, what it needs is
      opened, drawn and acquired; then its release is owed, and otherwise nothing is. */
  lemma WriteIff(s: State, img: Image, e: Env)
    ensures var (t, ok) := Write(s, img, e);
      && (ok <==> !s.lost && img.sized && e.usable && e.drawOk
                  && (img.memory == Cpu || (Opens(Age(s), img, e) && Acquires(Age(s), img, e))))
      && if ok && img.memory != Cpu then Owes(s, t, img.sync.kind) else t.pending == s.pending && t.drain == s.drain
  {
    var a := Age(s);
    OpenTextureIff(a, img, e);
    if Opens(a, img, e) {
      AcquireIff(a, img, e);
      var (o, x) := OpenTexture(a, img, e);
      AcquireTakes(o, img, x.value, e);
      QueueOwes(Acquire(o, img, x.value, e).0, img, x.value, e);
    }
  }

  /** An input is imported exactly when the device is not lost, its extent is known and its memory is of
      a kind known here, and what it needs is opened and acquired; a synchronized one is released at once. */
  lemma ImportIff(s: State, img: Image, e: Env)
    ensures var (t, ok) := ImportInput(s, img, e);
      && (ok <==> !s.lost && img.sized && e.usable
                  && (img.memory == Cpu || (Opens(Age(s), img, e) && Acquires(Age(s), img, e))))
      && t.drain == s.drain
      && t.pending == if ok && img.memory != Cpu && img.sync.kind != NoSync then [] else s.pending
  {
    var a := Age(s);
    OpenTextureIff(a, img, e);
    if Opens(a, img, e) {
      AcquireIff(a, img, e);
      var (o, x) := OpenTexture(a, img, e);
      AcquireTakes(o, img, x.value, e);
      QueueOwes(Acquire(o, img, x.value, e).0, img, x.value, e);
    }
  }

  /** The i-th queued release cannot be signalled. */
  ghost predicate Stuck(r: Release, i: nat, e: Env) {
    match r.kind
    case FenceNt => r.fence.None? || !e.signal(i)
    case KeyedMutex => r.km.Some? && !e.signal(i)
    case _ => false
  }

  /** A signal pass releases the mutexes queued before the first release that cannot be signalled, and
      no other. */
  lemma SignalIs(s: State, e: Env, k: nat)
    requires k <= |s.pending| && (forall i :: 0 <= i < k ==> !Stuck(s.pending[i], i, e))
    requires k < |s.pending| ==> Stuck(s.pending[k], k, e)
    ensures var (t, ok) := Signal(s, e);
      && (ok <==> k == |s.pending|) && t.pending == [] && t.released == s.released + Mutexes(s.pending[..k])
  {
    SignalledIs(s.pending, 0, k, e);
    assert s.pending[0..k] == s.pending[..k];
  }

  lemma {:induction false} SignalledIs(pending: seq<Release>, from: nat, k: nat, e: Env)
    requires from <= k <= |pending| && forall i :: from <= i < k ==> !Stuck(pending[i], i, e)
    requires k < |pending| ==> Stuck(pending[k], k, e)
    ensures Signalled(pending, from, e) == Mutexes(pending[from..k]) && FirstFailure(pending, from, e) == k
    decreases k - from
  {
    if from < k {
      FailsWhenStuck(pending[from], from, e);
      SignalledIs(pending, from + 1, k, e);
      var some := pending[from..k];
      assert some[0] == pending[from] && some[1..] == pending[from + 1..k];
    } else {
      assert pending[from..k] == [];
      if k < |pending| { FailsWhenStuck(pending[k], k, e); }
    }
  }

  lemma FailsWhenStuck(r: Release, i: nat, e: Env)
    ensures Fails(r, i, e) <==> Stuck(r, i, e)
  {
  }

  lemma {:induction false} PassIff(pending: seq<Release>, i: nat, e: Env)
    requires i <= |pending|
    ensures FirstFailure(pending, i, e) == |pending| <==> forall j :: i <= j < |pending| ==> !Stuck(pending[j], j, e)
    decreases |pending| - i
  {
    FirstFailureIs(pending, i, e);
    assert forall j :: 0 <= j < |pending| ==> (Fails(pending[j], j, e) <==> Stuck(pending[j], j, e));
  }

  /** A finish succeeds exactly when every queued release is signalled, the drain it owes succeeds, and the
      device is not lost; whatever happens, nothing is owed after it. */
  lemma FinishIff(s: State, e: Env)
    ensures var (t, ok) := Finish(s, e);
      && (ok <==> (forall j :: 0 <= j < |s.pending| ==> !Stuck(s.pending[j], j, e))
                  && (s.drain ==> e.drainOk) && !s.lost && !e.removed)
      && t.pending == [] && !t.drain && (t.lost <==> s.lost || e.removed)
  {
    PassIff(s.pending, 0, e);
  }

  /** A clear leaves nothing cached and nothing queued, so every key opens anew; it gives no name out
      again and forgives no loss. */
  lemma ClearLeavesNothing(s: State)
    ensures var t := ClearCache(s);
      && t.pending == [] && (forall key :: !Cached(t.textures, key) && !Cached(t.fences, key))
      && t.next == s.next && t.tick == s.tick && t.lost == s.lost && t.drain == s.drain
      && t.acquired == s.acquired && t.released == s.released
  {
  }

  // ---- The lost device ------------------------------------------------------------------------

  /** The call ends in the check for a removed device, and finds it so: at a finish, and where a handle
      does not open. */
  ghost predicate Notices(s: State, ev: Event) {
    match ev
    case EvImport(img, e) => !s.lost && img.sized && img.memory == NtHandle && !Opens(Age(s), img, e) && e.removed
    case EvWrite(img, e) => !s.lost && img.sized && img.memory != Cpu && !Opens(Age(s), img, e) && e.removed
    case EvFinish(e) => e.removed
    case EvClear => false
  }

  lemma LostStep(s: State, ev: Event)
    ensures Next(s, ev).lost <==> s.lost || Notices(s, ev)
  {
    match ev
    case EvImport(img, e) =>
      OpenTextureIff(Age(s), img, e);
      if Opens(Age(s), img, e) { HandleKeepsLost(Age(s), img, e); }
    case EvWrite(img, e) =>
      OpenTextureIff(Age(s), img, e);
      if Opens(Age(s), img, e) { HandleKeepsLost(Age(s), img, e); }
    case EvFinish(e) => FinishIff(s, e);
    case EvClear =>
  }

  lemma HandleKeepsLost(s: State, img: Image, e: Env)
    requires Opens(s, img, e)
    ensures ImportHandle(s, img, e).0.lost == s.lost && WriteHandle(s, img, e).0.lost == s.lost
  {
    OpenTextureIff(s, img, e);
    var (o, x) := OpenTexture(s, img, e);
    AcquireTakes(o, img, x.value, e);
    QueueOwes(Acquire(o, img, x.value, e).0, img, x.value, e);
  }

  ghost predicate NoticedIn(s: State, evs: seq<Event>)
    decreases |evs|
  {
    evs != [] && (Notices(s, evs[0]) || NoticedIn(Next(s, evs[0]), evs[1..]))
  }

  /** No import and no write does anything, and no finish succeeds. */
  ghost predicate GivenUp(s: State) {
    forall img, e :: ImportInput(s, img, e) == (s, false) && Write(s, img, e) == (s, false) && !Finish(s, e).1
  }

  lemma LostIsGivenUp(s: State)
    requires s.lost
    ensures GivenUp(s)
  {
    forall img, e ensures ImportInput(s, img, e) == (s, false) && Write(s, img, e) == (s, false) && !Finish(s, e).1 {
      FinishIff(s, e);
    }
  }

  /** Over any run the device is lost exactly when some call noticed it removed; and then given up. */
  lemma {:induction false} LostIff(s: State, evs: seq<Event>)
    ensures Run(s, evs).lost <==> s.lost || NoticedIn(s, evs)
    ensures Run(s, evs).lost ==> GivenUp(Run(s, evs))
    decreases |evs|
  {
    if evs != [] {
      LostStep(s, evs[0]);
      LostIff(Next(s, evs[0]), evs[1..]);
    } else if s.lost {
      LostIsGivenUp(s);
    }
  }

  // ---- A convert ------------------------------------------------------------------------------

  /** The state after these writes, whether they succeed or not. */
  function Written(s: State, targets: seq<Target>): State
    decreases |targets|
  {
    if targets == [] then s else Written(Write(s, targets[0].img, targets[0].env).0, targets[1..])
  }

  predicate AllWritten(s: State, targets: seq<Target>)
    decreases |targets|
  {
    targets == []
    || (Write(s, targets[0].img, targets[0].env).1
        && AllWritten(Write(s, targets[0].img, targets[0].env).0, targets[1..]))
  }

  /** The writes stop behind the first that fails, and nothing after it is attempted. */
  lemma {:induction false} WritesStopAtTheFirstFailure(s: State, targets: seq<Target>) returns (n: nat)
    ensures n <= |targets|
    ensures WriteTargets(s, targets) == (Written(s, targets[..n]), AllWritten(s, targets))
    ensures if AllWritten(s, targets) then n == |targets|
            else n > 0 && AllWritten(s, targets[..n - 1]) && !AllWritten(s, targets[..n])
    decreases |targets|
  {
    if targets == [] { return 0; }
    var (t, ok) := Write(s, targets[0].img, targets[0].env);
    if ok {
      n := WritesStopAtTheFirstFailure(t, targets[1..]);
      n := n + 1;
      assert targets[..n][1..] == targets[1..][..n - 1];
      assert n > 1 ==> targets[..n - 1][1..] == targets[1..][..n - 2];
    } else {
      n := 1;
      assert targets[..1][1..] == [];
    }
  }

  /** A convert succeeds exactly when its import, what lies between, every write and its finish do; it
      then finished once. One that failed before its finish finished once, on the failure path; one that
      failed in it, twice. */
  lemma ConvertIff(s: State, c: Conversion)
    ensures var (t, imported) := ImportInput(s, c.input, c.env);
      var (u, ok) := Convert(s, c);
      var (f, finished) := Finish(Written(t, c.targets), c.finish);
      && (ok <==> imported && c.lifted && AllWritten(t, c.targets) && finished)
      && (ok ==> u == f)
      && (!imported || !c.lifted ==> u == Finish(t, c.again).0)
      && (imported && c.lifted && AllWritten(t, c.targets) && !finished ==> u == Finish(f, c.again).0)
  {
    var t := ImportInput(s, c.input, c.env).0;
    var n := WritesStopAtTheFirstFailure(t, c.targets);
    assert n == |c.targets| ==> c.targets[..n] == c.targets;
  }
}
