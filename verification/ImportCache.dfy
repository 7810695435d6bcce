/**
 The conversion provider's import cache: shared textures and fences opened once per import key and
 dropped when unseen for 64 calls, and the queue of releases that borrows from them until a finish
 signals it. Keys are non-zero throughout.
 */
module ImportCache {
  import opened Common

  const MAX_AGE := 64

  datatype SyncKind = NoSync | FenceNt | KeyedMutex | OtherSync
  datatype Memory = Cpu | NtHandle | OtherMemory

  datatype Sync = Sync(kind: SyncKind, handle: nat, key: nat)
  datatype Image = Image(memory: Memory, handle: nat, key: nat, sized: bool, sync: Sync)

  /** A cached import: a texture, `km` its keyed mutex when it carries one; or a fence, which has
      none. Opened objects are named by numbers. */
  datatype Import = Import(key: nat, item: nat, km: Option<nat>, lastUsed: nat)

  /** A queued release; `at` is the tick it was queued at, which the code does not keep. */
  datatype Release = Release(kind: SyncKind, fence: Option<nat>, km: Option<nat>, at: nat)

  /** `acquired` and `released` are history: every AcquireSync and ReleaseSync that succeeded. */
  datatype State = State(
    tick: nat, textures: seq<Import>, fences: seq<Import>, pending: seq<Release>, drain: bool, lost: bool,
    next: nat, acquired: multiset<nat>, released: multiset<nat>)

  const FRESH := State(0, [], [], [], false, false, 0, multiset{}, multiset{})

  /** What the device answers during one call; `signal(i)` is the i-th queued release's signal. */
  datatype Env = Env(openOk: bool, mutexOk: bool, usable: bool, drawOk: bool, fencesOn: bool, fenceOk: bool,
                     waitOk: bool, acquireOk: bool, drainOk: bool, removed: bool, signal: nat -> bool)

  // ---- Ageing ---------------------------------------------------------------------------------

  function Young(tick: nat): Import -> bool { (c: Import) => tick - c.lastUsed <= MAX_AGE }

  /** One more call: what has not been seen for more than 64 of them goes, in order. */
  function Age(s: State): State {
    var now := s.tick + 1;
    s.(tick := now, textures := Keep(s.textures, Young(now)), fences := Keep(s.fences, Young(now)))
  }

  // ---- Opening --------------------------------------------------------------------------------

  function IndexOf(cs: seq<Import>, key: nat): Option<nat> { First(cs, (c: Import) => c.key == key) }

  /** A hit is stamped with the current call. */
  function Touch(cs: seq<Import>, i: nat, tick: nat): seq<Import>
    requires i < |cs|
  {
    cs[i := cs[i].(lastUsed := tick)]
  }

  function OpenTexture(s: State, img: Image, e: Env): (State, Option<Import>) {
    if !img.memory.NtHandle? || img.handle == 0 then (s, None) else
    match IndexOf(s.textures, img.key)
    case Some(i) =>
      if i >= |s.textures| then (s, None)
      else (s.(textures := Touch(s.textures, i, s.tick)), Some(Touch(s.textures, i, s.tick)[i]))
    case None =>
      if !e.openOk then (s, None) else
      var km := if img.sync.kind.KeyedMutex? && e.mutexOk then Some(s.next + 1) else None;
      var t := Import(img.key, s.next, km, s.tick);
      (s.(textures := s.textures + [t], next := s.next + 2), Some(t))
  }

  function OpenFence(s: State, sync: Sync, e: Env): (State, Option<nat>) {
    if !sync.kind.FenceNt? || sync.handle == 0 || !e.fencesOn then (s, None) else
    match IndexOf(s.fences, sync.key)
    case Some(i) =>
      if i >= |s.fences| then (s, None)
      else (s.(fences := Touch(s.fences, i, s.tick)), Some(s.fences[i].item))
    case None =>
      if !e.fenceOk then (s, None)
      else (s.(fences := s.fences + [Import(sync.key, s.next, None, s.tick)], next := s.next + 1), Some(s.next))
  }

  // ---- Acquire and release --------------------------------------------------------------------

  function Acquire(s: State, img: Image, t: Import, e: Env): (State, bool) {
    match img.sync.kind
    case NoSync => (s, true)
    case FenceNt =>
      var (s, f) := OpenFence(s, img.sync, e);
      (s, f.Some? && e.waitOk)
    case KeyedMutex =>
      if t.km.None? || !e.acquireOk then (s, false)
      else (s.(acquired := s.acquired + multiset{t.km.value}), true)
    case OtherSync => (s, false)
  }

  function QueueRelease(s: State, img: Image, t: Import, e: Env): State {
    match img.sync.kind
    case FenceNt =>
      var (s, f) := OpenFence(s, img.sync, e);
      s.(pending := s.pending + [Release(FenceNt, f, None, s.tick)])
    case KeyedMutex => s.(pending := s.pending + [Release(KeyedMutex, None, t.km, s.tick)])
    case _ => s.(drain := true)
  }

  /** This release is skipped by the signal loop: it neither signals nor can fail. */
  predicate Idle(r: Release) {
    !r.kind.FenceNt? && !(r.kind.KeyedMutex? && r.km.Some?)
  }

  predicate NamesMutex(r: Release) { r.kind.KeyedMutex? && r.km.Some? }

  predicate Fails(r: Release, i: nat, e: Env) {
    !Idle(r) && ((r.kind.FenceNt? && r.fence.None?) || !e.signal(i))
  }

  /** The first release whose signal fails: `ok && ...` attempts nothing after it. */
  function FirstFailure(pending: seq<Release>, i: nat, e: Env): nat
    requires i <= |pending|
    decreases |pending| - i
  {
    if i == |pending| || Fails(pending[i], i, e) then i else FirstFailure(pending, i + 1, e)
  }

  function MutexOf(r: Release): multiset<nat> {
    if NamesMutex(r) then multiset{r.km.value} else multiset{}
  }

  /** The keyed mutexes named by some queued releases. */
  function Mutexes(pending: seq<Release>): multiset<nat> {
    if pending == [] then multiset{} else MutexOf(pending[0]) + Mutexes(pending[1..])
  }

  /** Those released by a signal loop that has come to `i` without a failure. */
  function Signalled(pending: seq<Release>, i: nat, e: Env): multiset<nat>
    requires i <= |pending|
    decreases |pending| - i
  {
    if i == |pending| || Fails(pending[i], i, e) then multiset{}
    else MutexOf(pending[i]) + Signalled(pending, i + 1, e)
  }

  function Signal(s: State, e: Env): (State, bool) {
    (s.(pending := [], released := s.released + Signalled(s.pending, 0, e)),
     FirstFailure(s.pending, 0, e) == |s.pending|)
  }

  // ---- The three calls ------------------------------------------------------------------------

  function CheckLost(s: State, e: Env): State { s.(lost := s.lost || e.removed) }

  /** What an import does with the texture it opened. */
  function ConsumeInput(s: State, img: Image, t: Import, e: Env): (State, bool) {
    if !e.usable then (s, false) else
    var (s, ok) := Acquire(s, img, t, e);
    if !ok then (s, false)
    else if img.sync.kind.NoSync? then (s, true)
    else (Signal(QueueRelease(s, img, t, e), e).0, true)
  }

  function ImportHandle(s: State, img: Image, e: Env): (State, bool) {
    match OpenTexture(s, img, e)
    case (s, None) => (CheckLost(s, e), false)
    case (s, Some(t)) => ConsumeInput(s, img, t, e)
  }

  function ImportInput(s: State, img: Image, e: Env): (State, bool) {
    if s.lost then (s, false) else
    var s := Age(s);
    if !img.sized || img.memory.OtherMemory? then (s, false)
    else if img.memory.Cpu? then (s, e.usable)
    else ImportHandle(s, img, e)
  }

  /** What a write does with a target behind a handle. */
  function WriteHandle(s: State, img: Image, e: Env): (State, bool) {
    match OpenTexture(s, img, e)
    case (s, None) => (CheckLost(s, e), false)
    case (s, Some(t)) =>
      if !e.usable || !e.drawOk then (s, false) else
      var (s, ok) := Acquire(s, img, t, e);
      if !ok then (s, false) else (QueueRelease(s, img, t, e), true)
  }

  function Write(s: State, img: Image, e: Env): (State, bool) {
    if s.lost || !img.sized then (s, false) else
    var s := Age(s);
    if img.memory.Cpu? then (s, e.usable && e.drawOk) else WriteHandle(s, img, e)
  }

  function Finish(s: State, e: Env): (State, bool) {
    var (t, ok) := Signal(s, e);
    var t := CheckLost(t.(drain := false, textures := Keep(t.textures, (x: Import) => x.key != 0)), e);
    (t, ok && (s.drain ==> e.drainOk) && !t.lost)
  }

  function ClearCache(s: State): State {
    s.(pending := [], textures := [], fences := [])
  }

  datatype Event = EvImport(img: Image, env: Env) | EvWrite(img: Image, env: Env) | EvFinish(env: Env) | EvClear

  function Next(s: State, ev: Event): State {
    match ev
    case EvImport(img, e) => ImportInput(s, img, e).0
    case EvWrite(img, e) => Write(s, img, e).0
    case EvFinish(e) => Finish(s, e).0
    case EvClear => ClearCache(s)
  }

  function Run(s: State, evs: seq<Event>): State
    decreases |evs|
  {
    if evs == [] then s else Run(Next(s, evs[0]), evs[1..])
  }

  // ---- The cache over any run -----------------------------------------------------------------

  /** Every entry was seen within 64 calls, and no two have one key. */
  ghost predicate CacheOk(cs: seq<Import>, tick: nat) {
    (forall i :: 0 <= i < |cs| ==> cs[i].key != 0 && cs[i].lastUsed <= tick <= cs[i].lastUsed + MAX_AGE)
    && UniqueKeys(cs)
  }

  ghost predicate UniqueKeys(cs: seq<Import>) {
    forall i, j :: 0 <= i < j < |cs| ==> cs[i].key != cs[j].key
  }

  ghost predicate Sound(s: State) { CacheOk(s.textures, s.tick) && CacheOk(s.fences, s.tick) }

  lemma {:induction false} KeepUniqueKeys(cs: seq<Import>, p: Import -> bool)
    requires UniqueKeys(cs)
    ensures UniqueKeys(Keep(cs, p))
  {
    if cs != [] {
      KeepUniqueKeys(cs[1..], p);
      KeepIn(cs[1..], p);
      forall i | 0 <= i < |Keep(cs[1..], p)| ensures Keep(cs[1..], p)[i].key != cs[0].key {
        assert Keep(cs[1..], p)[i] in cs[1..];
      }
    }
  }

  /** Entries of `k` stand in `cs` in the same order. */
  ghost predicate SameOrder(k: seq<Import>, cs: seq<Import>) {
    forall i, j :: 0 <= i < j < |k| ==> Before(cs, k[i], k[j])
  }

  ghost predicate Before(cs: seq<Import>, x: Import, y: Import) {
    exists a, b :: 0 <= a < b < |cs| && cs[a] == x && cs[b] == y
  }

  /** An erase loop keeps the order of what it keeps. */
  lemma {:induction false} KeepOrder(cs: seq<Import>, p: Import -> bool)
    ensures SameOrder(Keep(cs, p), cs)
  {
    if cs != [] {
      var rest, k := Keep(cs[1..], p), Keep(cs, p);
      KeepOrder(cs[1..], p);
      KeepIn(cs[1..], p);
      forall i, j | 0 <= i < j < |k| ensures Before(cs, k[i], k[j]) {
        var d := |k| - |rest|;
        assert k[j] == rest[j - d];
        if i >= d {
          assert Before(cs[1..], rest[i - d], rest[j - d]);
          var a, b :| 0 <= a < b < |cs[1..]| && cs[1..][a] == k[i] && cs[1..][b] == k[j];
          assert cs[a + 1] == k[i] && cs[b + 1] == k[j];
        } else {
          assert rest[j - d] in cs[1..];
          var b :| 0 <= b < |cs[1..]| && cs[1..][b] == k[j];
          assert cs[0] == k[i] && cs[b + 1] == k[j];
        }
      }
    }
  }

  /** Ageing keeps exactly the entries seen within 64 calls: nothing younger goes, nothing older stays. */
  lemma AgeingKeeps(cs: seq<Import>, tick: nat, now: nat)
    requires CacheOk(cs, tick) && tick <= now
    ensures var k := Keep(cs, Young(now));
            CacheOk(k, now) && forall c :: c in k <==> c in cs && now <= c.lastUsed + 64
  {
    var k := Keep(cs, Young(now));
    KeepIn(cs, Young(now));
    KeepUniqueKeys(cs, Young(now));
    forall i | 0 <= i < |k| ensures k[i] in cs && now <= k[i].lastUsed + MAX_AGE {
      assert k[i] in k;
    }
  }

  /** Images the provider is given carry keys; fences are imported by key too. */
  ghost predicate Keyed(img: Image) {
    img.key != 0 && (img.sync.kind.FenceNt? ==> img.sync.key != 0)
  }

  ghost predicate EventOk(ev: Event) {
    (ev.EvImport? || ev.EvWrite?) ==> Keyed(ev.img)
  }

  // ---- Acquired equals released ---------------------------------------------------------------

  /** Every mutex acquired is released, queued to be, or among those a clear forgot; every queued fence
      was opened. */
  ghost predicate Conserves(s: State, forgotten: multiset<nat>) {
    s.acquired == s.released + forgotten + Mutexes(s.pending)
    && forall i :: 0 <= i < |s.pending| ==>
         (s.pending[i].kind.FenceNt? ==> s.pending[i].fence.Some?)
  }

  lemma {:induction false} MutexesAppend(a: seq<Release>, b: seq<Release>)
    ensures Mutexes(a + b) == Mutexes(a) + Mutexes(b)
  {
    if a == [] {
      assert a + b == b;
    } else {
      assert (a + b)[0] == a[0] && (a + b)[1..] == a[1..] + b;
      MutexesAppend(a[1..], b);
    }
  }

  lemma {:induction false} FirstFailureIs(pending: seq<Release>, i: nat, e: Env)
    requires i <= |pending|
    ensures var k := FirstFailure(pending, i, e);
            i <= k <= |pending| && (k < |pending| ==> Fails(pending[k], k, e))
            && forall j :: i <= j < k ==> !Fails(pending[j], j, e)
    decreases |pending| - i
  {
    if i < |pending| && !Fails(pending[i], i, e) {
      FirstFailureIs(pending, i + 1, e);
    }
  }

  lemma {:induction false} NoMutexes(pending: seq<Release>)
    ensures Mutexes(pending) == multiset{} <==> forall i :: 0 <= i < |pending| ==> !NamesMutex(pending[i])
  {
    if pending != [] {
      NoMutexes(pending[1..]);
      assert forall i :: 0 <= i < |pending[1..]| ==> pending[1..][i] == pending[i + 1];
      if forall i :: 0 <= i < |pending[1..]| ==> !NamesMutex(pending[1..][i]) {
        forall i | 0 < i < |pending| ensures !NamesMutex(pending[i]) {
          assert pending[1..][i - 1] == pending[i];
        }
      }
    }
  }

  lemma NoMutexesFrom(pending: seq<Release>, k: nat)
    requires k <= |pending|
    ensures Mutexes(pending[k..]) == multiset{} <==> forall i :: k <= i < |pending| ==> !NamesMutex(pending[i])
  {
    var b := pending[k..];
    NoMutexes(b);
    assert forall i :: k <= i < |pending| ==> b[i - k] == pending[i];
    assert forall i :: 0 <= i < |b| ==> b[i] == pending[k + i];
  }

  /** What a pass that has come to `i` releases, and what it leaves unreleased. */
  lemma {:induction false} SignalledAndNot(pending: seq<Release>, i: nat, e: Env)
    requires i <= |pending|
    ensures var k := FirstFailure(pending, i, e);
            k <= |pending| && Mutexes(pending[i..]) == Signalled(pending, i, e) + Mutexes(pending[k..])
    decreases |pending| - i
  {
    if i < |pending| && !Fails(pending[i], i, e) {
      SignalledAndNot(pending, i + 1, e);
      assert pending[i..][1..] == pending[i + 1..];
    }
  }

  /** A signal pass releases every queued mutex exactly when none is queued at or behind the first
      signal that fails: a failure stops the releases after it, fences and mutexes alike. */
  lemma {:induction false} SignalReleasesAllIff(s: State, e: Env)
    ensures var k := FirstFailure(s.pending, 0, e);
            k <= |s.pending|
            && (Signal(s, e).0.released == s.released + Mutexes(s.pending)
                <==> forall i :: k <= i < |s.pending| ==> !NamesMutex(s.pending[i]))
  {
    SignalledAndNot(s.pending, 0, e);
    assert s.pending[0..] == s.pending;
    var k := FirstFailure(s.pending, 0, e);
    NoMutexesFrom(s.pending, k);
    var some, left := Signalled(s.pending, 0, e), Mutexes(s.pending[k..]);
    assert s.released + (some + left) == (s.released + some) + left;
  }

  lemma SignalConserves(s: State, e: Env, forgotten: multiset<nat>)
    requires Conserves(s, forgotten) && forall i: nat :: e.signal(i)
    ensures var t := Signal(s, e).0;
            Conserves(t, forgotten) && t.acquired == t.released + forgotten && Signal(s, e).1
  {
    FirstFailureIs(s.pending, 0, e);
    SignalledAndNot(s.pending, 0, e);
    assert s.pending[0..] == s.pending;
  }

  /** The fence an acquire opened is found again, in the cache, when its release is queued. */
  lemma FenceReopens(s: State, sync: Sync, e: Env)
    requires OpenFence(s, sync, e).1.Some?
    ensures OpenFence(OpenFence(s, sync, e).0, sync, e).1.Some?
  {
    var test := (c: Import) => c.key == sync.key;
    FirstFacts(s.fences, test);
    var t := OpenFence(s, sync, e).0;
    FirstFacts(t.fences, test);
    match IndexOf(s.fences, sync.key)
    case Some(i) => assert test(t.fences[i]);
    case None => assert test(t.fences[|s.fences|]);
  }

  lemma QueueOneConserves(s: State, t: State, r: Release, forgotten: multiset<nat>)
    requires Conserves(s, forgotten) && t.pending == s.pending + [r] && t.released == s.released
    requires r.kind.FenceNt? ==> r.fence.Some?
    requires t.acquired == s.acquired + MutexOf(r)
    ensures Conserves(t, forgotten)
  {
    MutexesAppend(s.pending, [r]);
    assert Mutexes([r]) == MutexOf(r) + Mutexes([]);
  }

  lemma FencePairConserves(s: State, img: Image, x: Import, e: Env, forgotten: multiset<nat>)
    requires Conserves(s, forgotten) && img.sync.kind.FenceNt? && Acquire(s, img, x, e).1
    ensures Conserves(QueueRelease(Acquire(s, img, x, e).0, img, x, e), forgotten)
  {
    FenceReopens(s, img.sync, e);
    var t := OpenFence(s, img.sync, e).0;
    var (u, f) := OpenFence(t, img.sync, e);
    assert u.pending == s.pending && u.acquired == s.acquired && u.released == s.released;
    var r := Release(FenceNt, f, None, u.tick);
    QueueOneConserves(s, u.(pending := u.pending + [r]), r, forgotten);
  }

  lemma MutexPairConserves(s: State, img: Image, x: Import, e: Env, forgotten: multiset<nat>)
    requires Conserves(s, forgotten) && img.sync.kind.KeyedMutex? && Acquire(s, img, x, e).1
    ensures Conserves(QueueRelease(Acquire(s, img, x, e).0, img, x, e), forgotten)
  {
    var r := Release(KeyedMutex, None, x.km, s.tick);
    QueueOneConserves(s, QueueRelease(Acquire(s, img, x, e).0, img, x, e), r, forgotten);
  }

  /** Acquire, then queue the release: the pair keeps the balance; a failed acquire takes nothing. */
  lemma PairConserves(s: State, img: Image, x: Import, e: Env, forgotten: multiset<nat>)
    requires Conserves(s, forgotten)
    ensures var (t, ok) := Acquire(s, img, x, e);
            if ok then Conserves(QueueRelease(t, img, x, e), forgotten) else Conserves(t, forgotten)
  {
    if Acquire(s, img, x, e).1 {
      if img.sync.kind.FenceNt? { FencePairConserves(s, img, x, e, forgotten); }
      if img.sync.kind.KeyedMutex? { MutexPairConserves(s, img, x, e, forgotten); }
    }
  }

  lemma OpenConserves(s: State, img: Image, e: Env, forgotten: multiset<nat>)
    requires Conserves(s, forgotten)
    ensures Conserves(OpenTexture(s, img, e).0, forgotten)
  {
  }

  lemma WriteConserves(s: State, img: Image, e: Env, forgotten: multiset<nat>)
    requires Conserves(s, forgotten)
    ensures Conserves(Write(s, img, e).0, forgotten)
  {
    OpenConserves(Age(s), img, e, forgotten);
    var (o, x) := OpenTexture(Age(s), img, e);
    if x.Some? {
      PairConserves(o, img, x.value, e, forgotten);
    }
  }

  /** The same pair when the release is signalled at once, as for an input. */
  lemma SignalledPairConserves(s: State, img: Image, x: Import, e: Env, forgotten: multiset<nat>)
    requires Conserves(s, forgotten) && (forall i: nat :: e.signal(i)) && Acquire(s, img, x, e).1
    ensures Conserves(Signal(QueueRelease(Acquire(s, img, x, e).0, img, x, e), e).0, forgotten)
  {
    PairConserves(s, img, x, e, forgotten);
    SignalConserves(QueueRelease(Acquire(s, img, x, e).0, img, x, e), e, forgotten);
  }

  lemma ConsumeConserves(s: State, img: Image, x: Import, e: Env, forgotten: multiset<nat>)
    requires Conserves(s, forgotten) && forall i: nat :: e.signal(i)
    ensures Conserves(ConsumeInput(s, img, x, e).0, forgotten)
  {
    PairConserves(s, img, x, e, forgotten);
    if Acquire(s, img, x, e).1 {
      SignalledPairConserves(s, img, x, e, forgotten);
    }
  }

  lemma HandleConserves(s: State, img: Image, e: Env, forgotten: multiset<nat>)
    requires Conserves(s, forgotten) && forall i: nat :: e.signal(i)
    ensures Conserves(ImportHandle(s, img, e).0, forgotten)
  {
    OpenConserves(s, img, e, forgotten);
    var (o, x) := OpenTexture(s, img, e);
    if x.Some? {
      ConsumeConserves(o, img, x.value, e, forgotten);
    }
  }

  lemma ImportConserves(s: State, img: Image, e: Env, forgotten: multiset<nat>)
    requires Conserves(s, forgotten) && forall i: nat :: e.signal(i)
    ensures Conserves(ImportInput(s, img, e).0, forgotten)
  {
    HandleConserves(Age(s), img, e, forgotten);
  }

  ghost predicate Signals(ev: Event) {
    !ev.EvClear? ==> forall i: nat :: ev.env.signal(i)
  }

  /** The mutexes the clears of a run forget: those queued when one comes. */
  function Forgotten(s: State, evs: seq<Event>): multiset<nat>
    decreases |evs|
  {
    if evs == [] then multiset{}
    else (if evs[0].EvClear? then Mutexes(s.pending) else multiset{}) + Forgotten(Next(s, evs[0]), evs[1..])
  }

  /** Some clear of the run found a queued release that names a mutex. */
  ghost predicate ForgetsAny(s: State, evs: seq<Event>)
    decreases |evs|
  {
    evs != []
    && ((evs[0].EvClear? && exists i :: 0 <= i < |s.pending| && NamesMutex(s.pending[i]))
        || ForgetsAny(Next(s, evs[0]), evs[1..]))
  }

  lemma {:induction false} ForgottenIff(s: State, evs: seq<Event>)
    ensures Forgotten(s, evs) == multiset{} <==> !ForgetsAny(s, evs)
    decreases |evs|
  {
    if evs != [] {
      ForgottenIff(Next(s, evs[0]), evs[1..]);
      NoMutexes(s.pending);
    }
  }

  lemma NextConserves(s: State, ev: Event, forgotten: multiset<nat>)
    requires Conserves(s, forgotten) && Signals(ev)
    ensures Conserves(Next(s, ev), if ev.EvClear? then forgotten + Mutexes(s.pending) else forgotten)
  {
    match ev
    case EvImport(img, e) => ImportConserves(s, img, e, forgotten);
    case EvWrite(img, e) => WriteConserves(s, img, e, forgotten);
    case EvFinish(e) => SignalConserves(s, e, forgotten);
    case EvClear =>
  }

  lemma {:induction false} RunConserves(s: State, evs: seq<Event>, forgotten: multiset<nat>)
    requires Conserves(s, forgotten) && forall i :: 0 <= i < |evs| ==> Signals(evs[i])
    ensures Conserves(Run(s, evs), forgotten + Forgotten(s, evs))
    decreases |evs|
  {
    if evs != [] {
      NextConserves(s, evs[0], forgotten);
      var more := if evs[0].EvClear? then Mutexes(s.pending) else multiset{};
      assert forgotten + more == if evs[0].EvClear? then forgotten + Mutexes(s.pending) else forgotten;
      RunConserves(Next(s, evs[0]), evs[1..], forgotten + more);
      assert forgotten + (more + Forgotten(Next(s, evs[0]), evs[1..]))
          == (forgotten + more) + Forgotten(Next(s, evs[0]), evs[1..]);
    }
  }

  /** With no signal failing, over any run of calls that succeed or fail anywhere along the way: every
      mutex acquired is, at every finish, released or forgotten by a clear, as often as it was acquired;
      so acquired equals released exactly when no clear of the run found a mutex queued. */
  lemma {:induction false} FinishBalances(s: State, evs: seq<Event>, e: Env)
    requires Conserves(s, multiset{})
    requires (forall i :: 0 <= i < |evs| ==> Signals(evs[i])) && forall i: nat :: e.signal(i)
    ensures var t := Finish(Run(s, evs), e).0;
            && t.pending == [] && t.acquired == t.released + Forgotten(s, evs)
            && (t.acquired == t.released <==> !ForgetsAny(s, evs))
  {
    RunConserves(s, evs, multiset{});
    var gone := multiset{} + Forgotten(s, evs);
    assert gone == Forgotten(s, evs);
    SignalConserves(Run(s, evs), e, Forgotten(s, evs));
    ForgottenIff(s, evs);
    var t := Finish(Run(s, evs), e).0;
  }

  // ---- The provider's own code ----------------------------------------------------------------

  class Provider {
    var tick: nat
    var textures: seq<Import>
    var fences: seq<Import>
    var pending: seq<Release>
    var drain: bool
    var lost: bool
    var next: nat
    ghost var acquired: multiset<nat>
    ghost var released: multiset<nat>

    ghost function View(): State
      reads this
    {
      State(tick, textures, fences, pending, drain, lost, next, acquired, released)
    }

    constructor ()
      ensures View() == FRESH
      ensures Sound(View()) && Conserves(View(), multiset{})
    {
      tick, textures, fences, pending, drain, lost, next := 0, [], [], [], false, false, 0;
      acquired, released := multiset{}, multiset{};
    }

    /** The in-place erase loop over `textures`. */
    method DropTextures(p: Import -> bool)
      modifies this`textures
      ensures textures == Keep(old(textures), p)
    {
      var i := 0;
      while i < |textures|
        invariant 0 <= i <= |textures|
        invariant forall k :: 0 <= k < i ==> p(textures[k])
        invariant Keep(textures, p) == Keep(old(textures), p)
        decreases |textures| - i
      {
        if !p(textures[i]) {
          KeepErase(textures, i, p);
          textures := textures[..i] + textures[i + 1..];
        } else {
          i := i + 1;
        }
      }
      KeepAll(textures, p);
    }

    method DropFences(p: Import -> bool)
      modifies this`fences
      ensures fences == Keep(old(fences), p)
    {
      var i := 0;
      while i < |fences|
        invariant 0 <= i <= |fences|
        invariant forall k :: 0 <= k < i ==> p(fences[k])
        invariant Keep(fences, p) == Keep(old(fences), p)
        decreases |fences| - i
      {
        if !p(fences[i]) {
          KeepErase(fences, i, p);
          fences := fences[..i] + fences[i + 1..];
        } else {
          i := i + 1;
        }
      }
      KeepAll(fences, p);
    }

    method AgeCache()
      modifies this`tick, this`textures, this`fences
      ensures View() == Age(old(View()))
    {
      tick := tick + 1;
      DropTextures(Young(tick));
      DropFences(Young(tick));
    }

    method Open(img: Image, e: Env) returns (r: Option<Import>)
      modifies this`textures, this`next
      ensures View() == OpenTexture(old(View()), img, e).0 && r == OpenTexture(old(View()), img, e).1
    {
      if !img.memory.NtHandle? || img.handle == 0 { return None; }
      ghost var p := (c: Import) => c.key == img.key;
      var i := 0;
      while i < |textures|
        invariant 0 <= i <= |textures| && textures == old(textures)
        invariant forall k :: 0 <= k < i ==> textures[k].key != img.key
      {
        if textures[i].key == img.key {
          FirstIs(textures, p, i);
          textures := textures[i := textures[i].(lastUsed := tick)];
          return Some(textures[i]);
        }
        i := i + 1;
      }
      FirstNone(textures, p);
      if !e.openOk { return None; }
      var tex := next;
      var km := if img.sync.kind.KeyedMutex? && e.mutexOk then Some(next + 1) else None;
      next := next + 2;
      textures := textures + [Import(img.key, tex, km, tick)];
      return Some(textures[|textures| - 1]);
    }

    method OpenTheFence(sync: Sync, e: Env) returns (r: Option<nat>)
      modifies this`fences, this`next
      ensures View() == OpenFence(old(View()), sync, e).0 && r == OpenFence(old(View()), sync, e).1
    {
      if !sync.kind.FenceNt? || sync.handle == 0 || !e.fencesOn { return None; }
      ghost var p := (c: Import) => c.key == sync.key;
      var i := 0;
      while i < |fences|
        invariant 0 <= i <= |fences| && fences == old(fences)
        invariant forall k :: 0 <= k < i ==> fences[k].key != sync.key
      {
        if fences[i].key == sync.key {
          FirstIs(fences, p, i);
          fences := fences[i := fences[i].(lastUsed := tick)];
          return Some(fences[i].item);
        }
        i := i + 1;
      }
      FirstNone(fences, p);
      if !e.fenceOk { return None; }
      var f := next;
      next := next + 1;
      fences := fences + [Import(sync.key, f, None, tick)];
      return Some(f);
    }

    method AcquireImage(img: Image, t: Import, e: Env) returns (ok: bool)
      modifies this
      ensures View() == Acquire(old(View()), img, t, e).0 && ok == Acquire(old(View()), img, t, e).1
    {
      match img.sync.kind {
        case NoSync => ok := true;
        case FenceNt =>
          var f := OpenTheFence(img.sync, e);
          ok := f.Some? && e.waitOk;
        case KeyedMutex =>
          ok := t.km.Some? && e.acquireOk;
          if ok { acquired := acquired + multiset{t.km.value}; }
        case OtherSync => ok := false;
      }
    }

    method QueueTheRelease(img: Image, t: Import, e: Env)
      modifies this
      ensures View() == QueueRelease(old(View()), img, t, e)
    {
      var r := Release(img.sync.kind, None, None, tick);
      if img.sync.kind.FenceNt? {
        var f := OpenTheFence(img.sync, e);
        r := r.(fence := f);
      } else if img.sync.kind.KeyedMutex? {
        r := r.(km := t.km);
      } else {
        drain := true;
        return;
      }
      pending := pending + [r];
    }

    /** One turn of the loop below: `ok` guards the signal. */
    method SignalOne(r: Release, i: nat, before: bool, e: Env) returns (ok: bool)
      modifies this`released
      ensures ok == (before && !Fails(r, i, e))
      ensures released == old(released) + (if ok then MutexOf(r) else multiset{})
    {
      ok := before;
      if r.kind.FenceNt? {
        ok := ok && r.fence.Some? && e.signal(i);
      } else if r.kind.KeyedMutex? && r.km.Some? {
        ok := ok && e.signal(i);
        if ok { released := released + multiset{r.km.value}; }
      }
    }

    /** signal_pending: the first failure is the last attempt. */
    method SignalPending(e: Env) returns (ok: bool)
      modifies this`pending, this`released
      ensures View() == Signal(old(View()), e).0 && ok == Signal(old(View()), e).1
    {
      ok := SignalAll(e);
      pending := [];
    }

    method SignalAll(e: Env) returns (ok: bool)
      modifies this`released
      ensures ok == (FirstFailure(pending, 0, e) == |pending|)
      ensures released == old(released) + Signalled(pending, 0, e)
    {
      ok := true;
      var i := 0;
      ghost var first, total := FirstFailure(pending, 0, e), released + Signalled(pending, 0, e);
      while i < |pending|
        invariant 0 <= i <= |pending|
        invariant if ok then first == FirstFailure(pending, i, e) else first < |pending|
        invariant if ok then released + Signalled(pending, i, e) == total else released == total
      {
        ok := SignalOne(pending[i], i, ok, e);
        i := i + 1;
      }
    }

    method NoteLost(e: Env)
      modifies this`lost
      ensures View() == CheckLost(old(View()), e)
    {
      if !lost && e.removed { lost := true; }
    }

    method ImportHandleTexture(img: Image, e: Env) returns (ok: bool)
      modifies this
      ensures View() == ImportHandle(old(View()), img, e).0 && ok == ImportHandle(old(View()), img, e).1
    {
      var t := Open(img, e);
      if t.None? {
        NoteLost(e);
        return false;
      }
      if !e.usable { return false; }
      var got := AcquireImage(img, t.value, e);
      if !got { return false; }
      if !img.sync.kind.NoSync? {
        QueueTheRelease(img, t.value, e);
        var signalled := SignalPending(e);
      }
      return true;
    }

    method ImportImage(img: Image, e: Env) returns (ok: bool)
      modifies this
      ensures View() == ImportInput(old(View()), img, e).0 && ok == ImportInput(old(View()), img, e).1
    {
      if lost { return false; }
      AgeCache();
      if !img.sized { return false; }
      match img.memory {
        case Cpu => ok := e.usable;
        case NtHandle => ok := ImportHandleTexture(img, e);
        case OtherMemory => ok := false;
      }
    }

    method WriteTarget(img: Image, e: Env) returns (ok: bool)
      modifies this
      ensures View() == Write(old(View()), img, e).0 && ok == Write(old(View()), img, e).1
    {
      if lost || !img.sized { return false; }
      AgeCache();
      if img.memory.Cpu? { return e.usable && e.drawOk; }
      var t := Open(img, e);
      if t.None? {
        NoteLost(e);
        return false;
      }
      if !e.usable || !e.drawOk { return false; }
      ok := AcquireImage(img, t.value, e);
      if ok { QueueTheRelease(img, t.value, e); }
    }

    /** leia_conv_d3d11_finish; the erase loop drops keyless imports, of which there are none here. */
    method FinishConvert(e: Env) returns (ok: bool)
      modifies this
      ensures View() == Finish(old(View()), e).0 && ok == Finish(old(View()), e).1
    {
      ok := SignalPending(e);
      if drain {
        drain := false;
        ok := e.drainOk && ok;
      }
      DropTextures((x: Import) => x.key != 0);
      NoteLost(e);
      ok := ok && !lost;
    }

    method Clear()
      modifies this
      ensures View() == ClearCache(old(View()))
    {
      pending, textures, fences := [], [], [];
    }
  }
}
