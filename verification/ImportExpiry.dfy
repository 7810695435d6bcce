/**
 What the caches keep over any calls, and how long a queued release may wait: exactly when the import it
 borrows from has been dropped by the time a finish signals it.
 */
module ImportExpiry {
  import opened Common
  import opened ImportCache

  /** What a queued release borrows: a texture's keyed mutex, or a fence. */
  datatype Loan = TheMutex(id: nat) | TheFence(id: nat)

  /** The name of the fence, or of the texture's mutex if it carries one. */
  function NameIn(c: Import, fence: bool): Option<nat> { if fence then Some(c.item) else c.km }

  predicate Is(c: Import, x: Loan) { NameIn(c, x.TheFence?) == Some(x.id) }

  function CacheOf(s: State, x: Loan): seq<Import> { if x.TheMutex? then s.textures else s.fences }

  /** The loan's import is cached under this key, last seen at this tick. */
  ghost predicate Holds(cs: seq<Import>, x: Loan, key: nat, at: nat) {
    (exists i :: 0 <= i < |cs| && Is(cs[i], x))
    && forall i :: 0 <= i < |cs| && Is(cs[i], x) ==> cs[i].key == key && cs[i].lastUsed == at
  }

  ghost predicate Gone(cs: seq<Import>, x: Loan) { forall i :: 0 <= i < |cs| ==> !Is(cs[i], x) }

  /** Held under its key and stamp, or dropped. */
  ghost predicate Stands(cs: seq<Import>, x: Loan, key: nat, at: Option<nat>) {
    match at
    case None => Gone(cs, x)
    case Some(t) => Holds(cs, x, key, t)
  }

  /** Every name in the cache was given out, and to one entry. */
  ghost predicate Lone(cs: seq<Import>, fence: bool, next: nat) {
    && (forall i :: 0 <= i < |cs| && NameIn(cs[i], fence).Some? ==> NameIn(cs[i], fence).value < next)
    && (forall i, j :: 0 <= i < j < |cs| && NameIn(cs[i], fence).Some? ==> NameIn(cs[i], fence) != NameIn(cs[j], fence))
  }

  // ---- One cache under one call ---------------------------------------------------------------

  /** A hit is stamped; a miss adds what was opened, if anything was. */
  function Look(cs: seq<Import>, key: nat, now: nat, made: Option<Import>): seq<Import> {
    match IndexOf(cs, key)
    case Some(i) => if i < |cs| then Touch(cs, i, now) else cs
    case None => if made.Some? then cs + [made.value] else cs
  }

  /** An import opened now, named from `next` up. */
  predicate Opened(c: Import, key: nat, now: nat, fence: bool, next: nat, more: nat) {
    c.key == key && c.lastUsed == now && (NameIn(c, fence).Some? ==> next <= NameIn(c, fence).value < more)
  }

  /** `after` is `cs` looked up under this key, or left alone. */
  ghost predicate Looked(cs: seq<Import>, key: Option<nat>, now: nat, fence: bool, next: nat, more: nat,
                         after: seq<Import>) {
    next <= more
    && match key
       case None => after == cs
       case Some(k) =>
         exists c: Option<Import> :: after == Look(cs, k, now, c)
                                     && (c.Some? ==> Opened(c.value, k, now, fence, next, more))
  }

  /** Looking a key up keeps the cache sound. */
  lemma LookKeeps(cs: seq<Import>, k: nat, now: nat, made: Option<Import>)
    requires CacheOk(cs, now) && k != 0 && (made.Some? ==> made.value.key == k && made.value.lastUsed == now)
    ensures CacheOk(Look(cs, k, now, made), now)
  {
    FirstFacts(cs, (c: Import) => c.key == k);
  }

  lemma CallKeeps(cs: seq<Import>, tick: nat, look: Option<nat>, now: nat, fence: bool, next: nat, more: nat,
                  after: seq<Import>)
    requires Looked(Keep(cs, Young(now)), look, now, fence, next, more, after) && look != Some(0)
    requires CacheOk(cs, tick) && tick <= now
    ensures CacheOk(after, now)
  {
    var aged := Keep(cs, Young(now));
    AgeingKeeps(cs, tick, now);
    if look.Some? {
      var c :| after == Look(aged, look.value, now, c)
               && (c.Some? ==> Opened(c.value, look.value, now, fence, next, more));
      LookKeeps(aged, look.value, now, c);
    }
  }

  /** Where a loan stamped at `at` stands once the cache has aged to `now`. */
  function Aged(at: Option<nat>, now: nat): Option<nat> {
    if at.Some? && now - at.value > MAX_AGE then None else at
  }

  function Stamped(at: Option<nat>, uses: bool, now: nat): Option<nat> { if at.Some? && uses then Some(now) else at }

  lemma AgeStands(cs: seq<Import>, x: Loan, key: nat, at: Option<nat>, now: nat)
    requires Stands(cs, x, key, at)
    ensures Stands(Keep(cs, Young(now)), x, key, Aged(at, now))
  {
    var k := Keep(cs, Young(now));
    KeepIn(cs, Young(now));
    forall i | 0 <= i < |k| && Is(k[i], x)
      ensures at.Some? && k[i].key == key && k[i].lastUsed == at.value && now - at.value <= MAX_AGE
    {
      assert k[i] in k;
    }
    if at.Some? && now - at.value <= MAX_AGE {
      var i :| 0 <= i < |cs| && Is(cs[i], x);
      assert cs[i] in k;
    }
  }

  lemma LookStands(cs: seq<Import>, k: nat, now: nat, made: Option<Import>, x: Loan, key: nat, at: Option<nat>)
    requires Stands(cs, x, key, at) && UniqueKeys(cs) && (made.Some? ==> !Is(made.value, x))
    ensures Stands(Look(cs, k, now, made), x, key, Stamped(at, k == key, now))
  {
    FirstFacts(cs, (c: Import) => c.key == k);
    var t := Look(cs, k, now, made);
    forall j | 0 <= j < |cs| ensures Is(t[j], x) <==> Is(cs[j], x) {
    }
    if at.Some? {
      var h :| 0 <= h < |cs| && Is(cs[h], x);
      assert Is(t[h], x);
    }
  }

  /** A call ages a cache and looks up at most one key in it: the loan's stamp moves as that says. */
  lemma CallStands(cs: seq<Import>, look: Option<nat>, now: nat, next: nat, more: nat, after: seq<Import>,
                   x: Loan, key: nat, at: Option<nat>)
    requires Looked(Keep(cs, Young(now)), look, now, x.TheFence?, next, more, after) && x.id < next
    requires Stands(cs, x, key, at) && UniqueKeys(cs)
    ensures Stands(after, x, key, Stamped(Aged(at, now), look == Some(key), now))
  {
    var aged := Keep(cs, Young(now));
    AgeStands(cs, x, key, at, now);
    KeepUniqueKeys(cs, Young(now));
    if look.Some? {
      var c :| after == Look(aged, look.value, now, c)
               && (c.Some? ==> Opened(c.value, look.value, now, x.TheFence?, next, more));
      LookStands(aged, look.value, now, c, x, key, Aged(at, now));
    }
  }

  lemma {:induction false} KeepLone(cs: seq<Import>, p: Import -> bool, fence: bool, next: nat)
    requires Lone(cs, fence, next)
    ensures Lone(Keep(cs, p), fence, next)
  {
    if cs != [] {
      var k := Keep(cs[1..], p);
      KeepLone(cs[1..], p, fence, next);
      KeepIn(cs[1..], p);
      forall i | 0 <= i < |k| && NameIn(k[i], fence).Some?
        ensures NameIn(k[i], fence) != NameIn(cs[0], fence)
      {
        assert k[i] in k;
        var j :| 0 <= j < |cs[1..]| && cs[1..][j] == k[i];
        assert cs[j + 1] == k[i];
      }
    }
  }

  lemma LookLone(cs: seq<Import>, k: nat, now: nat, made: Option<Import>, fence: bool, next: nat, more: nat)
    requires Lone(cs, fence, next) && next <= more && (made.Some? ==> Opened(made.value, k, now, fence, next, more))
    ensures Lone(Look(cs, k, now, made), fence, more)
  {
    FirstFacts(cs, (c: Import) => c.key == k);
    assert forall j :: 0 <= j < |cs| ==> NameIn(Look(cs, k, now, made)[j], fence) == NameIn(cs[j], fence);
  }

  lemma CallLone(cs: seq<Import>, look: Option<nat>, now: nat, fence: bool, next: nat, more: nat, after: seq<Import>)
    requires Looked(Keep(cs, Young(now)), look, now, fence, next, more, after) && Lone(cs, fence, next)
    ensures Lone(after, fence, more)
  {
    var aged := Keep(cs, Young(now));
    KeepLone(cs, Young(now), fence, next);
    if look.Some? {
      var c :| after == Look(aged, look.value, now, c)
               && (c.Some? ==> Opened(c.value, look.value, now, fence, next, more));
      LookLone(aged, look.value, now, c, fence, next, more);
    }
  }

  // ---- What each call looks up ----------------------------------------------------------------

  /** The call ages the caches. */
  predicate Ages(s: State, ev: Event) {
    !s.lost && (ev.EvImport? || (ev.EvWrite? && ev.img.sized))
  }

  function TextureKey(img: Image): Option<nat> {
    if img.memory.NtHandle? && img.handle != 0 then Some(img.key) else None
  }

  function FenceKey(sync: Sync, e: Env): Option<nat> {
    if sync.kind.FenceNt? && sync.handle != 0 && e.fencesOn then Some(sync.key) else None
  }

  /** An image's fence is looked up once its texture is open and, for a write, drawn to. */
  function HandleKey(s: State, img: Image, e: Env, fence: bool, drawn: bool): Option<nat> {
    if !fence then TextureKey(img)
    else if OpenTexture(s, img, e).1.Some? && e.usable && drawn then FenceKey(img.sync, e)
    else None
  }

  /** The key this call looks up among the textures, or among the fences. */
  function LookOf(s: State, ev: Event, fence: bool): Option<nat> {
    if !Ages(s, ev) || !ev.img.sized || !ev.img.memory.NtHandle? then None
    else HandleKey(Age(s), ev.img, ev.env, fence, ev.EvImport? || ev.env.drawOk)
  }

  /** What a call did to both caches. */
  ghost predicate Did(s: State, t: State, texture: Option<nat>, fence: Option<nat>) {
    && t.tick == s.tick
    && Looked(s.textures, texture, s.tick, false, s.next, t.next, t.textures)
    && Looked(s.fences, fence, s.tick, true, s.next, t.next, t.fences)
  }

  lemma OpenTextureDoes(s: State, img: Image, e: Env)
    ensures Did(s, OpenTexture(s, img, e).0, TextureKey(img), None)
  {
    FirstFacts(s.textures, (c: Import) => c.key == img.key);
    var t := OpenTexture(s, img, e).0;
    if TextureKey(img).Some? {
      var c := if |t.textures| > |s.textures| then Some(t.textures[|s.textures|]) else None;
      assert t.textures == Look(s.textures, img.key, s.tick, c);
    }
  }

  lemma OpenFenceDoes(s: State, sync: Sync, e: Env)
    ensures Did(s, OpenFence(s, sync, e).0, None, FenceKey(sync, e))
  {
    FirstFacts(s.fences, (c: Import) => c.key == sync.key);
    var t := OpenFence(s, sync, e).0;
    if FenceKey(sync, e).Some? {
      var c := if |t.fences| > |s.fences| then Some(t.fences[|s.fences|]) else None;
      assert t.fences == Look(s.fences, sync.key, s.tick, c);
    }
  }

  /** Opened once, a fence is found as it is when it is looked up again. */
  lemma FenceAgain(s: State, sync: Sync, e: Env)
    requires OpenFence(s, sync, e).1.Some?
    ensures var t := OpenFence(s, sync, e).0; OpenFence(t, sync, e).0 == t
  {
    var test := (c: Import) => c.key == sync.key;
    FirstFacts(s.fences, test);
    var t := OpenFence(s, sync, e).0;
    FirstFacts(t.fences, test);
    var i := if IndexOf(s.fences, sync.key).Some? then IndexOf(s.fences, sync.key).value else |s.fences|;
    FirstIs(t.fences, test, i);
    assert Touch(t.fences, i, t.tick) == t.fences;
  }

  /** Acquiring, and queueing the release after it: one look, however often the fence is asked for. */
  lemma PairDoes(s: State, img: Image, t: Import, e: Env)
    ensures var (u, ok) := Acquire(s, img, t, e);
            && Did(s, u, None, FenceKey(img.sync, e))
            && (ok ==> Did(s, QueueRelease(u, img, t, e), None, FenceKey(img.sync, e)))
  {
    OpenFenceDoes(s, img.sync, e);
    if img.sync.kind.FenceNt? && OpenFence(s, img.sync, e).1.Some? { FenceAgain(s, img.sync, e); }
  }

  lemma HandleDoes(s: State, img: Image, e: Env)
    ensures Did(s, ImportHandle(s, img, e).0, TextureKey(img), HandleKey(s, img, e, true, true))
    ensures Did(s, WriteHandle(s, img, e).0, TextureKey(img), HandleKey(s, img, e, true, e.drawOk))
  {
    OpenTextureDoes(s, img, e);
    var (o, t) := OpenTexture(s, img, e);
    if t.Some? {
      var (u, ok) := Acquire(o, img, t.value, e);
      PairDoes(o, img, t.value, e);
    }
  }

  /** Both caches aged to the tick the call ends with, and then looked up for at most one key each. */
  ghost predicate Done(s: State, ev: Event, t: State) {
    && t.tick == (if Ages(s, ev) then s.tick + 1 else s.tick)
    && Looked(Keep(s.textures, Young(t.tick)), LookOf(s, ev, false), t.tick, false, s.next, t.next, t.textures)
    && Looked(Keep(s.fences, Young(t.tick)), LookOf(s, ev, true), t.tick, true, s.next, t.next, t.fences)
  }

  lemma DidIsDone(s: State, ev: Event, t: State)
    requires Ages(s, ev) && Did(Age(s), t, LookOf(s, ev, false), LookOf(s, ev, true))
    ensures Done(s, ev, t)
  {
  }

  lemma LeftIsDone(s: State, ev: Event, t: State)
    requires Sound(s) && !Ages(s, ev) && Did(s, t, None, None)
    ensures Done(s, ev, t)
  {
    KeepAll(s.textures, Young(s.tick));
    KeepAll(s.fences, Young(s.tick));
  }

  /** Only a call that ages moves the tick, and by one; and no call but a clear does more than that. */
  lemma NextDoes(s: State, ev: Event)
    requires Sound(s) && !ev.EvClear?
    ensures Done(s, ev, Next(s, ev))
  {
    var t := Next(s, ev);
    if ev.EvFinish? { KeepAll(s.textures, (c: Import) => c.key != 0); }
    if Ages(s, ev) {
      HandleDoes(Age(s), ev.img, ev.env);
      DidIsDone(s, ev, t);
    } else {
      LeftIsDone(s, ev, t);
    }
  }

  /** So the stamp of a loan moves as the call's look says. */
  lemma NextStands(s: State, ev: Event, x: Loan, key: nat, at: Option<nat>)
    requires Sound(s) && !ev.EvClear? && Stands(CacheOf(s, x), x, key, at) && x.id < s.next
    ensures var t, uses := Next(s, ev), LookOf(s, ev, x.TheFence?) == Some(key);
            Stands(CacheOf(t, x), x, key, Stamped(Aged(at, t.tick), uses, t.tick)) && x.id < t.next
  {
    NextDoes(s, ev);
    var t := Next(s, ev);
    CallStands(CacheOf(s, x), LookOf(s, ev, x.TheFence?), t.tick, s.next, t.next, CacheOf(t, x), x, key, at);
  }

  /** So every call keeps both caches sound. */
  lemma NextKeeps(s: State, ev: Event)
    requires Sound(s) && EventOk(ev)
    ensures Sound(Next(s, ev)) && s.tick <= Next(s, ev).tick
  {
    if !ev.EvClear? {
      NextDoes(s, ev);
      var t := Next(s, ev);
      CallKeeps(s.textures, s.tick, LookOf(s, ev, false), t.tick, false, s.next, t.next, t.textures);
      CallKeeps(s.fences, s.tick, LookOf(s, ev, true), t.tick, true, s.next, t.next, t.fences);
    }
  }

  // ---- What a call queues ---------------------------------------------------------------------

  predicate Lends(r: Release, x: Loan) {
    match x
    case TheMutex(m) => r.km == Some(m)
    case TheFence(f) => r.fence == Some(f)
  }

  /** The loan's import is cached, last seen at this tick or later. */
  ghost predicate Since(cs: seq<Import>, x: Loan, since: nat) {
    exists i :: 0 <= i < |cs| && Is(cs[i], x) && cs[i].lastUsed >= since
  }

  /** All that this release borrows is cached, and was seen since it was queued. */
  ghost predicate Held(s: State, r: Release) {
    (r.km.Some? ==> Since(s.textures, TheMutex(r.km.value), r.at))
    && (r.fence.Some? ==> Since(s.fences, TheFence(r.fence.value), r.at))
  }

  /** Whatever was queued within 64 calls is. */
  ghost predicate Lent(s: State) {
    forall i :: 0 <= i < |s.pending| ==>
      s.pending[i].at <= s.tick && (s.tick - s.pending[i].at <= MAX_AGE ==> Held(s, s.pending[i]))
  }

  /** Nothing was queued, or one release, of what this call saw; or the queue was emptied. */
  ghost predicate Queues(s: State, t: State) {
    t.pending == [] || t.pending == s.pending
    || (|t.pending| > 0 && var r := t.pending[|t.pending| - 1];
        t.pending == s.pending + [r] && r.at == t.tick && Held(t, r))
  }

  lemma OpenedIsSeen(s: State, img: Image, e: Env)
    ensures var (t, r) := OpenTexture(s, img, e);
            t.pending == s.pending
            && (r.Some? && r.value.km.Some? ==> Since(t.textures, TheMutex(r.value.km.value), t.tick))
  {
    FirstFacts(s.textures, (c: Import) => c.key == img.key);
    var (t, r) := OpenTexture(s, img, e);
    if r.Some? {
      var i := if IndexOf(s.textures, img.key).Some? then IndexOf(s.textures, img.key).value else |s.textures|;
      assert t.textures[i] == r.value && r.value.lastUsed == t.tick;
    }
  }

  lemma FenceIsSeen(s: State, sync: Sync, e: Env)
    ensures var (t, r) := OpenFence(s, sync, e);
            t.pending == s.pending && t.textures == s.textures && t.tick == s.tick
            && (r.Some? ==> Since(t.fences, TheFence(r.value), t.tick))
  {
    FirstFacts(s.fences, (c: Import) => c.key == sync.key);
    var (t, r) := OpenFence(s, sync, e);
    if r.Some? {
      var i := if IndexOf(s.fences, sync.key).Some? then IndexOf(s.fences, sync.key).value else |s.fences|;
      assert t.fences[i].item == r.value && t.fences[i].lastUsed == t.tick;
    }
  }

  lemma PairQueues(s: State, img: Image, t: Import, e: Env)
    requires t.km.Some? ==> Since(s.textures, TheMutex(t.km.value), s.tick)
    ensures var u := Acquire(s, img, t, e).0;
            u.pending == s.pending && Queues(s, QueueRelease(u, img, t, e))
  {
    FenceIsSeen(s, img.sync, e);
    FenceIsSeen(Acquire(s, img, t, e).0, img.sync, e);
  }

  lemma HandleQueues(s: State, img: Image, e: Env)
    ensures Queues(s, ImportHandle(s, img, e).0) && Queues(s, WriteHandle(s, img, e).0)
  {
    OpenedIsSeen(s, img, e);
    var (o, t) := OpenTexture(s, img, e);
    if t.Some? { PairQueues(o, img, t.value, e); }
  }

  lemma LookHolds(cs: seq<Import>, k: nat, now: nat, made: Option<Import>, x: Loan, since: nat)
    requires Since(cs, x, since) && since <= now
    ensures Since(Look(cs, k, now, made), x, since)
  {
    FirstFacts(cs, (c: Import) => c.key == k);
    var i :| 0 <= i < |cs| && Is(cs[i], x) && cs[i].lastUsed >= since;
    var c := Look(cs, k, now, made)[i];
    assert Is(c, x) && c.lastUsed >= since;
  }

  /** A call within 64 of it drops no import seen since then. */
  lemma CallHolds(cs: seq<Import>, look: Option<nat>, now: nat, fence: bool, next: nat, more: nat, after: seq<Import>,
                  x: Loan, since: nat)
    requires Looked(Keep(cs, Young(now)), look, now, fence, next, more, after)
    requires Since(cs, x, since) && since <= now <= since + MAX_AGE
    ensures Since(after, x, since)
  {
    var aged := Keep(cs, Young(now));
    KeepIn(cs, Young(now));
    var i :| 0 <= i < |cs| && Is(cs[i], x) && cs[i].lastUsed >= since;
    assert cs[i] in aged;
    if look.Some? {
      var c :| after == Look(aged, look.value, now, c)
               && (c.Some? ==> Opened(c.value, look.value, now, fence, next, more));
      LookHolds(aged, look.value, now, c, x, since);
    }
  }

  lemma HeldOn(s: State, ev: Event, t: State, r: Release)
    requires Done(s, ev, t) && r.at <= s.tick && (s.tick - r.at <= MAX_AGE ==> Held(s, r))
    ensures t.tick - r.at <= MAX_AGE ==> Held(t, r)
  {
    if t.tick - r.at <= MAX_AGE {
      if r.km.Some? {
        CallHolds(s.textures, LookOf(s, ev, false), t.tick, false, s.next, t.next, t.textures,
                  TheMutex(r.km.value), r.at);
      }
      if r.fence.Some? {
        CallHolds(s.fences, LookOf(s, ev, true), t.tick, true, s.next, t.next, t.fences,
                  TheFence(r.fence.value), r.at);
      }
    }
  }

  lemma QueuedLent(s: State, ev: Event, t: State)
    requires Lent(s) && Done(s, ev, t) && Queues(s, t)
    ensures Lent(t)
  {
    forall i | 0 <= i < |t.pending|
      ensures t.pending[i].at <= t.tick && (t.tick - t.pending[i].at <= MAX_AGE ==> Held(t, t.pending[i]))
    {
      if i < |s.pending| {
        assert t.pending[i] == s.pending[i];
        HeldOn(s, ev, t, s.pending[i]);
      }
    }
  }

  lemma NextQueues(s: State, ev: Event)
    requires !ev.EvClear?
    ensures Queues(s, Next(s, ev))
  {
    if Ages(s, ev) { HandleQueues(Age(s), ev.img, ev.env); }
  }

  /** What each call queues, and that it loses no import a release queued within 64 calls borrows. */
  lemma NextLent(s: State, ev: Event)
    requires Sound(s) && Lent(s)
    ensures Lent(Next(s, ev))
  {
    if !ev.EvClear? {
      NextDoes(s, ev);
      NextQueues(s, ev);
      QueuedLent(s, ev, Next(s, ev));
    }
  }

  ghost predicate Owned(s: State) { Lone(s.textures, false, s.next) && Lone(s.fences, true, s.next) }

  lemma NextOwned(s: State, ev: Event)
    requires Sound(s) && Owned(s)
    ensures Owned(Next(s, ev))
  {
    if !ev.EvClear? {
      NextDoes(s, ev);
      var t := Next(s, ev);
      CallLone(s.textures, LookOf(s, ev, false), t.tick, false, s.next, t.next, t.textures);
      CallLone(s.fences, LookOf(s, ev, true), t.tick, true, s.next, t.next, t.fences);
    }
  }

  // ---- When a stamp lapses --------------------------------------------------------------------

  /** No call from a up to c uses the loan's key. */
  ghost predicate Quiet(uses: nat -> bool, a: nat, c: nat) { forall k: nat :: a <= k < c ==> !uses(k) }

  /** Calls a to c are more than 64, none before c uses the loan's key, and c is one of the first n. */
  ghost predicate Lapses(tick: nat -> nat, uses: nat -> bool, n: nat, a: nat, c: nat) {
    a <= c < n && tick(c + 1) - tick(a) > MAX_AGE && Quiet(uses, a, c)
  }

  ghost predicate LapsesBefore(tick: nat -> nat, uses: nat -> bool, n: nat) {
    exists a: nat, c: nat :: Lapses(tick, uses, n, a, c)
  }

  ghost predicate Grows(tick: nat -> nat, n: nat) { forall i: nat, j: nat :: i <= j <= n ==> tick(i) <= tick(j) }

  /** Call a - 1, or the start, is the last use of the loan's key before n. */
  ghost predicate LastUse(uses: nat -> bool, n: nat, a: nat) {
    a <= n && Quiet(uses, a, n) && (a > 0 ==> uses(a - 1))
  }

  lemma NoLapse(tick: nat -> nat, uses: nat -> bool, n: nat, a: nat)
    requires Grows(tick, n + 1) && LastUse(uses, n, a) && !LapsesBefore(tick, uses, n)
    requires tick(n + 1) - tick(a) <= MAX_AGE
    ensures !LapsesBefore(tick, uses, n + 1)
  {
    var m := n + 1;
    forall b: nat, c: nat ensures !Lapses(tick, uses, m, b, c) {
      if c < n {
        assert !Lapses(tick, uses, n, b, c);
      } else if b < a {
        assert uses(a - 1);
      }
    }
  }

  /** Call k moves the stamp. */
  predicate MovesAt(stamp: nat -> Option<nat>, tick: nat -> nat, uses: nat -> bool, k: nat) {
    stamp(k + 1) == Stamped(Aged(stamp(k), tick(k + 1)), uses(k), tick(k + 1))
  }

  ghost predicate Moves(stamp: nat -> Option<nat>, tick: nat -> nat, uses: nat -> bool, n: nat) {
    stamp(0) == Some(tick(0)) && forall k: nat :: k < n ==> MovesAt(stamp, tick, uses, k)
  }

  /** It is gone after n calls exactly when it has lapsed, and else is the tick of the last use. */
  lemma {:induction false} LapsedIff(stamp: nat -> Option<nat>, tick: nat -> nat, uses: nat -> bool, n: nat)
    returns (a: nat)
    requires Grows(tick, n) && Moves(stamp, tick, uses, n)
    ensures stamp(n).None? <==> LapsesBefore(tick, uses, n)
    ensures stamp(n).Some? ==> LastUse(uses, n, a) && stamp(n) == Some(tick(a))
  {
    if n == 0 { return 0; }
    var m := n - 1;
    a := LapsedIff(stamp, tick, uses, m);
    assert MovesAt(stamp, tick, uses, m);
    if stamp(m).None? {
      var b: nat, c: nat :| Lapses(tick, uses, m, b, c);
      assert Lapses(tick, uses, n, b, c);
    } else if tick(n) - tick(a) > MAX_AGE {
      assert Lapses(tick, uses, n, a, m);
    } else {
      NoLapse(tick, uses, m, a);
      if uses(m) { a := n; }
    }
  }

  // ---- Over whole runs ------------------------------------------------------------------------

  lemma {:induction false} RunSnoc(s: State, evs: seq<Event>, k: nat)
    requires k < |evs|
    ensures Run(s, evs[..k + 1]) == Next(Run(s, evs[..k]), evs[k])
    decreases |evs|
  {
    if k == 0 {
      assert evs[..1][1..] == [];
    } else {
      RunSnoc(Next(s, evs[0]), evs[1..], k - 1);
      assert evs[..k + 1][1..] == evs[1..][..k] && evs[..k][1..] == evs[1..][..k - 1];
    }
  }

  /** Over any run of keyed calls: unique keys, nothing unseen for more than 64 calls, every name given to
      one entry, and what every release queued within 64 calls borrows is cached. */
  lemma {:induction false} RunIsSound(s: State, evs: seq<Event>)
    requires Sound(s) && forall i :: 0 <= i < |evs| ==> EventOk(evs[i])
    ensures Sound(Run(s, evs)) && (Owned(s) && Lent(s) ==> Owned(Run(s, evs)) && Lent(Run(s, evs)))
    decreases |evs|
  {
    if evs != [] {
      NextKeeps(s, evs[0]);
      if Owned(s) && Lent(s) {
        NextOwned(s, evs[0]);
        NextLent(s, evs[0]);
      }
      RunIsSound(Next(s, evs[0]), evs[1..]);
    }
  }

  function TickAt(s: State, evs: seq<Event>, k: nat): nat { if k <= |evs| then Run(s, evs[..k]).tick else 0 }

  predicate UsesAt(s: State, evs: seq<Event>, x: Loan, key: nat, k: nat) {
    k < |evs| && LookOf(Run(s, evs[..k]), evs[k], x.TheFence?) == Some(key)
  }

  /** Somewhere more than 64 calls pass with none using the loan's key. */
  ghost predicate Expires(s: State, evs: seq<Event>, x: Loan, key: nat) {
    LapsesBefore((k: nat) => TickAt(s, evs, k), (k: nat) => UsesAt(s, evs, x, key, k), |evs|)
  }

  ghost predicate Calls(evs: seq<Event>) {
    forall i :: 0 <= i < |evs| ==> EventOk(evs[i]) && !evs[i].EvClear?
  }

  lemma {:induction false} TicksGrow(s: State, evs: seq<Event>, i: nat, j: nat)
    requires Sound(s) && Calls(evs) && i <= j <= |evs|
    ensures TickAt(s, evs, i) <= TickAt(s, evs, j)
    decreases j
  {
    if i < j {
      TicksGrow(s, evs, i, j - 1);
      RunIsSound(s, evs[..j - 1]);
      RunSnoc(s, evs, j - 1);
      NextKeeps(Run(s, evs[..j - 1]), evs[j - 1]);
    }
  }

  /** The loan's stamp after k calls. */
  function StampAt(s: State, evs: seq<Event>, x: Loan, key: nat, k: nat): Option<nat> {
    if k == 0 then Some(s.tick)
    else
      var now := TickAt(s, evs, k);
      Stamped(Aged(StampAt(s, evs, x, key, k - 1), now), UsesAt(s, evs, x, key, k - 1), now)
  }

  ghost predicate StandsAfter(s: State, evs: seq<Event>, x: Loan, key: nat, k: nat) {
    k <= |evs|
    && var t := Run(s, evs[..k]);
       Stands(CacheOf(t, x), x, key, StampAt(s, evs, x, key, k)) && x.id < t.next
  }

  lemma {:induction false} StandsFirst(s: State, evs: seq<Event>, x: Loan, key: nat)
    requires Stands(CacheOf(s, x), x, key, Some(s.tick)) && x.id < s.next
    ensures StandsAfter(s, evs, x, key, 0)
  {
    assert evs[..0] == [] && Run(s, evs[..0]) == s;
  }

  lemma {:induction false} StandsStep(s: State, evs: seq<Event>, x: Loan, key: nat, k: nat)
    requires k < |evs| && !evs[k].EvClear? && Sound(Run(s, evs[..k])) && StandsAfter(s, evs, x, key, k)
    ensures StandsAfter(s, evs, x, key, k + 1)
  {
    var u, t, at := Run(s, evs[..k]), Run(s, evs[..k + 1]), StampAt(s, evs, x, key, k);
    RunSnoc(s, evs, k);
    NextStands(u, evs[k], x, key, at);
    var uses := UsesAt(s, evs, x, key, k);
    assert uses == (LookOf(u, evs[k], x.TheFence?) == Some(key)) && TickAt(s, evs, k + 1) == t.tick;
    assert StampAt(s, evs, x, key, k + 1) == Stamped(Aged(at, t.tick), uses, t.tick);
  }

  lemma {:induction false} StandsAt(s: State, evs: seq<Event>, x: Loan, key: nat, k: nat)
    requires Sound(s) && Calls(evs) && k <= |evs| && Stands(CacheOf(s, x), x, key, Some(s.tick)) && x.id < s.next
    ensures StandsAfter(s, evs, x, key, k)
    decreases k
  {
    if k == 0 {
      StandsFirst(s, evs, x, key);
    } else {
      var m := k - 1;
      StandsAt(s, evs, x, key, m);
      RunIsSound(s, evs[..m]);
      StandsStep(s, evs, x, key, m);
    }
  }

  /** Over any calls but a clear, a loan just stamped has been dropped at the end exactly when more than
      64 calls passed somewhere with none using its key. */
  lemma {:induction false} DanglesIff(s: State, evs: seq<Event>, x: Loan, key: nat)
    requires Sound(s) && Calls(evs) && Stands(CacheOf(s, x), x, key, Some(s.tick)) && x.id < s.next
    ensures Gone(CacheOf(Run(s, evs), x), x) <==> Expires(s, evs, x, key)
  {
    var n := |evs|;
    var tick, uses := (k: nat) => TickAt(s, evs, k), (k: nat) => UsesAt(s, evs, x, key, k);
    var stamp := (k: nat) => StampAt(s, evs, x, key, k);
    forall k: nat | k < n ensures MovesAt(stamp, tick, uses, k) {
    }
    forall i: nat, j: nat | i <= j <= n ensures tick(i) <= tick(j) { TicksGrow(s, evs, i, j); }
    assert evs[..0] == [] && evs[..n] == evs;
    var a := LapsedIff(stamp, tick, uses, n);
    StandsAt(s, evs, x, key, n);
    assert StandsAfter(s, evs, x, key, n);
  }

  /** What a release queued by the latest call borrows is cached, stamped by that call. */
  lemma QueuedStands(s: State, i: nat, x: Loan) returns (key: nat)
    requires Sound(s) && Owned(s) && Lent(s)
    requires i < |s.pending| && s.pending[i].at == s.tick && Lends(s.pending[i], x)
    ensures Stands(CacheOf(s, x), x, key, Some(s.tick)) && x.id < s.next
  {
    var cs := CacheOf(s, x);
    assert Held(s, s.pending[i]) && Since(cs, x, s.tick);
    var k :| 0 <= k < |cs| && Is(cs[k], x) && cs[k].lastUsed >= s.tick;
    key := cs[k].key;
  }

  /** From a fresh provider, over any calls: what a release queued by the latest of them borrows is
      cached under some key, and over any more calls but a clear it is gone at the end exactly when more
      than 64 of these passed somewhere with none using that key. */
  lemma {:induction false} QueuedReleaseDanglesIff(before: seq<Event>, i: nat, after: seq<Event>, x: Loan)
    requires (forall k :: 0 <= k < |before| ==> EventOk(before[k])) && Calls(after)
    requires var s := Run(FRESH, before); i < |s.pending| && s.pending[i].at == s.tick && Lends(s.pending[i], x)
    ensures var s := Run(FRESH, before);
            exists key :: Stands(CacheOf(s, x), x, key, Some(s.tick))
                          && (Gone(CacheOf(Run(s, after), x), x) <==> Expires(s, after, x, key))
  {
    var s := Run(FRESH, before);
    RunIsSound(FRESH, before);
    var key := QueuedStands(s, i, x);
    DanglesIff(s, after, x, key);
  }

  /** From a fresh provider, over any calls, clears included: no release queued within 64 calls borrows a
      dropped import, so a finish within 64 calls of its write signals no dropped fence or mutex. */
  lemma {:induction false} PromptFinishDanglesNothing(evs: seq<Event>, i: nat, x: Loan)
    requires forall k :: 0 <= k < |evs| ==> EventOk(evs[k])
    requires var s := Run(FRESH, evs);
             i < |s.pending| && s.tick - s.pending[i].at <= MAX_AGE && Lends(s.pending[i], x)
    ensures !Gone(CacheOf(Run(FRESH, evs), x), x)
  {
    var s := Run(FRESH, evs);
    RunIsSound(FRESH, evs);
    assert Held(s, s.pending[i]) && Since(CacheOf(s, x), x, s.pending[i].at);
  }

  // ---- A run that does ------------------------------------------------------------------------

  const ALL_OK := Env(true, true, true, true, true, true, true, true, true, false, (i: nat) => true)
  const LOCKED := Image(NtHandle, 1, 1, true, Sync(KeyedMutex, 0, 0))
  const PIXELS := Image(Cpu, 0, 1, true, Sync(NoSync, 0, 0))

  function PixelWrites(n: nat): seq<Event> { seq(n, (i: nat) => EvWrite(PIXELS, ALL_OK)) }

  /** Writes to memory only age the caches. */
  lemma {:induction false} PixelWritesAge(s: State, n: nat)
    requires !s.lost && s.fences == []
    requires |s.textures| == 1 && s.textures[0].lastUsed <= s.tick <= s.textures[0].lastUsed + MAX_AGE
    ensures Run(s, PixelWrites(n))
            == s.(tick := s.tick + n,
                  textures := if s.tick + n - s.textures[0].lastUsed > MAX_AGE then [] else s.textures)
    decreases n
  {
    if n > 0 {
      PixelWritesAge(s, n - 1);
      var evs, m := PixelWrites(n), n - 1;
      assert evs[..m] == PixelWrites(m) && evs[..n] == evs;
      RunSnoc(s, evs, m);
      var t := Run(s, PixelWrites(m));
      assert Next(t, evs[m]) == Age(t);
      AgeOne(t);
    }
  }

  lemma AgeOne(s: State)
    requires s.fences == [] && |s.textures| <= 1
    ensures Age(s) == s.(tick := s.tick + 1,
                         textures := if s.textures != [] && s.tick + 1 - s.textures[0].lastUsed > MAX_AGE then []
                                     else s.textures)
  {
    var p := Young(s.tick + 1);
    if s.textures != [] {
      assert s.textures == [s.textures[0]] + [];
      CollectCons(s.textures[0], [], (c: Import) => if p(c) then [c] else []);
    }
  }

  const QUEUED := [Release(KeyedMutex, None, Some(1), 1)]

  lemma BeforeFinish()
    ensures Run(FRESH, [EvWrite(LOCKED, ALL_OK)] + PixelWrites(65))
            == FRESH.(tick := 66, next := 2, acquired := multiset{1}, pending := QUEUED)
  {
    var evs := [EvWrite(LOCKED, ALL_OK)] + PixelWrites(65);
    var w := Write(FRESH, LOCKED, ALL_OK).0;
    assert IndexOf([], 1).None?;
    assert w == FRESH.(tick := 1, next := 2, textures := [Import(1, 0, Some(1), 1)], acquired := multiset{1},
                       pending := QUEUED);
    PixelWritesAge(w, 65);
    assert evs[1..] == PixelWrites(65);
  }

  lemma FinishReleases(s: State)
    requires s.pending == QUEUED && s.textures == [] && !s.lost && !s.drain && s.released == multiset{}
    ensures Next(s, EvFinish(ALL_OK)).released == multiset{1} && Finish(s, ALL_OK).1
  {
    assert Signalled(QUEUED, 1, ALL_OK) == multiset{} && FirstFailure(QUEUED, 1, ALL_OK) == 1;
  }

  /** A keyed-mutex write, 65 writes to memory, a finish: it releases mutex 1, whose import the last
      write before it has dropped. */
  lemma LateFinishDangles()
    ensures var s := Run(FRESH, [EvWrite(LOCKED, ALL_OK)] + PixelWrites(65));
            var t := Next(s, EvFinish(ALL_OK));
            && Gone(s.textures, TheMutex(1)) && t.released == multiset{1} && Finish(s, ALL_OK).1
  {
    BeforeFinish();
    FinishReleases(Run(FRESH, [EvWrite(LOCKED, ALL_OK)] + PixelWrites(65)));
  }
}
