/**
 The Vulkan strip-framebuffer cache: one view and framebuffer per target image, grown to a high-water
 mark, evicted first-in first-out, and flushed when the compositor recreates its targets. The device
 records which handles are live, so a leak or a double destroy would show.
 */
module StripCache {
  import opened Common

  const MAX_ENTRIES := 8

  /** VK_NULL_HANDLE. */
  const NULL := 0

  /** What a live view or framebuffer was made from. `epoch` numbers the compositor's target sets. */
  datatype ViewInfo = ViewInfo(image: nat, epoch: nat)
  datatype FbInfo = FbInfo(view: nat, w: nat, h: nat)

  /** The Vulkan device: live handles, the next fresh one, the current target set, and whether a
      handle that is not live was ever destroyed. */
  datatype Device = Device(views: map<nat, ViewInfo>, fbs: map<nat, FbInfo>, next: nat, epoch: nat, fault: bool)

  datatype Entry = Entry(image: nat, view: nat, fb: nat, w: nat, h: nat)

  datatype State = State(entries: seq<Entry>, generation: nat, dev: Device)

  /** Whether the two creates of a build succeed. */
  datatype Env = Env(viewOk: bool, fbOk: bool)

  // ---- The device -----------------------------------------------------------------------------

  function DestroyFb(d: Device, fb: nat): Device {
    if fb == NULL then d
    else if fb in d.fbs then d.(fbs := d.fbs - {fb})
    else d.(fault := true)
  }

  function DestroyView(d: Device, view: nat): Device {
    if view == NULL then d
    else if view in d.views then d.(views := d.views - {view})
    else d.(fault := true)
  }

  function DestroyEntry(d: Device, e: Entry): Device {
    DestroyView(DestroyFb(d, e.fb), e.view)
  }

  /** A view, then a framebuffer over it; a failed framebuffer takes its view with it. */
  function Build(d: Device, image: nat, w: nat, h: nat, e: Env): (Device, Option<Entry>) {
    if !e.viewOk then (d, None) else
    var view := d.next + 1;
    var d := d.(views := d.views[view := ViewInfo(image, d.epoch)], next := view);
    if !e.fbOk then (DestroyView(d, view), None) else
    var fb := d.next + 1;
    (d.(fbs := d.fbs[fb := FbInfo(view, w, h)], next := fb), Some(Entry(image, view, fb, w, h)))
  }

  // ---- The specification of each operation ----------------------------------------------------

  function Max(a: nat, b: nat): nat { if a > b then a else b }

  function IndexOf(entries: seq<Entry>, image: nat): Option<nat> {
    First(entries, (e: Entry) => e.image == image)
  }

  predicate Covers(e: Entry, w: nat, h: nat) { e.w >= w && e.h >= h }

  /** Replace an entry that is too small by one at the high-water mark of both sizes. */
  function Grow(s: State, i: nat, w: nat, h: nat, env: Env): (State, nat)
    requires i < |s.entries|
  {
    var e := s.entries[i];
    match Build(DestroyEntry(s.dev, e), e.image, Max(w, e.w), Max(h, e.h), env)
    case (d, None) => (s.(entries := s.entries[i := e.(view := NULL, fb := NULL)], dev := d), NULL)
    case (d, Some(n)) => (s.(entries := s.entries[i := n], dev := d), n.fb)
  }

  /** Make room for one more by dropping the entry that was inserted first. */
  function Evict(s: State): State {
    if |s.entries| < MAX_ENTRIES then s
    else s.(entries := s.entries[1..], dev := DestroyEntry(s.dev, s.entries[0]))
  }

  function Insert(s: State, image: nat, w: nat, h: nat, env: Env): (State, nat) {
    var s := Evict(s);
    match Build(s.dev, image, w, h, env)
    case (d, None) => (s.(dev := d), NULL)
    case (d, Some(n)) => (s.(entries := s.entries + [n], dev := d), n.fb)
  }

  function Get(s: State, image: nat, w: nat, h: nat, env: Env): (State, nat) {
    match IndexOf(s.entries, image)
    case None => Insert(s, image, w, h, env)
    case Some(i) =>
      if i >= |s.entries| then (s, NULL)
      else if Covers(s.entries[i], w, h) then (s, s.entries[i].fb)
      else Grow(s, i, w, h, env)
  }

  function DestroyAll(d: Device, entries: seq<Entry>): Device
    decreases |entries|
  {
    if entries == [] then d else DestroyAll(DestroyEntry(d, entries[0]), entries[1..])
  }

  function Notify(s: State, generation: nat): State {
    if generation == s.generation then s
    else State([], generation, DestroyAll(s.dev, s.entries))
  }

  /** The compositor drains the device and recreates its targets: every older image is gone, and its
      handle may come back for a new one. */
  function Recreate(s: State): State {
    s.(dev := s.dev.(epoch := s.dev.epoch + 1))
  }

  function Release(s: State): State {
    s.(entries := [], dev := DestroyAll(s.dev, s.entries))
  }

  // ---- What every run keeps -------------------------------------------------------------------

  /** The entry's handles are both null, or live and made for its image at its size. */
  ghost predicate EntryOk(d: Device, e: Entry) {
    (e.fb == NULL && e.view == NULL)
    || (e.fb != NULL && e.view != NULL && e.fb in d.fbs && e.view in d.views
        && d.fbs[e.fb] == FbInfo(e.view, e.w, e.h) && d.views[e.view].image == e.image)
  }

  ghost predicate Apart(a: Entry, b: Entry) {
    a.image != b.image && (a.fb != NULL ==> a.fb != b.fb) && (a.view != NULL ==> a.view != b.view)
  }

  ghost predicate AllOk(d: Device, entries: seq<Entry>) {
    forall i :: 0 <= i < |entries| ==> EntryOk(d, entries[i])
  }

  /** Distinct images, and no handle in two entries. */
  ghost predicate Distinct(entries: seq<Entry>) {
    forall i, j :: 0 <= i < j < |entries| ==> Apart(entries[i], entries[j])
  }

  ghost predicate DeviceOk(d: Device) {
    && !d.fault
    && (forall x :: x in d.fbs ==> NULL < x <= d.next)
    && (forall x :: x in d.views ==> NULL < x <= d.next)
  }

  /** At most eight entries of distinct images, whose handles are exactly the live ones. */
  ghost predicate Sound(s: State) {
    && |s.entries| <= MAX_ENTRIES
    && DeviceOk(s.dev)
    && AllOk(s.dev, s.entries) && Distinct(s.entries)
    && OwnsFbs(s.entries, s.dev.fbs.Keys) && OwnsViews(s.entries, s.dev.views.Keys)
  }

  lemma BuildKeeps(d: Device, image: nat, w: nat, h: nat, env: Env)
    requires DeviceOk(d)
    ensures var (t, r) := Build(d, image, w, h, env);
            && DeviceOk(t) && t.epoch == d.epoch && t.next >= d.next
            && (forall x :: x in d.fbs ==> x in t.fbs && t.fbs[x] == d.fbs[x])
            && (forall x :: x in d.views ==> x in t.views && t.views[x] == d.views[x])
            && match r
               case None => t.fbs == d.fbs && t.views == d.views
               case Some(e) =>
                 && e.image == image && e.w == w && e.h == h && EntryOk(t, e) && e.fb > d.next && e.view > d.next
                 && t.fbs.Keys == d.fbs.Keys + {e.fb} && t.views.Keys == d.views.Keys + {e.view}
                 && t.views[e.view].epoch == d.epoch
  {
    var view := d.next + 1;
    var made := d.(views := d.views[view := ViewInfo(image, d.epoch)], next := view);
    assert made.views - {view} == d.views;
  }

  /** Destroying what is not live is a fault; what is live goes, and nothing else. */
  lemma DestroyIff(d: Device, handle: nat)
    ensures DestroyFb(d, handle).fault <==> d.fault || (handle != NULL && handle !in d.fbs)
    ensures DestroyView(d, handle).fault <==> d.fault || (handle != NULL && handle !in d.views)
    ensures handle != NULL ==>
              DestroyFb(d, handle).fbs == d.fbs - {handle} && DestroyView(d, handle).views == d.views - {handle}
    ensures DestroyFb(d, handle).views == d.views && DestroyView(d, handle).fbs == d.fbs
  {
    if handle !in d.fbs { assert d.fbs - {handle} == d.fbs; }
    if handle !in d.views { assert d.views - {handle} == d.views; }
  }

  /** Dropping one entry of a sound cache destroys exactly its own live handles. */
  lemma DropKeeps(s: State, i: nat)
    requires Sound(s) && i < |s.entries|
    ensures var d := DestroyEntry(s.dev, s.entries[i]);
            && DeviceOk(d) && d.epoch == s.dev.epoch && d.next == s.dev.next
            && d.fbs == s.dev.fbs - {s.entries[i].fb} && d.views == s.dev.views - {s.entries[i].view}
  {
    var e := s.entries[i];
    assert NULL !in s.dev.fbs && NULL !in s.dev.views;
    assert s.dev.fbs - {NULL} == s.dev.fbs && s.dev.views - {NULL} == s.dev.views;
  }

  /** What a non-null answer is: live, over the requested image, covering the requested size. */
  ghost predicate Answers(d: Device, fb: nat, image: nat, w: nat, h: nat) {
    fb in d.fbs && d.fbs[fb].w >= w && d.fbs[fb].h >= h
    && d.fbs[fb].view in d.views && d.views[d.fbs[fb].view].image == image
  }

  function Without(entries: seq<Entry>, i: nat): (r: seq<Entry>)
    requires i < |entries|
    ensures |r| == |entries| - 1 && forall k :: 0 <= k < |r| ==> r[k] == entries[if k < i then k else k + 1]
  {
    entries[..i] + entries[i + 1..]
  }

  function With(entries: seq<Entry>, i: nat, e: Entry): (r: seq<Entry>)
    requires i <= |entries|
    ensures |r| == |entries| + 1 && r[i] == e
            && forall k :: 0 <= k < |entries| ==> r[if k < i then k else k + 1] == entries[k]
  {
    entries[..i] + [e] + entries[i..]
  }

  /** Each live handle has its entry. */
  ghost predicate OwnsFbs(entries: seq<Entry>, live: set<nat>) {
    forall x :: x in live ==> exists i :: 0 <= i < |entries| && entries[i].fb == x
  }

  ghost predicate OwnsViews(entries: seq<Entry>, live: set<nat>) {
    forall x :: x in live ==> exists i :: 0 <= i < |entries| && entries[i].view == x
  }

  lemma WithoutOwns(entries: seq<Entry>, i: nat, fbs: set<nat>, views: set<nat>)
    requires i < |entries| && OwnsFbs(entries, fbs) && OwnsViews(entries, views)
    ensures OwnsFbs(Without(entries, i), fbs - {entries[i].fb})
    ensures OwnsViews(Without(entries, i), views - {entries[i].view})
  {
    var r := Without(entries, i);
    forall x | x in fbs - {entries[i].fb} ensures exists k :: 0 <= k < |r| && r[k].fb == x {
      var k :| 0 <= k < |entries| && entries[k].fb == x;
      assert r[if k < i then k else k - 1] == entries[k];
    }
    forall x | x in views - {entries[i].view} ensures exists k :: 0 <= k < |r| && r[k].view == x {
      var k :| 0 <= k < |entries| && entries[k].view == x;
      assert r[if k < i then k else k - 1] == entries[k];
    }
  }

  lemma WithoutIsOk(d: Device, entries: seq<Entry>, i: nat)
    requires i < |entries| && Distinct(entries) && AllOk(d, entries)
    ensures AllOk(DestroyEntry(d, entries[i]), Without(entries, i))
  {
    var r := Without(entries, i);
    forall k | 0 <= k < |r| ensures EntryOk(DestroyEntry(d, entries[i]), r[k]) {
      var o := if k < i then k else k + 1;
      assert EntryOk(d, entries[o]) && EntryOk(d, entries[i]);
      assert Apart(entries[if o < i then o else i], entries[if o < i then i else o]);
    }
  }

  /** Taking one entry out, its handles destroyed, leaves a sound cache. */
  lemma RemoveKeeps(s: State, i: nat)
    requires Sound(s) && i < |s.entries|
    ensures Sound(s.(entries := Without(s.entries, i), dev := DestroyEntry(s.dev, s.entries[i])))
  {
    var e, d := s.entries[i], DestroyEntry(s.dev, s.entries[i]);
    DropKeeps(s, i);
    WithoutOwns(s.entries, i, s.dev.fbs.Keys, s.dev.views.Keys);
    assert d.fbs.Keys == s.dev.fbs.Keys - {e.fb} && d.views.Keys == s.dev.views.Keys - {e.view};
    WithoutIsOk(s.dev, s.entries, i);
  }

  /** The device grew: what was live is live unchanged. */
  ghost predicate Extends(d: Device, t: Device) {
    (forall x :: x in d.fbs ==> x in t.fbs && t.fbs[x] == d.fbs[x])
    && forall x :: x in d.views ==> x in t.views && t.views[x] == d.views[x]
  }

  /** The entry's handles are null or newer than every handle of the device. */
  ghost predicate FreshFor(e: Entry, d: Device) {
    (e.fb == NULL || e.fb > d.next) && (e.view == NULL || e.view > d.next)
  }

  lemma WithIsDistinct(d: Device, entries: seq<Entry>, i: nat, e: Entry)
    requires i <= |entries| && Distinct(entries) && AllOk(d, entries) && DeviceOk(d) && FreshFor(e, d)
    requires forall k :: 0 <= k < |entries| ==> entries[k].image != e.image
    ensures Distinct(With(entries, i, e))
  {
    var r := With(entries, i, e);
    forall k | 0 <= k < |entries| ensures Apart(entries[k], e) && Apart(e, entries[k]) {
      assert EntryOk(d, entries[k]);
    }
    forall j, k | 0 <= j < k < |r| ensures Apart(r[j], r[k]) {
      var a, b := if j < i then j else j - 1, if k < i then k else k - 1;
      assert j != i ==> r[j] == entries[a];
      assert k != i ==> r[k] == entries[b];
    }
  }

  lemma WithIsOk(d: Device, t: Device, entries: seq<Entry>, i: nat, e: Entry)
    requires i <= |entries| && AllOk(d, entries) && Extends(d, t) && EntryOk(t, e)
    ensures AllOk(t, With(entries, i, e))
  {
    var r := With(entries, i, e);
    forall k | 0 <= k < |r| ensures EntryOk(t, r[k]) {
      if k != i {
        assert r[k] == entries[if k < i then k else k - 1] && EntryOk(d, r[k]);
      }
    }
  }

  /** Putting in an entry of a new image, with fresh handles or with none, leaves a sound cache. */
  lemma PutKeeps(s: State, i: nat, e: Entry, d: Device)
    requires Sound(s) && |s.entries| < MAX_ENTRIES && i <= |s.entries| && DeviceOk(d)
    requires forall k :: 0 <= k < |s.entries| ==> s.entries[k].image != e.image
    requires Extends(s.dev, d) && FreshFor(e, s.dev) && EntryOk(d, e)
    requires d.fbs.Keys == s.dev.fbs.Keys + {e.fb} || d.fbs.Keys == s.dev.fbs.Keys
    requires d.views.Keys == s.dev.views.Keys + {e.view} || d.views.Keys == s.dev.views.Keys
    ensures Sound(s.(entries := With(s.entries, i, e), dev := d))
  {
    WithIsDistinct(s.dev, s.entries, i, e);
    WithIsOk(s.dev, d, s.entries, i, e);
  }

  lemma GrowKeeps(s: State, i: nat, w: nat, h: nat, env: Env)
    requires Sound(s) && i < |s.entries|
    ensures var (t, fb) := Grow(s, i, w, h, env);
            Sound(t) && (fb != NULL ==> Answers(t.dev, fb, s.entries[i].image, w, h))
  {
    var e := s.entries[i];
    RemoveKeeps(s, i);
    DropKeeps(s, i);
    var u := s.(entries := Without(s.entries, i), dev := DestroyEntry(s.dev, e));
    BuildKeeps(u.dev, e.image, Max(w, e.w), Max(h, e.h), env);
    forall k | 0 <= k < |u.entries| ensures u.entries[k].image != e.image {
      var o := if k < i then k else k + 1;
      assert Apart(s.entries[if o < i then o else i], s.entries[if o < i then i else o]);
    }
    var (d, r) := Build(u.dev, e.image, Max(w, e.w), Max(h, e.h), env);
    var n := if r.Some? then r.value else e.(view := NULL, fb := NULL);
    PutKeeps(u, i, n, d);
    assert With(u.entries, i, n) == s.entries[i := n];
  }

  lemma EvictKeeps(s: State)
    requires Sound(s)
    ensures Sound(Evict(s)) && |Evict(s).entries| < MAX_ENTRIES && Evict(s).dev.epoch == s.dev.epoch
    ensures forall j :: 0 <= j < |Evict(s).entries| ==> Evict(s).entries[j] in s.entries
  {
    if |s.entries| == MAX_ENTRIES {
      RemoveKeeps(s, 0);
      DropKeeps(s, 0);
      assert Without(s.entries, 0) == s.entries[1..];
    }
  }

  lemma AppendKeeps(s: State, image: nat, w: nat, h: nat, env: Env)
    requires Sound(s) && |s.entries| < MAX_ENTRIES
    requires forall j :: 0 <= j < |s.entries| ==> s.entries[j].image != image
    ensures var (d, r) := Build(s.dev, image, w, h, env);
            match r
            case None => Sound(s.(dev := d))
            case Some(n) => Sound(s.(entries := s.entries + [n], dev := d)) && Answers(d, n.fb, image, w, h)
  {
    BuildKeeps(s.dev, image, w, h, env);
    var (d, r) := Build(s.dev, image, w, h, env);
    if r.Some? {
      PutKeeps(s, |s.entries|, r.value, d);
      assert With(s.entries, |s.entries|, r.value) == s.entries + [r.value];
    }
  }

  /** A lookup, whatever fails in it, keeps the cache sound, and answers only with what was asked. */
  lemma GetKeeps(s: State, image: nat, w: nat, h: nat, env: Env)
    requires Sound(s)
    ensures var (t, fb) := Get(s, image, w, h, env);
            Sound(t) && t.generation == s.generation && (fb != NULL ==> Answers(t.dev, fb, image, w, h))
  {
    FirstFacts(s.entries, (e: Entry) => e.image == image);
    match IndexOf(s.entries, image)
    case None =>
      EvictKeeps(s);
      AppendKeeps(Evict(s), image, w, h, env);
    case Some(i) =>
      assert EntryOk(s.dev, s.entries[i]);
      if !Covers(s.entries[i], w, h) {
        GrowKeeps(s, i, w, h, env);
      }
  }

  /** Flushing a sound cache destroys every handle once, and leaves nothing live. */
  lemma {:induction false} FlushKeeps(s: State)
    requires Sound(s)
    ensures var d := DestroyAll(s.dev, s.entries);
            DeviceOk(d) && d.fbs == map[] && d.views == map[] && d.epoch == s.dev.epoch
    decreases |s.entries|
  {
    if s.entries == [] {
      assert forall x :: x !in s.dev.fbs && x !in s.dev.views;
    } else {
      RemoveKeeps(s, 0);
      DropKeeps(s, 0);
      assert Without(s.entries, 0) == s.entries[1..];
      FlushKeeps(s.(entries := s.entries[1..], dev := DestroyEntry(s.dev, s.entries[0])));
    }
  }

  // ---- Which of the three a lookup is ---------------------------------------------------------

  /** The image's entry is as large as asked for: the lookup answers with it and changes nothing. */
  lemma HitAnswers(s: State, i: nat, image: nat, w: nat, h: nat, env: Env)
    requires Sound(s) && i < |s.entries| && s.entries[i].image == image
    requires s.entries[i].w >= w && s.entries[i].h >= h
    ensures Get(s, image, w, h, env) == (s, s.entries[i].fb)
  {
    FirstFacts(s.entries, (e: Entry) => e.image == image);
    assert forall j :: 0 <= j < |s.entries| && j != i ==> s.entries[j].image != image;
  }

  /** It is too small: it is made anew in its place, as large in each direction as it was or is asked to
      be; when a create fails the entry keeps its size and has no handles. */
  lemma TooSmallGrows(s: State, i: nat, image: nat, w: nat, h: nat, env: Env)
    requires Sound(s) && i < |s.entries| && s.entries[i].image == image
    requires s.entries[i].w < w || s.entries[i].h < h
    ensures var (t, fb) := Get(s, image, w, h, env);
      var was := s.entries[i];
      && |t.entries| == |s.entries| && (forall j :: 0 <= j < |s.entries| && j != i ==> t.entries[j] == s.entries[j])
      && var e := t.entries[i];
         && e.image == image && e.fb == fb
         && if env.viewOk && env.fbOk then
              e.w == (if was.w < w then w else was.w) && e.h == (if was.h < h then h else was.h) && fb != NULL
            else e == Entry(image, NULL, NULL, was.w, was.h)
  {
    FirstFacts(s.entries, (e: Entry) => e.image == image);
    assert forall j :: 0 <= j < |s.entries| && j != i ==> s.entries[j].image != image;
    BuiltIff(DestroyEntry(s.dev, s.entries[i]), image, Max(w, s.entries[i].w), Max(h, s.entries[i].h), env);
  }

  /** It is not cached: it enters last, exactly as large as asked for, if both creates succeed. */
  lemma MissEnters(s: State, image: nat, w: nat, h: nat, env: Env)
    requires Sound(s) && forall i :: 0 <= i < |s.entries| ==> s.entries[i].image != image
    ensures var (t, fb) := Get(s, image, w, h, env);
      var kept := if |s.entries| == 8 then s.entries[1..] else s.entries;
      if env.viewOk && env.fbOk then
        && |t.entries| == |kept| + 1 && t.entries[..|kept|] == kept && fb != NULL
        && var e := t.entries[|kept|]; e.image == image && e.w == w && e.h == h && e.fb == fb
      else t.entries == kept && fb == NULL
  {
    FirstFacts(s.entries, (e: Entry) => e.image == image);
    BuiltIff(Evict(s).dev, image, w, h, env);
  }

  lemma BuiltIff(d: Device, image: nat, w: nat, h: nat, env: Env)
    ensures var r := Build(d, image, w, h, env).1;
      if env.viewOk && env.fbOk then
        r.Some? && r.value.image == image && r.value.w == w && r.value.h == h && r.value.fb != NULL
      else r.None?
  {
  }

  /** A notification leaves its generation behind, and flushes exactly when that is another one. */
  lemma NotifyIs(s: State, generation: nat)
    requires Sound(s)
    ensures var t := Notify(s, generation);
      && t.generation == generation
      && if generation == s.generation then t == s
         else t.entries == [] && t.dev.fbs == map[] && t.dev.views == map[] && !t.dev.fault
  {
    FlushKeeps(s);
  }

  /** A release leaves no entry and nothing live. */
  lemma ReleaseLeavesNothing(s: State)
    requires Sound(s)
    ensures var t := Release(s);
      t.entries == [] && t.dev.fbs == map[] && t.dev.views == map[] && !t.dev.fault && t.generation == s.generation
  {
    FlushKeeps(s);
  }

  // ---- Recreated targets ----------------------------------------------------------------------

  /** No live view looks at an image of an older target set. */
  ghost predicate Current(s: State) {
    forall x :: x in s.dev.views ==> s.dev.views[x].epoch == s.dev.epoch
  }

  datatype Event =
    | EvGet(image: nat, w: nat, h: nat, env: Env)
    | EvTargets(generation: nat)

  /** A lookup, or the compositor recreating its targets and then notifying. */
  function Next(s: State, ev: Event): State {
    match ev
    case EvGet(image, w, h, env) => Get(s, image, w, h, env).0
    case EvTargets(g) => Notify(Recreate(s), g)
  }

  function Run(s: State, evs: seq<Event>): State
    decreases |evs|
  {
    if evs == [] then s else Run(Next(s, evs[0]), evs[1..])
  }

  /** Every recreation of the run is notified with a generation not flushed for yet. */
  ghost predicate Notified(s: State, evs: seq<Event>)
    decreases |evs|
  {
    evs == [] || ((evs[0].EvTargets? ==> evs[0].generation != s.generation) && Notified(Next(s, evs[0]), evs[1..]))
  }

  lemma BuildIsCurrent(d: Device, image: nat, w: nat, h: nat, env: Env)
    requires DeviceOk(d) && forall x :: x in d.views ==> d.views[x].epoch == d.epoch
    ensures var t := Build(d, image, w, h, env).0;
            t.epoch == d.epoch && forall x :: x in t.views ==> t.views[x].epoch == t.epoch
  {
    BuildKeeps(d, image, w, h, env);
  }

  lemma GetIsCurrent(s: State, image: nat, w: nat, h: nat, env: Env)
    requires Sound(s) && Current(s)
    ensures Current(Get(s, image, w, h, env).0)
  {
    FirstFacts(s.entries, (e: Entry) => e.image == image);
    match IndexOf(s.entries, image)
    case None =>
      EvictKeeps(s);
      BuildIsCurrent(Evict(s).dev, image, w, h, env);
    case Some(i) =>
      if !Covers(s.entries[i], w, h) {
        DropKeeps(s, i);
        var e := s.entries[i];
        BuildIsCurrent(DestroyEntry(s.dev, e), e.image, Max(w, e.w), Max(h, e.h), env);
      }
  }

  /** Over any run the cache stays sound; and if all recreations of the run are notified with a new
      generation it never holds a view of a destroyed image, nor, then, does any answer refer to one. */
  lemma {:induction false} RunIsSound(s: State, evs: seq<Event>)
    requires Sound(s)
    ensures Sound(Run(s, evs)) && (Current(s) && Notified(s, evs) ==> Current(Run(s, evs)))
    decreases |evs|
  {
    if evs != [] {
      match evs[0] {
        case EvGet(image, w, h, env) =>
          GetKeeps(s, image, w, h, env);
          if Current(s) { GetIsCurrent(s, image, w, h, env); }
        case EvTargets(g) =>
          FlushKeeps(Recreate(s));
      }
      RunIsSound(Next(s, evs[0]), evs[1..]);
    }
  }

  /** A recreation leaves no stale view exactly when its generation is new or nothing was cached. */
  lemma RecreationIsCleanIff(s: State, generation: nat)
    requires Sound(s) && Current(s)
    ensures Current(Notify(Recreate(s), generation)) <==> generation != s.generation || s.dev.views == map[]
  {
    if generation != s.generation {
      FlushKeeps(Recreate(s));
    } else if s.dev.views != map[] {
      var x :| x in s.dev.views;
    }
  }

  // ---- When a lookup answers null -------------------------------------------------------------

  /** Entry i is for this image and lost its handles when it last failed to grow. */
  predicate DeadAt(s: State, i: nat, image: nat) {
    i < |s.entries| && s.entries[i].image == image && s.entries[i].fb == NULL
  }

  ghost predicate Dead(s: State, image: nat) { exists i: nat :: DeadAt(s, i, image) }

  predicate CreatesOk(env: Env) { env.viewOk && env.fbOk }

  /** The image is cached, too small for this request. */
  predicate GrowsAt(s: State, i: nat, image: nat, w: nat, h: nat) {
    i < |s.entries| && s.entries[i].image == image && !Covers(s.entries[i], w, h)
  }

  ghost predicate Uncached(s: State, image: nat) {
    forall i :: 0 <= i < |s.entries| ==> s.entries[i].image != image
  }

  /** A lookup answers null exactly when it needs a create that fails, or when an entry of the image
      covers the size asked for and has lost its handles: then it creates nothing and keeps on failing
      where a create would succeed. */
  lemma AnswersNullIff(s: State, image: nat, w: nat, h: nat, env: Env)
    requires Sound(s)
    ensures Get(s, image, w, h, env).1 == NULL
            <==> (exists i: nat :: DeadAt(s, i, image) && Covers(s.entries[i], w, h))
                 || (!CreatesOk(env) && forall i :: 0 <= i < |s.entries| && s.entries[i].image == image ==>
                                          !Covers(s.entries[i], w, h))
  {
    FirstFacts(s.entries, (e: Entry) => e.image == image);
    match IndexOf(s.entries, image)
    case None =>
    case Some(i) =>
      forall j: nat | j < |s.entries| && s.entries[j].image == image ensures j == i {
      }
      var e := s.entries[i];
      if Covers(e, w, h) && e.fb == NULL { assert DeadAt(s, i, image); }
  }

  // ---- When an image answers null although creates succeed ------------------------------------

  /** A request too large for the image's entry failed to grow it. */
  ghost predicate FailsToGrow(s: State, ev: Event, image: nat) {
    ev.EvGet? && ev.image == image && !CreatesOk(ev.env) && exists i: nat :: GrowsAt(s, i, image, ev.w, ev.h)
  }

  /** What ends that: a larger request that grows, the eviction of the image, or a flush. */
  ghost predicate Revives(s: State, ev: Event, image: nat) {
    match ev
    case EvGet(other, w, h, env) =>
      if other == image then CreatesOk(env) && exists i: nat :: GrowsAt(s, i, image, w, h)
      else Uncached(s, other) && |s.entries| == MAX_ENTRIES && s.entries[0].image == image
    case EvTargets(g) => g != s.generation
  }

  lemma DeadGrow(s: State, i: nat, w: nat, h: nat, env: Env, image: nat)
    requires Sound(s) && i < |s.entries| && !Covers(s.entries[i], w, h)
    ensures var t := Grow(s, i, w, h, env).0;
            Dead(t, image) <==> if s.entries[i].image == image then !CreatesOk(env) else Dead(s, image)
  {
    var e, t := s.entries[i], Grow(s, i, w, h, env).0;
    assert forall j :: 0 <= j < |s.entries| && j != i ==> t.entries[j] == s.entries[j];
    forall j: nat | j < |s.entries| && s.entries[j].image == e.image ensures j == i {
    }
    if e.image == image {
      if !CreatesOk(env) { assert DeadAt(t, i, image); }
    } else {
      forall j: nat ensures DeadAt(t, j, image) <==> DeadAt(s, j, image) {
      }
    }
  }

  lemma DeadEvict(s: State, image: nat)
    requires Sound(s)
    ensures var t := Evict(s);
            Dead(t, image) <==> Dead(s, image) && !(|s.entries| == MAX_ENTRIES && s.entries[0].image == image)
  {
    var t := Evict(s);
    if |s.entries| == MAX_ENTRIES {
      forall j | 0 < j < |s.entries| ensures s.entries[j].image != s.entries[0].image {
        assert Apart(s.entries[0], s.entries[j]);
      }
      forall j: nat ensures DeadAt(t, j, image) <==> DeadAt(s, j + 1, image) {
      }
      if j: nat :| DeadAt(s, j, image) && s.entries[0].image != image { assert DeadAt(t, j - 1, image); }
    } else {
      assert t == s;
    }
  }

  lemma DeadAppend(s: State, other: nat, w: nat, h: nat, env: Env, image: nat)
    requires |s.entries| < MAX_ENTRIES
    ensures Dead(Insert(s, other, w, h, env).0, image) <==> Dead(s, image)
  {
    var t := Insert(s, other, w, h, env).0;
    assert s.entries <= t.entries && |t.entries| <= |s.entries| + 1;
    forall j: nat ensures DeadAt(t, j, image) <==> DeadAt(s, j, image) {
      if j < |s.entries| { assert t.entries[j] == s.entries[j]; }
    }
  }

  lemma DeadInsert(s: State, other: nat, w: nat, h: nat, env: Env, image: nat)
    requires Sound(s)
    ensures var t := Insert(s, other, w, h, env).0;
            Dead(t, image) <==> Dead(s, image) && !(|s.entries| == MAX_ENTRIES && s.entries[0].image == image)
  {
    DeadEvict(s, image);
    DeadAppend(Evict(s), other, w, h, env, image);
    assert Insert(s, other, w, h, env) == Insert(Evict(s), other, w, h, env);
  }

  lemma DeadStep(s: State, ev: Event, image: nat)
    requires Sound(s)
    ensures Dead(Next(s, ev), image) <==> FailsToGrow(s, ev, image) || (Dead(s, image) && !Revives(s, ev, image))
  {
    match ev
    case EvTargets(g) =>
      forall i: nat ensures g == s.generation ==> (DeadAt(Next(s, ev), i, image) <==> DeadAt(s, i, image)) {
      }
    case EvGet(other, w, h, env) =>
      FirstFacts(s.entries, (e: Entry) => e.image == other);
      match IndexOf(s.entries, other) {
        case None => DeadInsert(s, other, w, h, env, image);
        case Some(i) =>
          forall j: nat | j < |s.entries| && s.entries[j].image == other ensures j == i {
          }
          if !Covers(s.entries[i], w, h) {
            DeadGrow(s, i, w, h, env, image);
            assert GrowsAt(s, i, other, w, h);
          }
      }
  }

  lemma {:induction false} RunSnoc(s: State, evs: seq<Event>, k: nat)
    requires k < |evs|
    ensures Run(s, evs[..k + 1]) == Next(Run(s, evs[..k]), evs[k])
    decreases |evs|
  {
    if k == 0 {
      assert evs[..1][1..] == [];
    } else {
      RunSnoc(Next(s, evs[0]), evs[1..], k - 1);
      assert evs[..k + 1][1..] == evs[1..][..k] && evs[..k][1..] == evs[1..][..k - 1];
    }
  }

  ghost predicate FailsToGrowAt(s: State, evs: seq<Event>, k: nat, image: nat) {
    k < |evs| && FailsToGrow(Run(s, evs[..k]), evs[k], image)
  }

  ghost predicate RevivesAt(s: State, evs: seq<Event>, k: nat, image: nat) {
    k < |evs| && Revives(Run(s, evs[..k]), evs[k], image)
  }

  /** Event k failed to grow the image's entry and none since grew it, evicted it or flushed the cache. */
  ghost predicate LastFailed(s: State, evs: seq<Event>, k: nat, image: nat) {
    FailsToGrowAt(s, evs, k, image) && forall j: nat :: k < j < |evs| ==> !RevivesAt(s, evs, j, image)
  }

  ghost predicate DeadAfter(s: State, evs: seq<Event>, k: nat, image: nat) {
    k <= |evs| && Dead(Run(s, evs[..k]), image)
  }

  lemma DeadAfterStep(s: State, evs: seq<Event>, k: nat, image: nat)
    requires Sound(s) && k < |evs|
    ensures DeadAfter(s, evs, k + 1, image)
            <==> FailsToGrowAt(s, evs, k, image) || (DeadAfter(s, evs, k, image) && !RevivesAt(s, evs, k, image))
  {
    RunSnoc(s, evs, k);
    RunIsSound(s, evs[..k]);
    DeadStep(Run(s, evs[..k]), evs[k], image);
  }

  /** Over any run: the image's entry has lost its handles at the end exactly when some request of the
      run failed to grow it and nothing since revived it. */
  lemma {:induction false} DeadIff(s: State, evs: seq<Event>, image: nat)
    requires Sound(s) && !Dead(s, image)
    ensures Dead(Run(s, evs), image) <==> exists k: nat :: LastFailed(s, evs, k, image)
  {
    var dead := (k: nat) => DeadAfter(s, evs, k, image);
    var fails, revives := (k: nat) => FailsToGrowAt(s, evs, k, image), (k: nat) => RevivesAt(s, evs, k, image);
    assert evs[..0] == [] && evs[..|evs|] == evs;
    forall k: nat | k < |evs| ensures dead(k + 1) <==> fails(k) || (dead(k) && !revives(k)) {
      DeadAfterStep(s, evs, k, image);
    }
    StandsIff(dead, fails, revives, |evs|);
    forall k: nat ensures RaisedAt(fails, revives, |evs|, k) <==> LastFailed(s, evs, k, image) {
      if RaisedAt(fails, revives, |evs|, k) {
        forall j: nat | k < j < |evs| ensures !RevivesAt(s, evs, j, image) { assert !revives(j); }
      }
    }
  }

  // ---- The display processor's own code -------------------------------------------------------

  const NO_ENTRY := Entry(0, NULL, NULL, 0, 0)

  class Cache {
    const slots: array<Entry>
    var count: nat
    var generation: nat
    var dev: Device

    ghost predicate Valid()
      reads this, slots
    {
      slots.Length == MAX_ENTRIES && count <= MAX_ENTRIES
    }

    ghost function View(): State
      reads this, slots
      requires Valid()
    {
      State(slots[..count], generation, dev)
    }

    constructor (generation: nat)
      ensures Valid() && fresh(slots) && View() == State([], generation, Device(map[], map[], 0, 0, false))
      ensures Sound(View())
    {
      slots := new Entry[MAX_ENTRIES](_ => NO_ENTRY);
      count, dev := 0, Device(map[], map[], 0, 0, false);
      this.generation := generation;
    }

    method Find(image: nat) returns (i: nat)
      requires Valid()
      ensures i <= count
      ensures IndexOf(View().entries, image) == if i < count then Some(i) else None
    {
      ghost var p := (e: Entry) => e.image == image;
      i := 0;
      while i < count
        invariant 0 <= i <= count
        invariant forall k :: 0 <= k < i ==> slots[k].image != image
      {
        if slots[i].image == image {
          FirstIs(View().entries, p, i);
          return;
        }
        i := i + 1;
      }
      FirstNone(View().entries, p);
    }

    method BuildEntry(image: nat, w: nat, h: nat, env: Env) returns (r: Option<Entry>)
      requires Valid()
      modifies this`dev
      ensures dev == Build(old(dev), image, w, h, env).0 && r == Build(old(dev), image, w, h, env).1
    {
      if !env.viewOk { return None; }
      var view := dev.next + 1;
      dev := dev.(views := dev.views[view := ViewInfo(image, dev.epoch)], next := view);
      if !env.fbOk {
        dev := DestroyView(dev, view);
        return None;
      }
      var fb := dev.next + 1;
      dev := dev.(fbs := dev.fbs[fb := FbInfo(view, w, h)], next := fb);
      return Some(Entry(image, view, fb, w, h));
    }

    method GrowAt(i: nat, w: nat, h: nat, env: Env) returns (fb: nat)
      requires Valid() && i < count
      modifies this`dev, slots
      ensures Valid() && View() == Grow(old(View()), i, w, h, env).0 && fb == Grow(old(View()), i, w, h, env).1
    {
      var e := slots[i];
      var allocW := if w > e.w then w else e.w;
      var allocH := if h > e.h then h else e.h;
      dev := DestroyFb(dev, e.fb);
      dev := DestroyView(dev, e.view);
      var r := BuildEntry(e.image, allocW, allocH, env);
      if r.None? {
        slots[i] := e.(view := NULL, fb := NULL);
        return NULL;
      }
      slots[i] := r.value;
      return r.value.fb;
    }

    /** The eviction: destroy entry 0 and shift the others down. */
    method EvictOldest()
      requires Valid()
      modifies this`dev, this`count, slots
      ensures Valid() && count < MAX_ENTRIES && View() == Evict(old(View()))
    {
      if count < MAX_ENTRIES { return; }
      ghost var before := slots[..count];
      dev := DestroyFb(dev, slots[0].fb);
      dev := DestroyView(dev, slots[0].view);
      ghost var d := dev;
      var i := 1;
      while i < count
        invariant 1 <= i <= count == MAX_ENTRIES && dev == d
        invariant forall k :: 0 <= k < i - 1 ==> slots[k] == before[k + 1]
        invariant forall k :: i <= k < count ==> slots[k] == before[k]
      {
        slots[i - 1] := slots[i];
        i := i + 1;
      }
      count := count - 1;
      assert slots[..count] == before[1..];
    }

    method Add(image: nat, w: nat, h: nat, env: Env) returns (fb: nat)
      requires Valid()
      modifies this`dev, this`count, slots
      ensures Valid() && View() == Insert(old(View()), image, w, h, env).0
      ensures fb == Insert(old(View()), image, w, h, env).1
    {
      EvictOldest();
      ghost var kept := slots[..count];
      var r := BuildEntry(image, w, h, env);
      if r.None? { return NULL; }
      slots[count] := r.value;
      count := count + 1;
      assert slots[..count] == kept + [r.value];
      return r.value.fb;
    }

    /** ck_get_strip_fb. */
    method GetStripFb(image: nat, w: nat, h: nat, env: Env) returns (fb: nat)
      requires Valid() && Sound(View())
      modifies this`dev, this`count, slots
      ensures Valid() && View() == Get(old(View()), image, w, h, env).0 && fb == Get(old(View()), image, w, h, env).1
      ensures Sound(View()) && (fb != NULL ==> Answers(dev, fb, image, w, h))
    {
      GetKeeps(View(), image, w, h, env);
      fb := Lookup(image, w, h, env);
    }

    method Lookup(image: nat, w: nat, h: nat, env: Env) returns (fb: nat)
      requires Valid()
      modifies this`dev, this`count, slots
      ensures Valid() && View() == Get(old(View()), image, w, h, env).0 && fb == Get(old(View()), image, w, h, env).1
    {
      var i := Find(image);
      if i < count {
        if slots[i].w >= w && slots[i].h >= h { return slots[i].fb; }
        fb := GrowAt(i, w, h, env);
      } else {
        fb := Add(image, w, h, env);
      }
    }

    method DestroyEntries()
      requires Valid()
      modifies this`dev, this`count
      ensures Valid() && View() == State([], old(generation), DestroyAll(old(dev), old(slots[..count])))
    {
      ghost var all, d := slots[..count], dev;
      var i := 0;
      while i < count
        invariant 0 <= i <= count && count == old(count) && slots[..count] == all
        invariant DestroyAll(dev, all[i..]) == DestroyAll(d, all)
      {
        assert all[i..][0] == slots[i] && all[i..][1..] == all[i + 1..];
        dev := DestroyFb(dev, slots[i].fb);
        dev := DestroyView(dev, slots[i].view);
        i := i + 1;
      }
      count := 0;
    }

    /** leia_dp_notify_target_recreated. */
    method NotifyTargets(gen: nat)
      requires Valid()
      modifies this
      ensures Valid() && View() == Notify(old(View()), gen)
    {
      if gen == generation { return; }
      generation := gen;
      DestroyEntries();
    }

    /** The strip part of ck_release_resources. */
    method ReleaseAll()
      requires Valid()
      modifies this
      ensures Valid() && View() == Release(old(View()))
      ensures old(Sound(View())) ==> dev.fbs == map[] && dev.views == map[] && !dev.fault
    {
      if Sound(View()) { FlushKeeps(View()); }
      DestroyEntries();
    }
  }
}
