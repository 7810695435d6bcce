/**
 Seeing SR authenticate a panel between two reads of its display list, and asking the runtime for a
 claim sweep at most once per interval. Times are milliseconds of a clock that never runs backwards.
 */
module AuthWatch {
  import opened Common
  import opened Claims

  const GRACE_MS := 10000
  const MIN_INTERVAL_MS := 30000

  /** An unknown wanted EDID matches anything; twins are told apart by serial when both have one. */
  predicate SameEdid(d: SrDisplay, want: SrDisplay) {
    want.man == 0
    || (d.man == want.man && d.prod == want.prod
        && (want.edidSerial == 0 || d.edidSerial == 0 || d.edidSerial == want.edidSerial))
  }

  predicate HasEdidOnly(ds: seq<SrDisplay>) {
    exists i :: 0 <= i < |ds| && !ds[i].fpcVerified
  }

  predicate ListsEdidOnly(id: nat, ds: seq<SrDisplay>) {
    exists i :: 0 <= i < |ds| && !ds[i].fpcVerified && ds[i].displayId == id
  }

  predicate ListsVerified(id: nat, ds: seq<SrDisplay>) {
    exists i :: 0 <= i < |ds| && ds[i].fpcVerified && ds[i].displayId == id
  }

  /** `now` is a verified panel that `was` listed EDID_ONLY, and one of the two lists changed. */
  predicate Pairs(was: SrDisplay, now: SrDisplay, prev: seq<SrDisplay>, cur: seq<SrDisplay>) {
    now.fpcVerified && !was.fpcVerified
    && (was.displayId == now.displayId || SameEdid(now, was))
    && (!ListsVerified(now.displayId, prev) || !ListsEdidOnly(was.displayId, cur))
  }

  predicate Authenticated(prev: seq<SrDisplay>, cur: seq<SrDisplay>) {
    exists i, j :: 0 <= i < |cur| && 0 <= j < |prev| && Pairs(prev[j], cur[i], prev, cur)
  }

  datatype Watch = Watch(pending: seq<SrDisplay>, pendingMs: nat, askedMs: nat, asked: bool, held: bool)

  const FRESH := Watch([], 0, 0, false, false)

  /** One read of SR's list; None is a read SR did not answer. */
  datatype Read = Read(list: Option<seq<SrDisplay>>, now: nat)

  /** The unsigned 64-bit difference of two times: it wraps when the clock runs backwards. */
  function Elapsed(now: nat, since: nat): int {
    if now >= since then now - since else now - since + 0x1_0000_0000_0000_0000
  }

  function Note(w: Watch, ds: seq<SrDisplay>, now: nat): Watch {
    if HasEdidOnly(ds) then w.(pending := Upto(ds, MAX_SR_DISPLAYS), pendingMs := now)
    else if w.pending != [] && Elapsed(now, w.pendingMs) > GRACE_MS then w.(pending := [])
    else w
  }

  function Feed(w: Watch, r: Read): (Watch, bool) {
    if r.list.None? then (w, false) else
    var ds, now, w := r.list.value, r.now, w.(held := false);
    if w.pending != [] && Authenticated(w.pending, ds) then
      if !w.asked || Elapsed(now, w.askedMs) >= MIN_INTERVAL_MS then
        (Note(w.(asked := true, askedMs := now, pending := []), ds, now), true)
      else (w.(held := true, pendingMs := now), false)
    else (Note(w, ds, now), false)
  }

  function After(w: Watch, polls: seq<Read>): Watch
    decreases |polls|
  {
    if polls == [] then w else After(Feed(w, polls[0]).0, polls[1..])
  }

  /** The times at which the run asked for a sweep. */
  function Asks(w: Watch, polls: seq<Read>): seq<nat>
    decreases |polls|
  {
    if polls == [] then []
    else (if Feed(w, polls[0]).1 then [polls[0].now] else []) + Asks(Feed(w, polls[0]).0, polls[1..])
  }

  // ---- Over any run ---------------------------------------------------------------------------

  /** The clock never runs backwards, from the watch's own times on. */
  ghost predicate Timely(w: Watch, polls: seq<Read>) {
    (forall a, b :: 0 <= a < b < |polls| ==> polls[a].now <= polls[b].now)
    && forall k :: 0 <= k < |polls| ==> w.askedMs <= polls[k].now && w.pendingMs <= polls[k].now
  }

  ghost predicate Short(polls: seq<Read>) {
    forall k :: 0 <= k < |polls| && polls[k].list.Some? ==> |polls[k].list.value| <= MAX_SR_DISPLAYS
  }

  /** Any two of these times are at least the interval apart. */
  ghost predicate Spaced(t: seq<nat>) {
    forall a, b :: 0 <= a < b < |t| ==> t[b] - t[a] >= MIN_INTERVAL_MS
  }

  ghost predicate AllAfter(t: seq<nat>, from: nat) {
    forall a :: 0 <= a < |t| ==> t[a] - from >= MIN_INTERVAL_MS
  }

  /** Any two asks of a run are at least the interval apart, the last one before the run included. */
  lemma {:induction false} AsksAreSpaced(w: Watch, polls: seq<Read>)
    requires Timely(w, polls)
    ensures Spaced(Asks(w, polls)) && (w.asked ==> AllAfter(Asks(w, polls), w.askedMs))
    decreases |polls|
  {
    if polls != [] {
      AsksAreSpaced(Feed(w, polls[0]).0, polls[1..]);
    }
  }

  /** A list never authenticates against itself. */
  lemma NothingAuthenticatesItself(ds: seq<SrDisplay>)
    ensures !Authenticated(ds, ds)
  {
    forall i, j | 0 <= i < |ds| && 0 <= j < |ds| && ds[i].fpcVerified && !ds[j].fpcVerified
      ensures !Pairs(ds[j], ds[i], ds, ds)
    {
      assert ListsVerified(ds[i].displayId, ds) && ListsEdidOnly(ds[j].displayId, ds);
    }
  }

  /** Display i, behind the eight a watch keeps, is a verified panel that display j of those eight lists
      EDID_ONLY, and none of the eight is verified under its id. */
  predicate Hides(ds: seq<SrDisplay>, i: nat, j: nat) {
    && MAX_SR_DISPLAYS <= i < |ds| && j < MAX_SR_DISPLAYS && ds[i].fpcVerified && !ds[j].fpcVerified
    && (ds[j].displayId == ds[i].displayId || SameEdid(ds[i], ds[j]))
    && !ListsVerified(ds[i].displayId, Upto(ds, MAX_SR_DISPLAYS))
  }

  ghost predicate HidesAPanel(ds: seq<SrDisplay>) {
    exists i: nat, j: nat :: Hides(ds, i, j)
  }

  /** A kept list is authenticated by the whole one exactly when a panel hides behind the eight kept. */
  lemma {:induction false} KeptAuthenticatesIff(ds: seq<SrDisplay>)
    ensures Authenticated(Upto(ds, MAX_SR_DISPLAYS), ds) <==> HidesAPanel(ds)
  {
    var kept := Upto(ds, MAX_SR_DISPLAYS);
    forall i, j | 0 <= i < |ds| && 0 <= j < |kept| && Pairs(kept[j], ds[i], kept, ds) ensures Hides(ds, i, j) {
      assert ListsEdidOnly(kept[j].displayId, ds);
      if i < |kept| { assert ListsVerified(kept[i].displayId, kept); }
    }
    if i: nat, j: nat :| Hides(ds, i, j) {
      assert Pairs(kept[j], ds[i], kept, ds);
    }
  }

  /** Feeding one list, however often, to a watch that keeps it or nothing, never asks if no panel hides
      behind the eight kept. */
  lemma {:induction false} RefeedNeverAsks(w: Watch, ds: seq<SrDisplay>, polls: seq<Read>)
    requires !HidesAPanel(ds) && (w.pending == [] || w.pending == Upto(ds, MAX_SR_DISPLAYS))
    requires forall k :: 0 <= k < |polls| ==> polls[k].list == Some(ds)
    ensures Asks(w, polls) == []
    decreases |polls|
  {
    if polls != [] {
      KeptAuthenticatesIff(ds);
      RefeedNeverAsks(Feed(w, polls[0]).0, ds, polls[1..]);
    }
  }

  /** Some read comes when the watch may ask. */
  ghost predicate MayAsk(w: Watch, polls: seq<Read>) {
    exists k :: 0 <= k < |polls| && (!w.asked || polls[k].now - w.askedMs >= MIN_INTERVAL_MS)
  }

  /** If one does hide, feeding that list asks again at the first read that may. */
  lemma {:induction false} RefeedAsks(w: Watch, ds: seq<SrDisplay>, polls: seq<Read>)
    requires HidesAPanel(ds) && w.pending == Upto(ds, MAX_SR_DISPLAYS) && Timely(w, polls)
    requires forall k :: 0 <= k < |polls| ==> polls[k].list == Some(ds)
    ensures Asks(w, polls) != [] <==> MayAsk(w, polls)
    decreases |polls|
  {
    if polls != [] {
      KeptAuthenticatesIff(ds);
      var u, rest := Feed(w, polls[0]).0, polls[1..];
      if w.asked && polls[0].now - w.askedMs < MIN_INTERVAL_MS {
        RefeedAsks(u, ds, rest);
        assert forall k :: 0 <= k < |rest| ==> rest[k] == polls[k + 1];
        if k :| 0 <= k < |polls| && polls[k].now - w.askedMs >= MIN_INTERVAL_MS {
          assert rest[k - 1] == polls[k];
        }
      }
    }
  }

  /** After an ask on a list, feeding that list again asks again exactly when a panel hides behind the
      eight kept and a read comes at or past the interval; so it never does for eight displays or fewer. */
  lemma {:induction false} AskedThenRefedIff(w: Watch, r: Read, polls: seq<Read>)
    requires Feed(w, r).1 && Timely(Feed(w, r).0, polls)
    requires forall k :: 0 <= k < |polls| ==> polls[k].list == r.list
    ensures Asks(Feed(w, r).0, polls) != []
            <==> HidesAPanel(r.list.value) && exists k :: 0 <= k < |polls| && polls[k].now - r.now >= MIN_INTERVAL_MS
    ensures |r.list.value| <= MAX_SR_DISPLAYS ==> Asks(Feed(w, r).0, polls) == []
  {
    var u, ds := Feed(w, r).0, r.list.value;
    if HidesAPanel(ds) {
      var i: nat, j: nat :| Hides(ds, i, j);
      assert HasEdidOnly(ds);
      RefeedAsks(u, ds, polls);
    } else {
      RefeedNeverAsks(u, ds, polls);
    }
  }

  lemma {:induction false} AsksCons(w: Watch, r: Read, rest: seq<Read>)
    ensures Asks(w, [r] + rest) == (if Feed(w, r).1 then [r.now] else []) + Asks(Feed(w, r).0, rest)
    ensures After(w, [r] + rest) == After(Feed(w, r).0, rest)
  {
    assert ([r] + rest)[0] == r && ([r] + rest)[1..] == rest;
  }

  /** Seen again too soon: held, and the grace period starts over. */
  lemma FeedHolds(w: Watch, r: Read)
    requires w.pending != [] && r.list.Some? && Authenticated(w.pending, r.list.value)
    requires w.asked && w.askedMs <= r.now && r.now - w.askedMs < MIN_INTERVAL_MS
    ensures Feed(w, r) == (w.(held := true, pendingMs := r.now), false)
  {
  }

  lemma FeedAsks(w: Watch, r: Read)
    requires w.pending != [] && r.list.Some? && Authenticated(w.pending, r.list.value)
    requires w.asked ==> w.askedMs <= r.now && r.now - w.askedMs >= MIN_INTERVAL_MS
    ensures Feed(w, r).1
  {
  }

  lemma {:induction false} LastAsks(w: Watch, r: Read)
    requires w.pending != [] && r.list.Some? && Authenticated(w.pending, r.list.value)
    requires w.asked ==> w.askedMs <= r.now && r.now - w.askedMs >= MIN_INTERVAL_MS
    ensures Asks(w, [r]) == [r.now]
  {
    FeedAsks(w, r);
    assert [r] == [r] + [];
    AsksCons(w, r, []);
  }

  /** An authentication that keeps being seen inside the interval is held, and the first read at or
      past the interval asks. */
  lemma {:induction false} HeldIsAnswered(w: Watch, polls: seq<Read>, last: Read)
    requires w.pending != [] && w.asked && Timely(w, polls + [last])
    requires forall k :: 0 <= k < |polls| ==>
               && polls[k].list.Some? && Authenticated(w.pending, polls[k].list.value)
               && polls[k].now - w.askedMs < MIN_INTERVAL_MS
    requires last.list.Some? && Authenticated(w.pending, last.list.value)
    requires last.now - w.askedMs >= MIN_INTERVAL_MS
    ensures Asks(w, polls + [last]) == [last.now]
    ensures polls != [] ==> After(w, polls).held && After(w, polls).pending == w.pending
    decreases |polls|
  {
    if polls == [] {
      assert [] + [last] == [last];
      LastAsks(w, last);
    } else {
      var r, rest := polls[0], polls[1..];
      var u := w.(held := true, pendingMs := r.now);
      assert polls == [r] + rest && polls + [last] == [r] + (rest + [last]);
      assert (polls + [last])[0] == r;
      FeedHolds(w, r);
      AsksCons(w, r, rest + [last]);
      AsksCons(w, r, rest);
      assert forall k :: 0 <= k < |rest + [last]| ==> (rest + [last])[k] == (polls + [last])[k + 1];
      assert Timely(u, rest + [last]);
      HeldIsAnswered(u, rest, last);
      assert rest == [] ==> After(u, rest) == u;
    }
  }

  /** A panel that reads as gone, then as verified, within the grace period still asks. */
  lemma {:induction false} GraceBridgesTheGap(w: Watch, gap: seq<Read>, last: Read)
    requires w.pending != [] && (w.asked ==> last.now - w.askedMs >= MIN_INTERVAL_MS)
    requires Timely(w, gap + [last])
    requires forall k :: 0 <= k < |gap| && gap[k].list.Some? ==>
               && !Authenticated(w.pending, gap[k].list.value) && !HasEdidOnly(gap[k].list.value)
               && gap[k].now - w.pendingMs <= GRACE_MS
    requires last.list.Some? && Authenticated(w.pending, last.list.value)
    ensures Asks(w, gap + [last]) == [last.now]
    decreases |gap|
  {
    if gap == [] {
      assert (gap + [last])[0] == last && (gap + [last])[1..] == [];
      assert Asks(Feed(w, last).0, []) == [];
    } else {
      assert (gap + [last])[0] == gap[0] && (gap + [last])[1..] == gap[1..] + [last];
      GraceBridgesTheGap(Feed(w, gap[0]).0, gap[1..], last);
    }
  }

  /** Reads that neither authenticate this list nor list anything EDID_ONLY. */
  ghost predicate Uneventful(pending: seq<SrDisplay>, polls: seq<Read>) {
    forall k :: 0 <= k < |polls| && polls[k].list.Some? ==>
      !Authenticated(pending, polls[k].list.value)
      && forall d :: d in polls[k].list.value ==> d.fpcVerified
  }

  /** No answered read of these came more than ten seconds after `since`. */
  ghost predicate WithinGrace(since: nat, polls: seq<Read>) {
    forall k :: 0 <= k < |polls| && polls[k].list.Some? ==> polls[k].now - since <= 10000
  }

  lemma UneventfulFeed(w: Watch, r: Read)
    requires w.pending != [] && Uneventful(w.pending, [r]) && w.pendingMs <= r.now
    ensures !Feed(w, r).1
    ensures Feed(w, r).0 == w.(held := if r.list.None? then w.held else false,
                               pending := if r.list.Some? && r.now - w.pendingMs > 10000 then [] else w.pending)
  {
    assert [r][0] == r;
  }

  /** Once nothing is pending, reads without EDID_ONLY displays leave it so. */
  lemma {:induction false} NothingPends(w: Watch, polls: seq<Read>)
    requires w.pending == []
    requires forall k :: 0 <= k < |polls| && polls[k].list.Some? ==>
               forall d :: d in polls[k].list.value ==> d.fpcVerified
    ensures After(w, polls).pending == [] && Asks(w, polls) == []
    decreases |polls|
  {
    if polls != [] {
      NothingPends(Feed(w, polls[0]).0, polls[1..]);
    }
  }

  /** A pending list is dropped exactly when a read that lists nothing EDID_ONLY comes more than ten
      seconds after it was last seen; until then it stands as it is. */
  lemma {:induction false} DroppedIff(w: Watch, polls: seq<Read>)
    requires w.pending != [] && Timely(w, polls) && Uneventful(w.pending, polls)
    ensures After(w, polls).pending == if WithinGrace(w.pendingMs, polls) then w.pending else []
    ensures Asks(w, polls) == []
    ensures WithinGrace(w.pendingMs, polls) ==>
              After(w, polls).pendingMs == w.pendingMs && After(w, polls).askedMs == w.askedMs
              && After(w, polls).asked == w.asked
    decreases |polls|
  {
    if polls != [] {
      UneventfulFeed(w, polls[0]);
      var u, rest := Feed(w, polls[0]).0, polls[1..];
      assert forall k :: 0 <= k < |rest| ==> rest[k] == polls[k + 1];
      assert forall k :: 1 <= k < |polls| ==> polls[k] == rest[k - 1];
      if u.pending == [] { NothingPends(u, rest); } else { DroppedIff(u, rest); }
    }
  }

  /** A read that lists something EDID_ONLY is noted, the first eight of it, unless the panel it
      authenticates is being held. */
  lemma ReadIsNoted(w: Watch, r: Read)
    requires r.list.Some? && (exists d :: d in r.list.value && !d.fpcVerified) && w.askedMs <= r.now
    requires w.pending != [] && Authenticated(w.pending, r.list.value) && w.asked ==> r.now - w.askedMs >= 30000
    ensures var u := Feed(w, r).0;
            u.pending == Upto(r.list.value, 8) && u.pendingMs == r.now && !u.held
            && (Feed(w, r).1 || (u.asked == w.asked && u.askedMs == w.askedMs))
  {
    var d :| d in r.list.value && !d.fpcVerified;
    assert HasEdidOnly(r.list.value);
  }

  lemma {:induction false} AsksSnoc(w: Watch, polls: seq<Read>, last: Read)
    ensures Asks(w, polls + [last]) == Asks(w, polls) + (if Feed(After(w, polls), last).1 then [last.now] else [])
    decreases |polls|
  {
    var all := polls + [last];
    if polls == [] {
      assert all[0] == last && all[1..] == [];
    } else {
      assert all[0] == polls[0] && all[1..] == polls[1..] + [last];
      AsksSnoc(Feed(w, polls[0]).0, polls[1..], last);
    }
  }

  /** Exactly when a panel seen EDID_ONLY, then gone, then seen verified is asked about: the list it was
      on was not dropped on the way, the new one authenticates it, and no ask came within the interval. */
  lemma {:induction false} AskedAcrossTheGapIff(w: Watch, gap: seq<Read>, last: Read)
    requires w.pending != [] && Timely(w, gap + [last]) && Timely(w, gap) && Uneventful(w.pending, gap)
    ensures Asks(w, gap + [last])
            == if && WithinGrace(w.pendingMs, gap) && last.list.Some? && Authenticated(w.pending, last.list.value)
                  && (w.asked ==> last.now - w.askedMs >= 30000) then [last.now] else []
  {
    DroppedIff(w, gap);
    AsksSnoc(w, gap, last);
    assert (gap + [last])[|gap|] == last;
  }

  /** Seen authenticated: a display verified now that the earlier list had unverified, by id or by EDID,
      unless that list had it verified too and this one has the other unverified still. */
  lemma AuthenticatedIff(prev: seq<SrDisplay>, cur: seq<SrDisplay>)
    ensures Authenticated(prev, cur) <==> exists i, j ::
              && 0 <= i < |cur| && 0 <= j < |prev| && cur[i].fpcVerified && !prev[j].fpcVerified
              && (|| prev[j].displayId == cur[i].displayId
                  || prev[j].man == 0
                  || (&& prev[j].man == cur[i].man && prev[j].prod == cur[i].prod
                      && (prev[j].edidSerial == 0 || cur[i].edidSerial == 0
                          || prev[j].edidSerial == cur[i].edidSerial)))
              && (|| (forall k :: 0 <= k < |prev| && prev[k].fpcVerified ==> prev[k].displayId != cur[i].displayId)
                  || (forall k :: 0 <= k < |cur| && !cur[k].fpcVerified ==> cur[k].displayId != prev[j].displayId))
  {
    forall i, j | 0 <= i < |cur| && 0 <= j < |prev|
      ensures Pairs(prev[j], cur[i], prev, cur) <==>
              && cur[i].fpcVerified && !prev[j].fpcVerified
              && (|| prev[j].displayId == cur[i].displayId
                  || prev[j].man == 0
                  || (&& prev[j].man == cur[i].man && prev[j].prod == cur[i].prod
                      && (prev[j].edidSerial == 0 || cur[i].edidSerial == 0
                          || prev[j].edidSerial == cur[i].edidSerial)))
              && (|| (forall k :: 0 <= k < |prev| && prev[k].fpcVerified ==> prev[k].displayId != cur[i].displayId)
                  || (forall k :: 0 <= k < |cur| && !cur[k].fpcVerified ==> cur[k].displayId != prev[j].displayId))
    {
    }
  }

  /** Times are unsigned 64-bit: their difference wraps. */
  lemma ElapsedWraps(now: nat, since: nat)
    requires now < 0x1_0000_0000_0000_0000 && since < 0x1_0000_0000_0000_0000
    ensures Elapsed(now, since) == (now - since) % 0x1_0000_0000_0000_0000
  {
  }

  /** A clock set back, by less than all but the interval, reads as a long time: the next sighting asks. */
  lemma BackwardsClockAsks(w: Watch, r: Read)
    requires w.pending != [] && r.list.Some? && Authenticated(w.pending, r.list.value)
    requires w.asked && r.now < w.askedMs <= r.now + 0x1_0000_0000_0000_0000 - 30000
    ensures Feed(w, r).1
  {
  }

  /** What is pending is a list that was fed, and it holds an EDID_ONLY display. */
  ghost predicate Pending(w: Watch, fed: seq<Read>) {
    w.pending != [] ==> HasEdidOnly(w.pending) && exists k :: 0 <= k < |fed| && fed[k].list == Some(w.pending)
  }

  lemma FeedKeepsPending(w: Watch, fed: seq<Read>, r: Read)
    requires Pending(w, fed) && Short([r])
    ensures Pending(Feed(w, r).0, fed + [r])
  {
    var u := Feed(w, r).0;
    assert [r][0] == r;
    assert (fed + [r])[|fed|] == r;
    if u.pending == w.pending && w.pending != [] {
      var k :| 0 <= k < |fed| && fed[k].list == Some(w.pending);
      assert (fed + [r])[k] == fed[k];
    }
  }

  lemma {:induction false} PendingOverRuns(w: Watch, fed: seq<Read>, polls: seq<Read>)
    requires Pending(w, fed) && Short(polls)
    ensures Pending(After(w, polls), fed + polls)
    decreases |polls|
  {
    if polls == [] {
      assert fed + polls == fed;
    } else {
      FeedKeepsPending(w, fed, polls[0]);
      PendingOverRuns(Feed(w, polls[0]).0, fed + [polls[0]], polls[1..]);
      assert fed + [polls[0]] + polls[1..] == fed + polls;
    }
  }

  /** Every ask has a cause: an earlier read listed EDID_ONLY the panel this one lists verified. */
  lemma {:induction false} AskHasACause(polls: seq<Read>, r: Read)
    requires Short(polls) && Feed(After(FRESH, polls), r).1
    ensures exists k :: 0 <= k < |polls| && polls[k].list.Some? && HasEdidOnly(polls[k].list.value)
                        && Authenticated(polls[k].list.value, r.list.value)
  {
    PendingOverRuns(FRESH, [], polls);
    assert [] + polls == polls;
  }

  // ---- The watch itself -----------------------------------------------------------------------

  function EdidOnlyCount(ds: seq<SrDisplay>): nat {
    if ds == [] then 0 else
    EdidOnlyCount(ds[..|ds| - 1]) + (if ds[|ds| - 1].fpcVerified then 0 else 1)
  }

  method CountEdidOnly(ds: seq<SrDisplay>) returns (n: nat)
    ensures n == EdidOnlyCount(ds) && (n > 0 <==> HasEdidOnly(ds))
  {
    n := 0;
    for i := 0 to |ds|
      invariant n == EdidOnlyCount(ds[..i]) && (n > 0 <==> exists k :: 0 <= k < i && !ds[k].fpcVerified)
    {
      assert ds[..i + 1][..i] == ds[..i];
      if !ds[i].fpcVerified { n := n + 1; }
    }
    assert ds[..|ds|] == ds;
  }

  method ScanEdidOnly(id: nat, ds: seq<SrDisplay>) returns (r: bool)
    ensures r == ListsEdidOnly(id, ds)
  {
    for i := 0 to |ds|
      invariant forall k :: 0 <= k < i ==> !(!ds[k].fpcVerified && ds[k].displayId == id)
    {
      if !ds[i].fpcVerified && ds[i].displayId == id { return true; }
    }
    return false;
  }

  method ScanVerified(id: nat, ds: seq<SrDisplay>) returns (r: bool)
    ensures r == ListsVerified(id, ds)
  {
    r := false;
    for j := 0 to |ds|
      invariant r == exists k :: 0 <= k < j && ds[k].fpcVerified && ds[k].displayId == id
    {
      r := r || (ds[j].fpcVerified && ds[j].displayId == id);
    }
  }

  /** leia_win_sr_authenticated. */
  method CheckAuthenticated(prev: seq<SrDisplay>, cur: seq<SrDisplay>) returns (r: bool)
    ensures r == Authenticated(prev, cur)
  {
    for i := 0 to |cur|
      invariant forall x, j :: 0 <= x < i && 0 <= j < |prev| ==> !Pairs(prev[j], cur[x], prev, cur)
    {
      if cur[i].fpcVerified {
        var wasVerified := ScanVerified(cur[i].displayId, prev);
        for j := 0 to |prev|
          invariant forall y :: 0 <= y < j ==> !Pairs(prev[y], cur[i], prev, cur)
        {
          if !prev[j].fpcVerified {
            var samePanel := prev[j].displayId == cur[i].displayId || SameEdid(cur[i], prev[j]);
            var listed := ScanEdidOnly(prev[j].displayId, cur);
            if samePanel && (!wasVerified || !listed) {
              assert Pairs(prev[j], cur[i], prev, cur);
              return true;
            }
          }
        }
      }
    }
    return false;
  }

  class Watcher {
    var w: Watch

    constructor ()
      ensures w == FRESH
    {
      w := FRESH;
    }

    /** leia_win_sr_auth_watch_feed. */
    method FeedRead(r: Read) returns (due: bool)
      modifies this
      ensures w == Feed(old(w), r).0 && due == Feed(old(w), r).1
    {
      if r.list.None? { return false; }
      var ds := r.list.value;
      due := false;
      w := w.(held := false);
      if |w.pending| > 0 {
        var seen := CheckAuthenticated(w.pending, ds);
        if seen {
          if !w.asked || Elapsed(r.now, w.askedMs) >= MIN_INTERVAL_MS {
            due := true;
            w := w.(asked := true, askedMs := r.now, pending := []);
          } else {
            w := w.(held := true, pendingMs := r.now);
            return false;
          }
        }
      }
      var edidOnly := CountEdidOnly(ds);
      if edidOnly > 0 {
        w := w.(pending := Upto(ds, MAX_SR_DISPLAYS), pendingMs := r.now);
      } else if |w.pending| > 0 && Elapsed(r.now, w.pendingMs) > GRACE_MS {
        w := w.(pending := []);
      }
    }
  }
}
