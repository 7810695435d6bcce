/**
 Spans without a tracked user, read off the tracker's found and lost events. Times are in
 microseconds; the events are sorted by time, as the reader leaves them.
 */
module TraceSpans {
  import opened Common

  datatype Kind = Found | Lost | Other(code: int)

  datatype Event = Event(time: real, kind: Kind)

  /** A span with no end runs on for ever. */
  datatype Span = Span(from: real, to: Option<real>)

  datatype Scan = Scan(spans: seq<Span>, open: Option<real>, state: Option<Kind>)

  const START := Scan([], None, None)

  /** One event: a repeat of the current state is skipped. */
  function Step(s: Scan, e: Event): Scan {
    if s.state == Some(e.kind) then s
    else if e.kind.Lost? then s.(open := Some(e.time), state := Some(e.kind))
    else if e.kind.Found? && s.open.Some? then
      Scan(s.spans + [Span(s.open.value, Some(e.time))], None, Some(e.kind))
    else s.(state := Some(e.kind))
  }

  function ScanOf(evs: seq<Event>): Scan {
    if evs == [] then START else Step(ScanOf(evs[..|evs| - 1]), evs[|evs| - 1])
  }

  function Spans(s: Scan): seq<Span> {
    if s.open.Some? then s.spans + [Span(s.open.value, None)] else s.spans
  }

  predicate Covers(sp: Span, t: real) { sp.from <= t && (sp.to.Some? ==> t <= sp.to.value) }

  ghost predicate InAny(spans: seq<Span>, t: real) {
    exists k :: 0 <= k < |spans| && Covers(spans[k], t)
  }

  // ---- What a span should mean ----------------------------------------------------------------

  ghost predicate Sorted(evs: seq<Event>) {
    forall i, j :: 0 <= i <= j < |evs| ==> evs[i].time <= evs[j].time
  }

  ghost predicate EventTime(evs: seq<Event>, t: real) {
    exists k :: 0 <= k < |evs| && evs[k].time == t
  }

  /** The latest found or lost event before `t` is a loss. */
  predicate LatestIsLost(evs: seq<Event>, t: real) {
    if evs == [] then false else
    var e := evs[|evs| - 1];
    if e.time < t && !e.kind.Other? then e.kind.Lost? else LatestIsLost(evs[..|evs| - 1], t)
  }

  /** An event of neither kind let a second loss move the start of the open span. */
  predicate Reopens(s: Scan, e: Event) {
    e.kind.Lost? && s.state != Some(Lost) && s.open.Some? && s.open.value < e.time
  }

  ghost predicate NeverReopens(evs: seq<Event>) {
    forall k :: 0 <= k < |evs| ==> !Reopens(ScanOf(evs[..k]), evs[k])
  }

  // ---- The scan's own invariant ---------------------------------------------------------------

  predicate LastIsLost(evs: seq<Event>) {
    if evs == [] then false else
    var e := evs[|evs| - 1];
    if e.kind.Other? then LastIsLost(evs[..|evs| - 1]) else e.kind.Lost?
  }

  ghost predicate EndBy(spans: seq<Span>, t: real) {
    forall k :: 0 <= k < |spans| ==> spans[k].to.Some? && spans[k].to.value <= t
  }

  /** Spans end before the open one starts, and one is open exactly after a loss. */
  ghost predicate ScanOk(evs: seq<Event>, s: Scan) {
    && s.open.Some? == LastIsLost(evs)
    && s.state == (if evs == [] then None else Some(evs[|evs| - 1].kind))
    && (s.open.Some? ==> EndBy(s.spans, s.open.value))
    && (evs == [] ==> s == START)
    && (evs != [] ==> EndBy(s.spans, evs[|evs| - 1].time) && (s.open.Some? ==> s.open.value <= evs[|evs| - 1].time))
  }

  lemma {:induction false} ScanIsOk(evs: seq<Event>)
    requires Sorted(evs)
    ensures ScanOk(evs, ScanOf(evs))
  {
    if evs != [] {
      var prev := evs[..|evs| - 1];
      ScanIsOk(prev);
      assert prev != [] ==> prev[|prev| - 1] == evs[|evs| - 2];
      assert prev != [] ==> evs[|evs| - 2].time <= evs[|evs| - 1].time;
    }
  }

  lemma AddSpan(spans: seq<Span>, sp: Span, t: real)
    ensures InAny(spans + [sp], t) <==> InAny(spans, t) || Covers(sp, t)
  {
    if InAny(spans, t) {
      var k :| 0 <= k < |spans| && Covers(spans[k], t);
      assert (spans + [sp])[k] == spans[k];
    }
    if Covers(sp, t) {
      assert (spans + [sp])[|spans|] == sp;
    }
  }

  /** An instant is in a span of the scan so far. */
  ghost predicate Hit(s: Scan, t: real) {
    InAny(s.spans, t) || (s.open.Some? && s.open.value <= t)
  }

  lemma HitIsInAny(s: Scan, t: real)
    ensures InAny(Spans(s), t) <==> Hit(s, t)
  {
    if s.open.Some? { AddSpan(s.spans, Span(s.open.value, None), t); }
  }

  /** A later event that does not move the open start leaves earlier instants as they were. */
  lemma LaterEventKeeps(s: Scan, e: Event, t: real)
    requires t < e.time && !Reopens(s, e) && (s.open.Some? ==> s.open.value <= e.time)
    ensures Hit(Step(s, e), t) <==> Hit(s, t)
  {
    if e.kind.Found? && s.open.Some? { AddSpan(s.spans, Span(s.open.value, Some(e.time)), t); }
  }

  lemma LaterEventAddsNothing(s: Scan, e: Event, t: real)
    requires t < e.time && !Hit(s, t)
    ensures !Hit(Step(s, e), t)
  {
    if e.kind.Found? && s.open.Some? { AddSpan(s.spans, Span(s.open.value, Some(e.time)), t); }
  }

  // ---- The property, and exactly when it holds ------------------------------------------------

  lemma {:induction false} AllEarlier(evs: seq<Event>, t: real)
    requires forall k :: 0 <= k < |evs| ==> evs[k].time < t
    ensures LatestIsLost(evs, t) == LastIsLost(evs)
  {
    if evs != [] { AllEarlier(evs[..|evs| - 1], t); }
  }

  lemma {:induction false} SpansAgree(evs: seq<Event>, t: real)
    requires Sorted(evs) && !EventTime(evs, t) && NeverReopens(evs)
    ensures Hit(ScanOf(evs), t) <==> LatestIsLost(evs, t)
  {
    if evs != [] {
      var n := |evs| - 1;
      var prev, e := evs[..n], evs[n];
      assert e.time != t;
      if t < e.time {
        forall k | 0 <= k < n ensures !Reopens(ScanOf(prev[..k]), prev[k]) {
          assert prev[..k] == evs[..k];
        }
        SpansAgree(prev, t);
        ScanIsOk(prev);
        assert n > 0 ==> prev[n - 1] == evs[n - 1] && evs[n - 1].time <= evs[n].time;
        LaterEventKeeps(ScanOf(prev), e, t);
      } else {
        ScanIsOk(evs);
        assert forall k :: 0 <= k < |evs| ==> evs[k].time <= evs[n].time;
        AllEarlier(evs, t);
      }
    }
  }

  /** Some instant between `from` and event `k` is no event's time. */
  lemma {:induction false} FreeInstant(evs: seq<Event>, k: nat, from: real) returns (t: real)
    requires Sorted(evs) && k < |evs| && from < evs[k].time
    ensures from < t < evs[k].time && !EventTime(evs, t)
  {
    if exists i :: 0 <= i < k && from < evs[i].time {
      var i :| 0 <= i < k && from < evs[i].time;
      t := FreeInstant(evs, i, from);
    } else {
      t := (from + evs[k].time) / 2.0;
      forall j | 0 <= j < |evs| ensures evs[j].time != t {
        if j >= k { assert evs[k].time <= evs[j].time; }
      }
    }
  }

  lemma {:induction false} MissesFrom(evs: seq<Event>, k: nat, t: real)
    requires Sorted(evs) && k <= |evs| && !Hit(ScanOf(evs[..k]), t)
    requires forall j :: k <= j < |evs| ==> t < evs[j].time
    ensures !Hit(ScanOf(evs), t)
    decreases |evs|
  {
    if k == |evs| {
      assert evs[..k] == evs;
    } else {
      var prev := evs[..|evs| - 1];
      assert prev[..k] == evs[..k];
      MissesFrom(prev, k, t);
      LaterEventAddsNothing(ScanOf(prev), evs[|evs| - 1], t);
    }
  }

  lemma {:induction false} EarlierEventsDecide(evs: seq<Event>, k: nat, t: real)
    requires k <= |evs| && forall j :: k <= j < |evs| ==> t < evs[j].time
    ensures LatestIsLost(evs, t) == LatestIsLost(evs[..k], t)
    decreases |evs|
  {
    if k == |evs| {
      assert evs[..k] == evs;
    } else {
      var prev := evs[..|evs| - 1];
      assert prev[..k] == evs[..k];
      EarlierEventsDecide(prev, k, t);
    }
  }

  /** The first reopening at `k` loses the instants just after the open start it replaces. */
  lemma ReopeningLoses(evs: seq<Event>, k: nat) returns (t: real)
    requires Sorted(evs) && k < |evs| && Reopens(ScanOf(evs[..k]), evs[k]) && NeverReopens(evs[..k])
    ensures !EventTime(evs, t) && !Hit(ScanOf(evs), t) && LatestIsLost(evs, t)
  {
    var s := ScanOf(evs[..k]);
    var o := s.open.value;
    t := FreeInstant(evs, k, o);
    forall j | 0 <= j < k ensures evs[..k][j].time != t {
      assert evs[..k][j] == evs[j];
    }
    SpansAgree(evs[..k], t);
    ScanIsOk(evs[..k]);
    assert evs[..k + 1][..k] == evs[..k];
    assert forall j :: k <= j < |evs| ==> t < evs[j].time by {
      assert forall j :: k <= j < |evs| ==> evs[k].time <= evs[j].time;
    }
    EarlierEventsDecide(evs, k, t);
    assert ScanOf(evs[..k + 1]) == Step(s, evs[k]);
    MissesFrom(evs, k + 1, t);
  }

  ghost predicate SpansExact(evs: seq<Event>) {
    forall t: real :: !EventTime(evs, t) ==> (InAny(Spans(ScanOf(evs)), t) <==> LatestIsLost(evs, t))
  }

  lemma {:induction false} FirstReopening(evs: seq<Event>, n: nat) returns (k: nat)
    requires n <= |evs| && !NeverReopens(evs[..n])
    ensures k < n && Reopens(ScanOf(evs[..k]), evs[k]) && NeverReopens(evs[..k])
    decreases n
  {
    var m := n - 1;
    if NeverReopens(evs[..m]) {
      k := m;
      forall j | 0 <= j < m ensures !Reopens(ScanOf(evs[..n][..j]), evs[..n][j]) {
        assert evs[..n][..j] == evs[..m][..j] && evs[..n][j] == evs[..m][j];
      }
      assert evs[..n][..m] == evs[..m];
    } else {
      k := FirstReopening(evs, m);
    }
  }

  ghost predicate NoFound(evs: seq<Event>, j: nat, k: nat) {
    forall i :: j < i < k && i < |evs| ==> !evs[i].kind.Found?
  }

  /** A loss at j, another at a later time k straight after an event of another kind, no find between. */
  ghost predicate LosesTwice(evs: seq<Event>, j: nat, k: nat) {
    && j < k < |evs| && evs[j].kind.Lost? && evs[k].kind.Lost? && evs[k - 1].kind.Other?
    && evs[j].time < evs[k].time && NoFound(evs, j, k)
  }

  /** The open span starts at a loss with no find after it. */
  lemma {:induction false} OpenFrom(evs: seq<Event>, n: nat) returns (j: nat)
    requires Sorted(evs) && n <= |evs| && ScanOf(evs[..n]).open.Some?
    ensures j < n && evs[j].kind.Lost? && evs[j].time == ScanOf(evs[..n]).open.value && NoFound(evs, j, n)
  {
    var m := n - 1;
    assert evs[..n][..m] == evs[..m];
    ScanIsOk(evs[..m]);
    if ScanOf(evs[..n]).open == ScanOf(evs[..m]).open && !evs[m].kind.Found? {
      j := OpenFrom(evs, m);
    } else {
      j := m;
    }
  }

  /** As long as nothing reopens it, a span open after a loss started no later than that. */
  lemma {:induction false} OpenSince(evs: seq<Event>, j: nat, n: nat)
    requires Sorted(evs) && j < n <= |evs| && evs[j].kind.Lost? && NoFound(evs, j, n)
    requires forall i :: j < i < n ==> !Reopens(ScanOf(evs[..i]), evs[i])
    ensures var s := ScanOf(evs[..n]); s.open.Some? && s.open.value <= evs[j].time
    decreases n
  {
    var m := n - 1;
    assert evs[..n][..m] == evs[..m];
    if j == m {
      ScanIsOk(evs[..n]);
    } else {
      OpenSince(evs, j, m);
      assert !Reopens(ScanOf(evs[..m]), evs[m]);
    }
  }

  lemma LosingTwiceReopens(evs: seq<Event>, j: nat, k: nat)
    requires Sorted(evs) && LosesTwice(evs, j, k)
    ensures !NeverReopens(evs)
  {
    if forall i :: j < i < k ==> !Reopens(ScanOf(evs[..i]), evs[i]) {
      OpenSince(evs, j, k);
      ScanIsOk(evs[..k]);
      assert Reopens(ScanOf(evs[..k]), evs[k]);
    }
  }

  lemma ReopensIff(evs: seq<Event>)
    requires Sorted(evs)
    ensures NeverReopens(evs) <==> forall j: nat, k: nat :: !LosesTwice(evs, j, k)
  {
    if k :| 0 <= k < |evs| && Reopens(ScanOf(evs[..k]), evs[k]) {
      var j := OpenFrom(evs, k);
      ScanIsOk(evs[..k]);
      assert LosesTwice(evs, j, k);
    } else if j: nat, k: nat :| LosesTwice(evs, j, k) {
      LosingTwiceReopens(evs, j, k);
    }
  }

  /** Away from the event times, an instant is in a lost span exactly when the latest earlier found or
      lost event is a loss, if and only if no two losses at different times have no find between them
      and an event of another kind right before the second. */
  lemma SpansAreExactIff(evs: seq<Event>)
    requires Sorted(evs)
    ensures SpansExact(evs) <==> forall j: nat, k: nat :: !LosesTwice(evs, j, k)
  {
    ReopensIff(evs);
    if NeverReopens(evs) {
      forall t: real | !EventTime(evs, t) ensures InAny(Spans(ScanOf(evs)), t) <==> LatestIsLost(evs, t) {
        SpansAgree(evs, t);
        HitIsInAny(ScanOf(evs), t);
      }
    } else {
      assert evs[..|evs|] == evs;
      var k := FirstReopening(evs, |evs|);
      var t := ReopeningLoses(evs, k);
      HitIsInAny(ScanOf(evs), t);
    }
  }

  /** Streams of found and lost events only, repeats and a leading one of either kind included, never
      reopen: for them the spans are exact. */
  lemma {:induction false} FoundLostIsExact(evs: seq<Event>)
    requires Sorted(evs) && forall k :: 0 <= k < |evs| ==> !evs[k].kind.Other?
    ensures SpansExact(evs)
  {
    SpansAreExactIff(evs);
  }

  /** With another kind of event the property fails: here the user is lost from 0 to 20, but no span
      covers 7. */
  lemma AnotherEventResetsTheState()
    ensures var evs := [Event(0.0, Lost), Event(5.0, Other(3)), Event(10.0, Lost), Event(20.0, Found)];
            LatestIsLost(evs, 7.0) && !InAny(Spans(ScanOf(evs)), 7.0)
  {
    var evs := [Event(0.0, Lost), Event(5.0, Other(3)), Event(10.0, Lost), Event(20.0, Found)];
    var a, b, c := evs[..1], evs[..2], evs[..3];
    assert a[..0] == [] && b[..1] == a && c[..2] == b && evs[..3] == c;
    assert ScanOf(a) == Scan([], Some(0.0), Some(Lost));
    assert ScanOf(b) == Scan([], Some(0.0), Some(Other(3)));
    assert ScanOf(c) == Scan([], Some(10.0), Some(Lost));
    assert Spans(ScanOf(evs)) == [Span(10.0, Some(20.0))];
    assert LatestIsLost(a, 7.0) && LatestIsLost(b, 7.0) && LatestIsLost(c, 7.0);
  }

  // ---- The script's own loops -----------------------------------------------------------------

  /** lost_spans. */
  method LostSpans(evs: seq<Event>) returns (spans: seq<Span>)
    ensures spans == Spans(ScanOf(evs))
  {
    spans := [];
    var openAt: Option<real> := None;
    var state: Option<Kind> := None;
    var k := 0;
    while k < |evs|
      invariant 0 <= k <= |evs| && Scan(spans, openAt, state) == ScanOf(evs[..k])
    {
      assert evs[..k + 1][..k] == evs[..k];
      var e := evs[k];
      k := k + 1;
      if Some(e.kind) == state { continue; }
      if e.kind.Lost? {
        openAt := Some(e.time);
      } else if e.kind.Found? && openAt.Some? {
        spans := spans + [Span(openAt.value, Some(e.time))];
        openAt := None;
      }
      state := Some(e.kind);
    }
    assert evs[..k] == evs;
    if openAt.Some? { spans := spans + [Span(openAt.value, None)]; }
  }

  /** in_any_span. */
  method InAnySpan(t: real, spans: seq<Span>) returns (r: bool)
    ensures r == InAny(spans, t)
  {
    var k := 0;
    while k < |spans|
      invariant 0 <= k <= |spans| && forall j :: 0 <= j < k ==> !Covers(spans[j], t)
    {
      if Covers(spans[k], t) { return true; }
      k := k + 1;
    }
    return false;
  }

  /** Whether a user is tracked at an instant of a found/lost stream that is no event time. */
  method IsLostAt(evs: seq<Event>, t: real) returns (r: bool)
    requires Sorted(evs) && !EventTime(evs, t) && forall k :: 0 <= k < |evs| ==> !evs[k].kind.Other?
    ensures r == LatestIsLost(evs, t)
  {
    FoundLostIsExact(evs);
    var spans := LostSpans(evs);
    r := InAnySpan(t, spans);
  }
}
