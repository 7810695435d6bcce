/**
 The platform state: which panel the EDID table matches, whether the display platform is usable and
 why not, and when the cached display geometry is forgotten.
 */
module Platform {
  import opened Common

  datatype Status = Unknown | Ready | Absent | NotRunning | NoDisplay | Incompatible

  datatype Bind = BindOk | BindMissing | BindIncompatible

  /** What makes a panel the same panel; where it stands does not. */
  datatype Identity = Identity(manufacturer: nat, product: nat, width: nat, height: nat)

  datatype Panel = Panel(id: Identity, left: int, top: int)

  datatype Probe = Probe(found: Option<Panel>, installed: bool, running: bool)

  const NO_PROBE := Probe(None, false, false)

  /** What the client library and the service answer during one evaluation. */
  datatype Env = Env(bind: Bind, identified: bool)

  /** Geometry answered by a query remembers, for the model, which panel was matched when that query
      started (none, if none was) and in which tenure. */
  datatype Geometry = Geometry(on: Option<Identity>, tenure: nat)

  /** A thread inside leiasr_geometry_resolve: past the cache check and the gates and waiting for SR to
      identify a display, or querying it. */
  datatype Resolver = Waiting | Querying(answer: Geometry)

  /** `tenure` is history: how often the matched identity has changed. */
  datatype State = State(
    status: Status, hint: string, haveProbe: bool, probeMs: nat, signature: nat, hitSeen: bool,
    panel: Option<Panel>, geometry: Option<Geometry>, cached: Option<Probe>, resolvers: map<nat, Resolver>,
    tenure: nat)

  function MatchedId(s: State): Option<Identity> { if s.panel.Some? then Some(s.panel.value.id) else None }

  const HINT_INSTALL := "Install the LeiaSR Runtime"
  const HINT_REINSTALL := "LeiaSR Runtime files not found - reinstall the LeiaSR Runtime"
  const HINT_INCOMPATIBLE :=
    "The installed LeiaSR Runtime is not compatible with this plug-in - update the LeiaSR Runtime"
  const HINT_NOT_RUNNING := "The SR Service is not running"
  const HINT_NO_DISPLAY := "No Leia 3D display detected"

  // ---- One evaluation -------------------------------------------------------------------------

  predicate SamePanel(s: State, p: Panel) { s.panel.Some? && s.panel.value.id == p.id }

  /** The panel is the probe's; geometry goes when a panel goes or another takes its place. */
  function Track(s: State, probe: Probe): State {
    match probe.found
    case Some(p) =>
      s.(panel := Some(p), hitSeen := true,
         geometry := if s.panel.Some? && !SamePanel(s, p) then None else s.geometry,
         tenure := if SamePanel(s, p) then s.tenure else s.tenure + 1)
    case None =>
      if s.panel.Some? then s.(panel := None, geometry := None, tenure := s.tenure + 1) else s
  }

  function Ladder(hitSeen: bool, probe: Probe, e: Env): (Status, string) {
    if !probe.installed then (Absent, HINT_INSTALL)
    else if e.bind.BindIncompatible? then (Incompatible, HINT_INCOMPATIBLE)
    else if e.bind.BindMissing? then (Absent, HINT_REINSTALL)
    else if !probe.running then (NotRunning, HINT_NOT_RUNNING)
    else if probe.found.Some? then (Ready, "")
    else if !hitSeen && e.identified then (Ready, "")
    else (NoDisplay, HINT_NO_DISPLAY)
  }

  function Publish(s: State, probe: Probe, e: Env): State {
    var t := Track(s, probe);
    var r := Ladder(t.hitSeen, probe, e);
    t.(status := r.0, hint := r.1)
  }

  /** An evaluation of a probe the caller has just run. */
  function Evaluate(s: State, probe: Probe, now: nat, signature: nat, e: Env): State {
    Publish(s.(haveProbe := true, probeMs := now, signature := signature, cached := Some(probe)), probe, e)
  }

  const TWO_64 := 0x1_0000_0000_0000_0000

  /** `maxAge` is None for "only on a topology change". */
  predicate NeedsProbe(s: State, now: nat, signature: nat, maxAge: Option<nat>) {
    !s.haveProbe || signature != s.signature || (maxAge.Some? && (now - s.probeMs) % TWO_64 >= maxAge.value)
  }

  /** Without a probe the last match stands and only the two cheap signals are read again. */
  function Refresh(s: State, now: nat, signature: nat, maxAge: Option<nat>, newest: Probe, installed: bool,
                   running: bool, e: Env): State {
    if NeedsProbe(s, now, signature, maxAge) then Evaluate(s, newest, now, signature, e)
    else
      var last := if s.cached.Some? then s.cached.value else NO_PROBE;
      Publish(s, last.(installed := installed, running := running), e)
  }

  // ---- Resolving geometry, on threads of its own ----------------------------------------------

  /** A thread asks for geometry: answered from the cache, turned away by a gate, or left waiting. */
  function Ask(s: State, thread: nat, bind: Bind): State {
    if s.geometry.Some? || bind != BindOk || s.status == NoDisplay || thread in s.resolvers then s
    else s.(resolvers := s.resolvers[thread := Waiting])
  }

  /** SR identified a display in time: the thread's query starts, with no lock held. */
  function Start(s: State, thread: nat): State {
    if thread in s.resolvers && s.resolvers[thread].Waiting? then
      s.(resolvers := s.resolvers[thread := Querying(Geometry(MatchedId(s), s.tenure))])
    else s
  }

  /** The query answered: whatever happened meanwhile, its answer becomes the cached geometry. */
  function Answer(s: State, thread: nat): State {
    if thread in s.resolvers && s.resolvers[thread].Querying? then
      s.(geometry := Some(s.resolvers[thread].answer), resolvers := s.resolvers - {thread})
    else s
  }

  /** The wait timed out or the query failed. */
  function GiveUp(s: State, thread: nat): State { s.(resolvers := s.resolvers - {thread}) }

  datatype Event =
    | EvEvaluate(probe: Probe, now: nat, signature: nat, env: Env)
    | EvRefresh(now: nat, signature: nat, maxAge: Option<nat>, newest: Probe, installed: bool, running: bool, env: Env)
    | EvAsk(thread: nat, bind: Bind)
    | EvStart(thread: nat)
    | EvAnswer(thread: nat)
    | EvGiveUp(thread: nat)

  function Next(s: State, ev: Event): State {
    match ev
    case EvEvaluate(probe, now, signature, e) => Evaluate(s, probe, now, signature, e)
    case EvRefresh(now, signature, maxAge, newest, installed, running, e) =>
      Refresh(s, now, signature, maxAge, newest, installed, running, e)
    case EvAsk(thread, bind) => Ask(s, thread, bind)
    case EvStart(thread) => Start(s, thread)
    case EvAnswer(thread) => Answer(s, thread)
    case EvGiveUp(thread) => GiveUp(s, thread)
  }

  function Run(s: State, evs: seq<Event>): State {
    if evs == [] then s else Next(Run(s, evs[..|evs| - 1]), evs[|evs| - 1])
  }

  const INITIAL := State(Unknown, "", false, 0, 0, false, None, None, None, map[], 0)

  // ---- The ladder -----------------------------------------------------------------------------

  /** Ready means exactly: installed, bound, running, and a panel the table matches or, if the table has
      never matched one, one the service identified. */
  lemma ReadyIff(s: State, probe: Probe, e: Env)
    ensures Publish(s, probe, e).status == Ready
            <==> probe.installed && e.bind == BindOk && probe.running
                 && (probe.found.Some? || (!s.hitSeen && e.identified))
    ensures Publish(s, probe, e).hint == "" <==> Publish(s, probe, e).status == Ready
    ensures Publish(s, probe, e).status != Unknown
  {
  }

  /** The other states, each by the first thing that stands in the way. */
  lemma StatusIff(s: State, probe: Probe, e: Env)
    ensures var t := Publish(s, probe, e);
      && (t.status == Absent <==> !probe.installed || e.bind == BindMissing)
      && (t.status == Incompatible <==> probe.installed && e.bind == BindIncompatible)
      && (t.status == NotRunning <==> probe.installed && e.bind == BindOk && !probe.running)
      && (t.status == NoDisplay <==>
            probe.installed && e.bind == BindOk && probe.running && probe.found.None? && (s.hitSeen || !e.identified))
      && (t.hint == HINT_INSTALL <==> !probe.installed)
      && (t.hint == HINT_REINSTALL <==> probe.installed && t.status == Absent)
      && (t.hint == HINT_INCOMPATIBLE <==> t.status == Incompatible)
      && (t.hint == HINT_NOT_RUNNING <==> t.status == NotRunning)
      && (t.hint == HINT_NO_DISPLAY <==> t.status == NoDisplay)
  {
    HintsDiffer();
  }

  lemma HintsDiffer()
    ensures |HINT_INSTALL| == 26 && |HINT_REINSTALL| == 61 && |HINT_INCOMPATIBLE| == 92
    ensures |HINT_NOT_RUNNING| == 29 && |HINT_NO_DISPLAY| == 27
  {
  }

  /** A refresh runs the probe exactly on the first call, on a changed topology, or when the last probe
      is as old as the caller's limit; otherwise the last probe's match, time and topology stand. */
  lemma RefreshProbesIff(s: State, now: nat, signature: nat, maxAge: Option<nat>, newest: Probe, installed: bool,
                         running: bool, e: Env)
    requires s.haveProbe ==> s.probeMs <= now < s.probeMs + TWO_64
    ensures var t := Refresh(s, now, signature, maxAge, newest, installed, running, e);
      if !s.haveProbe || signature != s.signature || (maxAge.Some? && now - s.probeMs >= maxAge.value) then
        && t.haveProbe && t.probeMs == now && t.signature == signature && t.cached == Some(newest)
        && t.panel == newest.found
        && (s.panel.Some? && newest.found.Some? && s.panel.value.id != newest.found.value.id ==> t.geometry.None?)
      else
        t.haveProbe && t.probeMs == s.probeMs && t.signature == s.signature && t.cached == s.cached
  {
  }

  /** So after any refresh the match is of this topology, and younger than the limit or of this instant. */
  lemma RefreshIsFresh(s: State, now: nat, signature: nat, maxAge: Option<nat>, newest: Probe, installed: bool,
                       running: bool, e: Env)
    requires s.haveProbe ==> s.probeMs <= now < s.probeMs + TWO_64
    ensures var t := Refresh(s, now, signature, maxAge, newest, installed, running, e);
      && t.signature == signature && t.probeMs <= now
      && (maxAge.Some? ==> t.probeMs == now || now - t.probeMs < maxAge.value)
  {
    RefreshProbesIff(s, now, signature, maxAge, newest, installed, running, e);
  }

  /** A refresh that runs no probe answers for the last match with the two signals read now. */
  lemma ReusedReadyIff(s: State, now: nat, signature: nat, maxAge: Option<nat>, newest: Probe, installed: bool,
                       running: bool, e: Env)
    requires s.cached.Some? && !NeedsProbe(s, now, signature, maxAge)
    ensures Refresh(s, now, signature, maxAge, newest, installed, running, e).status == Ready
            <==> installed && e.bind == BindOk && running
                 && (s.cached.value.found.Some? || (!s.hitSeen && e.identified))
  {
  }

  /** A thread is in a resolve from the ask that finds nothing cached and no gate shut to its answer or its
      giving up; its query, once started, carries the panel matched then. */
  lemma ResolvesIff(s: State, ev: Event, thread: nat)
    ensures var t := Next(s, ev);
      && (thread in t.resolvers <==>
            (|| (thread in s.resolvers && ev != EvGiveUp(thread)
                 && !(ev == EvAnswer(thread) && s.resolvers[thread].Querying?))
             || (ev.EvAsk? && ev.thread == thread && s.geometry.None? && ev.bind == BindOk
                 && s.status != NoDisplay)))
      && (thread in t.resolvers && thread !in s.resolvers ==> t.resolvers[thread] == Waiting)
      && (thread in t.resolvers && thread in s.resolvers ==>
            t.resolvers[thread] == if ev == EvStart(thread) && s.resolvers[thread] == Waiting then
                                     Querying(Geometry(MatchedId(s), s.tenure))
                                   else s.resolvers[thread])
  {
  }

  // ---- The state over any run -----------------------------------------------------------------

  /** A stamp of this tenure names the panel matched now. */
  predicate Stamped(s: State, g: Geometry) {
    g.tenure <= s.tenure && (g.tenure == s.tenure ==> g.on == MatchedId(s))
  }

  /** The last match stands for the last probe; and once a panel was matched, ready means one is. */
  ghost predicate Coherent(s: State) {
    && (s.panel.Some? ==> s.hitSeen)
    && (s.status == Ready && s.hitSeen ==> s.panel.Some?)
    && (s.hint == "" <==> s.status == Ready || s.status == Unknown)
    && (s.haveProbe <==> s.cached.Some?)
    && s.panel == (if s.cached.Some? then s.cached.value.found else None)
    && (s.geometry.Some? ==> Stamped(s, s.geometry.value))
    && (forall t :: t in s.resolvers && s.resolvers[t].Querying? ==> Stamped(s, s.resolvers[t].answer))
  }

  lemma EvaluateKeeps(s: State, probe: Probe, now: nat, signature: nat, e: Env)
    requires Coherent(s)
    ensures Coherent(Evaluate(s, probe, now, signature, e))
    ensures Evaluate(s, probe, now, signature, e).panel == probe.found
  {
  }

  /** Refreshing without a probe changes nothing but the status. */
  lemma ReuseKeeps(s: State, now: nat, signature: nat, maxAge: Option<nat>, newest: Probe, installed: bool,
                   running: bool, e: Env)
    requires Coherent(s) && !NeedsProbe(s, now, signature, maxAge)
    ensures var t := Refresh(s, now, signature, maxAge, newest, installed, running, e);
            Coherent(t) && t == s.(status := t.status, hint := t.hint)
  {
  }

  predicate Resolves(ev: Event) { ev.EvAsk? || ev.EvStart? || ev.EvAnswer? || ev.EvGiveUp? }

  lemma ResolvingKeeps(s: State, ev: Event)
    requires Coherent(s) && Resolves(ev)
    ensures var t := Next(s, ev); Coherent(t) && t == s.(geometry := t.geometry, resolvers := t.resolvers)
  {
  }

  lemma NextKeeps(s: State, ev: Event)
    requires Coherent(s)
    ensures Coherent(Next(s, ev)) && (s.hitSeen ==> Next(s, ev).hitSeen)
  {
    match ev
    case EvEvaluate(probe, now, signature, e) => EvaluateKeeps(s, probe, now, signature, e);
    case EvRefresh(now, signature, maxAge, newest, installed, running, e) =>
      if NeedsProbe(s, now, signature, maxAge) {
        EvaluateKeeps(s, newest, now, signature, e);
      } else {
        ReuseKeeps(s, now, signature, maxAge, newest, installed, running, e);
      }
    case _ => ResolvingKeeps(s, ev);
  }

  /** Over any run of evaluations, refreshes and resolving threads. */
  lemma {:induction false} RunIsCoherent(s: State, evs: seq<Event>)
    requires Coherent(s)
    ensures Coherent(Run(s, evs)) && (s.hitSeen ==> Run(s, evs).hitSeen)
  {
    if evs != [] {
      RunIsCoherent(s, evs[..|evs| - 1]);
      NextKeeps(Run(s, evs[..|evs| - 1]), evs[|evs| - 1]);
    }
  }

  /** This call ran a probe and the table matched a panel. */
  predicate Matches(s: State, ev: Event) {
    match ev
    case EvEvaluate(probe, _, _, _) => probe.found.Some?
    case EvRefresh(now, signature, maxAge, newest, _, _, _) =>
      NeedsProbe(s, now, signature, maxAge) && newest.found.Some?
    case _ => false
  }

  /** So, from the start: once any probe of the run matched, ready means the current one does. */
  lemma {:induction false} ReadyAfterAHitIsAMatch(before: seq<Event>, hit: Event, after: seq<Event>)
    requires Matches(Run(INITIAL, before), hit)
    ensures var s := Run(Next(Run(INITIAL, before), hit), after);
            s.status == Ready ==> s.panel.Some? && s.cached.Some? && s.cached.value.found == s.panel
  {
    RunIsCoherent(INITIAL, before);
    NextKeeps(Run(INITIAL, before), hit);
    RunIsCoherent(Next(Run(INITIAL, before), hit), after);
  }

  // ---- When geometry is cached ----------------------------------------------------------------

  /** The matched identity is another one after this event, or none, or the first. */
  predicate Changes(s: State, ev: Event) { MatchedId(Next(s, ev)) != MatchedId(s) }

  /** A matched panel is lost, or another takes its place. */
  predicate Loses(s: State, ev: Event) { s.panel.Some? && Changes(s, ev) }

  predicate Answers(s: State, ev: Event) {
    ev.EvAnswer? && ev.thread in s.resolvers && s.resolvers[ev.thread].Querying?
  }

  predicate AnswersAt(s: State, evs: seq<Event>, k: nat) { k < |evs| && Answers(Run(s, evs[..k]), evs[k]) }

  predicate LosesAt(s: State, evs: seq<Event>, k: nat) { k < |evs| && Loses(Run(s, evs[..k]), evs[k]) }

  predicate ChangesAt(s: State, evs: seq<Event>, k: nat) { k < |evs| && Changes(Run(s, evs[..k]), evs[k]) }

  /** What event k does is decided by the events up to it. */
  lemma EarlierAt(s: State, evs: seq<Event>, n: nat, k: nat)
    requires k < n <= |evs|
    ensures AnswersAt(s, evs[..n], k) == AnswersAt(s, evs, k) && LosesAt(s, evs[..n], k) == LosesAt(s, evs, k)
    ensures ChangesAt(s, evs[..n], k) == ChangesAt(s, evs, k)
  {
    assert evs[..n][..k] == evs[..k] && evs[..n][k] == evs[k];
  }

  /** Event k answered a query, and no event after it lost or replaced a matched panel. */
  ghost predicate StandsSince(s: State, evs: seq<Event>, k: nat) {
    AnswersAt(s, evs, k) && forall j: nat :: k < j < |evs| ==> !LosesAt(s, evs, j)
  }

  predicate CachedAfter(s: State, evs: seq<Event>, k: nat) { k <= |evs| && Run(s, evs[..k]).geometry.Some? }

  lemma CachedStep(s: State, evs: seq<Event>, k: nat)
    requires k < |evs|
    ensures CachedAfter(s, evs, k + 1) <==> AnswersAt(s, evs, k) || (CachedAfter(s, evs, k) && !LosesAt(s, evs, k))
  {
    assert evs[..k + 1][..k] == evs[..k];
    GeometryStep(Run(s, evs[..k]), evs[k]);
  }

  lemma GeometryStep(s: State, ev: Event)
    ensures Next(s, ev).geometry.Some? <==> Answers(s, ev) || (s.geometry.Some? && !Loses(s, ev))
    ensures !Answers(s, ev) && Next(s, ev).geometry.Some? ==> Next(s, ev).geometry == s.geometry
  {
  }

  /** Over every run, geometry is cached at the end exactly when some answer of the run was followed by
      no loss and no replacement of a matched panel; moves, repeated misses and first matches do not
      matter. */
  lemma {:induction false} GeometryIsCachedIff(s: State, evs: seq<Event>)
    requires s.geometry.None?
    ensures Run(s, evs).geometry.Some? <==> exists k: nat :: StandsSince(s, evs, k)
  {
    var cached := (k: nat) => CachedAfter(s, evs, k);
    var answers, loses := (k: nat) => AnswersAt(s, evs, k), (k: nat) => LosesAt(s, evs, k);
    forall k: nat | k < |evs| ensures cached(k + 1) <==> answers(k) || (cached(k) && !loses(k)) {
      CachedStep(s, evs, k);
    }
    StandsIff(cached, answers, loses, |evs|);
    assert evs[..|evs|] == evs;
    forall k: nat ensures RaisedAt(answers, loses, |evs|, k) <==> StandsSince(s, evs, k) {
      if RaisedAt(answers, loses, |evs|, k) {
        forall j: nat | k < j < |evs| ensures !LosesAt(s, evs, j) { assert !loses(j); }
      }
    }
  }

  // ---- Whose geometry it is -------------------------------------------------------------------

  ghost predicate NoChange(s: State, evs: seq<Event>) { forall k: nat :: !ChangesAt(s, evs, k) }

  lemma NoChangeSnoc(s: State, evs: seq<Event>)
    requires evs != []
    ensures NoChange(s, evs) <==> NoChange(s, evs[..|evs| - 1]) && !ChangesAt(s, evs, |evs| - 1)
  {
    var n := |evs| - 1;
    forall j: nat | j < n ensures ChangesAt(s, evs[..n], j) == ChangesAt(s, evs, j) {
      EarlierAt(s, evs, n, j);
    }
    if NoChange(s, evs) {
      forall j: nat ensures !ChangesAt(s, evs[..n], j) {
        if j < n { assert !ChangesAt(s, evs, j); }
      }
    }
  }

  lemma TenureStep(s: State, ev: Event)
    ensures Next(s, ev).tenure == if Changes(s, ev) then s.tenure + 1 else s.tenure
  {
  }

  /** A tenure ends with every change of the matched identity, and only then. */
  lemma {:induction false} TenureEndsIff(s: State, evs: seq<Event>)
    ensures s.tenure <= Run(s, evs).tenure && (s.tenure == Run(s, evs).tenure <==> NoChange(s, evs))
  {
    if evs != [] {
      var n := |evs| - 1;
      TenureEndsIff(s, evs[..n]);
      TenureStep(Run(s, evs[..n]), evs[n]);
      NoChangeSnoc(s, evs);
      assert ChangesAt(s, evs, n) == Changes(Run(s, evs[..n]), evs[n]);
    }
  }

  lemma QueryStep(s: State, thread: nat, ev: Event)
    requires thread in s.resolvers && s.resolvers[thread].Querying?
    requires ev != EvAnswer(thread) && ev != EvGiveUp(thread)
    ensures thread in Next(s, ev).resolvers && Next(s, ev).resolvers[thread] == s.resolvers[thread]
  {
  }

  /** Other threads' events leave a query in flight alone. */
  lemma {:induction false} QueryGoesOn(s: State, thread: nat, evs: seq<Event>)
    requires thread in s.resolvers && s.resolvers[thread].Querying?
    requires forall k :: 0 <= k < |evs| ==> evs[k] != EvAnswer(thread) && evs[k] != EvGiveUp(thread)
    ensures thread in Run(s, evs).resolvers && Run(s, evs).resolvers[thread] == s.resolvers[thread]
  {
    if evs != [] {
      var prev, last := evs[..|evs| - 1], evs[|evs| - 1];
      QueryGoesOn(s, thread, prev);
      var t := Run(s, prev);
      assert Run(s, evs) == Next(t, last);
      QueryStep(t, thread, last);
    }
  }

  /** While geometry stays cached and no query answers, a matched panel stays matched, and the matched
      identity changes only by a first match. */
  lemma {:induction false} CachedTenure(s: State, evs: seq<Event>)
    requires s.geometry.Some? && Run(s, evs).geometry.Some?
    requires forall k :: 0 <= k < |evs| ==> !evs[k].EvAnswer?
    ensures Run(s, evs).geometry == s.geometry && (s.panel.Some? ==> Run(s, evs).panel.Some?)
    ensures NoChange(s, evs) <==> s.panel.Some? || Run(s, evs).panel.None?
  {
    if evs != [] {
      var prev := evs[..|evs| - 1];
      GeometryStep(Run(s, prev), evs[|evs| - 1]);
      CachedTenure(s, prev);
      NoChangeSnoc(s, evs);
    }
  }

  predicate OfThisTenure(s: State) { s.geometry.Some? && s.geometry.value.tenure == s.tenure }

  /** A query starts at s, other events pass, it answers, and more events pass that answer no query. As
      long as its answer stays cached it is this tenure's geometry exactly when no change of the matched
      identity fell between the query's start and its answer, and no panel was first matched since; and it
      is the matched panel's exactly when that is the one matched when the query started. */
  lemma {:induction false} CachedGeometryIsCurrentIff(s: State, thread: nat, during: seq<Event>, after: seq<Event>)
    requires thread in s.resolvers && s.resolvers[thread].Waiting?
    requires forall k :: 0 <= k < |during| ==> during[k] != EvAnswer(thread) && during[k] != EvGiveUp(thread)
    requires forall k :: 0 <= k < |after| ==> !after[k].EvAnswer?
    ensures var q := Next(s, EvStart(thread));
            var p := Next(Run(q, during), EvAnswer(thread));
            var t := Run(p, after);
            && p.geometry == Some(Geometry(MatchedId(s), s.tenure))
            && (OfThisTenure(p) <==> NoChange(q, during))
            && (t.geometry.Some? ==>
                  && (OfThisTenure(t) <==> NoChange(q, during) && (p.panel.Some? || t.panel.None?))
                  && (t.geometry.value.on == MatchedId(t) <==> MatchedId(s) == MatchedId(t)))
  {
    var q := Next(s, EvStart(thread));
    QueryGoesOn(q, thread, during);
    TenureEndsIff(q, during);
    var p := Next(Run(q, during), EvAnswer(thread));
    TenureEndsIff(p, after);
    if Run(p, after).geometry.Some? {
      CachedTenure(p, after);
    }
  }

  /** Geometry of this tenure is the geometry of the panel matched now. */
  lemma {:induction false} CurrentGeometryIsThePanels(evs: seq<Event>)
    ensures var s := Run(INITIAL, evs); OfThisTenure(s) ==> s.geometry.value.on == MatchedId(s)
  {
    RunIsCoherent(INITIAL, evs);
  }

  /** And it can fail: a panel replaced while its query runs leaves its geometry cached, and ready
      reported, for the next panel. */
  lemma {:induction false} ReplacedDuringTheQuery(a: Panel, b: Panel, sig: nat)
    requires a.id != b.id
    ensures var e := Env(BindOk, true);
            var evs := [EvEvaluate(Probe(Some(a), true, true), 1, sig, e), EvAsk(0, BindOk), EvStart(0),
                        EvEvaluate(Probe(Some(b), true, true), 2, sig + 1, e), EvAnswer(0)];
            var s := Run(INITIAL, evs);
            s.status == Ready && s.panel == Some(b) && s.geometry.Some? && s.geometry.value.on == Some(a.id)
  {
    var e := Env(BindOk, true);
    var evs := [EvEvaluate(Probe(Some(a), true, true), 1, sig, e), EvAsk(0, BindOk), EvStart(0),
                EvEvaluate(Probe(Some(b), true, true), 2, sig + 1, e), EvAnswer(0)];
    var s1 := Next(INITIAL, evs[0]);
    var s3 := Next(Next(s1, evs[1]), evs[2]);
    assert evs[..5] == evs && evs[..4][..3] == evs[..3] && evs[..3][..2] == evs[..2] && evs[..2][..1] == evs[..1];
    assert evs[..1][..0] == [];
    assert Run(INITIAL, evs[..1]) == s1;
    assert Run(INITIAL, evs[..2]) == Next(s1, evs[1]);
    assert Run(INITIAL, evs[..3]) == s3;
    assert Run(INITIAL, evs[..4]) == Next(s3, evs[3]);
  }

  // ---- The plug-in's own code -----------------------------------------------------------------

  class Monitor {
    var status: Status
    var hint: string
    var haveProbe: bool
    var probeMs: nat
    var signature: nat
    var hitSeen: bool
    var panel: Option<Panel>
    var geometry: Option<Geometry>
    var cached: Option<Probe>
    var resolvers: map<nat, Resolver>
    var tenure: nat

    ghost function View(): State
      reads this
    {
      State(status, hint, haveProbe, probeMs, signature, hitSeen, panel, geometry, cached, resolvers, tenure)
    }

    constructor ()
      ensures View() == INITIAL && Coherent(View())
    {
      status, hint, haveProbe, probeMs, signature, hitSeen := Unknown, "", false, 0, 0, false;
      panel, geometry, cached, resolvers, tenure := None, None, None, map[], 0;
    }

    method TrackPanel(probe: Probe)
      modifies this`panel, this`hitSeen, this`geometry, this`tenure
      ensures View() == Track(old(View()), probe)
    {
      if probe.found.Some? {
        var same := panel.Some? && panel.value.id == probe.found.value.id;
        if panel.Some? && !same { geometry := None; }
        if !same { tenure := tenure + 1; }
        panel := probe.found;
        hitSeen := true;
      } else if panel.Some? {
        panel := None;
        geometry := None;
        tenure := tenure + 1;
      }
    }

    /** evaluate_locked. */
    method EvaluateLocked(probe: Probe, e: Env) returns (st: Status, h: string)
      modifies this`panel, this`hitSeen, this`geometry, this`tenure
      ensures View() == Track(old(View()), probe) && (st, h) == Ladder(hitSeen, probe, e)
    {
      TrackPanel(probe);
      if !probe.installed { return Absent, HINT_INSTALL; }
      match e.bind {
        case BindOk =>
        case BindIncompatible => return Incompatible, HINT_INCOMPATIBLE;
        case BindMissing => return Absent, HINT_REINSTALL;
      }
      if !probe.running { return NotRunning, HINT_NOT_RUNNING; }
      if probe.found.Some? { return Ready, ""; }
      if !hitSeen && e.identified { return Ready, ""; }
      return NoDisplay, HINT_NO_DISPLAY;
    }

    method PublishLocked(probe: Probe, e: Env)
      modifies this
      ensures View() == Publish(old(View()), probe, e)
    {
      var st, h := EvaluateLocked(probe, e);
      hint := h;
      status := st;
    }

    /** leia_platform_state_evaluate. */
    method EvaluateProbe(probe: Probe, now: nat, sig: nat, e: Env) returns (st: Status)
      modifies this
      ensures View() == Evaluate(old(View()), probe, now, sig, e) && st == status
    {
      cached := Some(probe);
      haveProbe := true;
      probeMs := now;
      signature := sig;
      PublishLocked(probe, e);
      st := status;
    }

    /** leia_platform_state_refresh. */
    method RefreshState(now: nat, sig: nat, maxAge: Option<nat>, newest: Probe, installed: bool, running: bool, e: Env)
      returns (st: Status)
      modifies this
      ensures View() == Refresh(old(View()), now, sig, maxAge, newest, installed, running, e) && st == status
    {
      var stale := maxAge.Some? && (now - probeMs) % TWO_64 >= maxAge.value;
      var edid := NO_PROBE;
      if !haveProbe || sig != signature || stale {
        edid := newest;
        cached := Some(newest);
        haveProbe := true;
        probeMs := now;
        signature := sig;
      } else {
        if cached.Some? { edid := cached.value; }
        edid := edid.(installed := installed, running := running);
      }
      PublishLocked(edid, e);
      st := status;
    }

    /** leiasr_geometry_resolve up to its wait: true when it goes on to query. */
    method AskGeometry(thread: nat, bind: Bind) returns (waits: bool)
      requires thread !in resolvers
      modifies this`resolvers
      ensures View() == Ask(old(View()), thread, bind) && waits == (thread in resolvers)
    {
      if geometry.Some? { return false; }
      if bind != BindOk || status == NoDisplay { return false; }
      resolvers := resolvers[thread := Waiting];
      return true;
    }

    /** Its wait is over: the query starts for whatever is matched now. */
    method StartQuery(thread: nat)
      requires thread in resolvers && resolvers[thread].Waiting?
      modifies this`resolvers
      ensures View() == Start(old(View()), thread)
    {
      var on := if panel.Some? then Some(panel.value.id) else None;
      resolvers := resolvers[thread := Querying(Geometry(on, tenure))];
    }

    /** publish: the answer replaces whatever is cached, with no check of what happened meanwhile. */
    method PublishGeometry(thread: nat)
      requires thread in resolvers && resolvers[thread].Querying?
      modifies this`geometry, this`resolvers
      ensures View() == Answer(old(View()), thread)
    {
      geometry := Some(resolvers[thread].answer);
      resolvers := resolvers - {thread};
    }

    /** leia_platform_matched_panel. */
    method MatchedPanel() returns (r: Option<Panel>)
      ensures r == panel && (Coherent(View()) && cached.Some? ==> r == cached.value.found)
    {
      r := panel;
    }
  }
}
