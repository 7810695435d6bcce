/**
 The lens authority of the local 2D/3D zone path, with everything about the readback abstracted
 away. A publish is refused, waits for its first verdict, carries the last verdict or lands a new
 one; a clear hands the lens back to the rendering mode. Both the D3D11 and the D3D12 display
 processor are shown to refine this machine.
 */
module ZoneLens {

  /** The verdict fields: the last evaluated generation and what the zone path last asked for. */
  datatype Zone = Zone(valid: bool, evalSeq: nat, want: bool, hint: bool, active: bool)

  /** A lens request that SR accepted, stamped with the activation it belongs to. */
  datatype Request = Request(activation: nat, on: bool)

  /** The physical lens, the accepted requests so far, and how often a zone became active. */
  datatype Lens = Lens(on: bool, log: seq<Request>, activation: nat)

  datatype Authority = Authority(zone: Zone, lens: Lens)

  const IDLE := Zone(false, 0, false, false, false)

  predicate Initial(s: Authority) {
    s.zone == IDLE && s.lens.log == [] && s.lens.activation == 0
  }

  datatype Step =
    | Refuse
    | Wait
    | Carry(requestOk: bool)
    | Land(seqNo: nat, verdict: bool, requestOk: bool)
    | Clear(wants3D: bool, requestOk: bool)

  function Send(l: Lens, on: bool): Lens {
    l.(on := on, log := l.log + [Request(l.activation, on)])
  }

  /** A new activation starts with the first accepted request of an inactive zone. */
  function Activate(s: Authority): Lens {
    if s.zone.active then s.lens else s.lens.(activation := s.lens.activation + 1)
  }

  /** The edge at the end of a publish: ask only when inactive or when the verdict moved. */
  function Drive(s: Authority, requestOk: bool): (Authority, bool) {
    if s.zone.active && s.zone.hint == s.zone.want then (s, true)
    else if !requestOk then (s, false)
    else (Authority(s.zone.(hint := s.zone.want, active := true), Send(Activate(s), s.zone.want)), true)
  }

  function Landed(s: Authority, seqNo: nat, verdict: bool): Authority {
    s.(zone := s.zone.(valid := true, evalSeq := seqNo, want := verdict))
  }

  /** The end of zone authority. The request's own result is ignored, as the driver ignores it. */
  function Cleared(s: Authority, wants3D: bool, requestOk: bool): Authority {
    var lens := if s.zone.active && s.zone.hint != wants3D && requestOk then Send(s.lens, wants3D) else s.lens;
    var hint := if s.zone.active then false else s.zone.hint;
    Authority(s.zone.(valid := false, hint := hint, active := false), lens)
  }

  predicate Enabled(s: Authority, step: Step) {
    match step
    case Wait => !s.zone.valid
    case Carry(_) => s.zone.valid
    case _ => true
  }

  /** The machine's step: the new state, and what the slot returns to the runtime. */
  function Apply(s: Authority, step: Step): (Authority, bool) {
    match step
    case Refuse => (s, false)
    case Wait => (s, true)
    case Carry(ok) => Drive(s, ok)
    case Land(n, v, ok) => Drive(Landed(s, n, v), ok)
    case Clear(mode, ok) => (Cleared(s, mode, ok), true)
  }

  predicate EnabledRun(s: Authority, run: seq<Step>)
    decreases |run|
  {
    run == [] || (Enabled(s, run[0]) && EnabledRun(Apply(s, run[0]).0, run[1..]))
  }

  function Run(s: Authority, run: seq<Step>): Authority
    decreases |run|
  {
    if run == [] then s else Run(Apply(s, run[0]).0, run[1..])
  }

  // ---- What every run keeps -------------------------------------------------------------------

  /** Consecutive accepted requests of one activation alternate. */
  predicate Alternates(log: seq<Request>) {
    forall i :: 0 < i < |log| && log[i].activation == log[i - 1].activation ==> log[i].on != log[i - 1].on
  }

  predicate Coherent(s: Authority) {
    && Alternates(s.lens.log)
    && (forall i :: 0 <= i < |s.lens.log| ==> s.lens.log[i].activation <= s.lens.activation)
    && (s.lens.log != [] ==> s.lens.on == s.lens.log[|s.lens.log| - 1].on)
    && (s.zone.active ==>
          && s.zone.valid
          && s.lens.on == s.zone.hint
          && s.lens.log != []
          && s.lens.log[|s.lens.log| - 1].activation == s.lens.activation)
  }

  /** A request of the other kind than the last of its activation. */
  lemma SendKeeps(l: Lens, on: bool)
    requires Alternates(l.log) && forall i :: 0 <= i < |l.log| ==> l.log[i].activation <= l.activation
    requires l.log != [] && l.log[|l.log| - 1].activation == l.activation ==> l.log[|l.log| - 1].on != on
    ensures var t := Send(l, on);
            Alternates(t.log) && forall i :: 0 <= i < |t.log| ==> t.log[i].activation <= t.activation
  {
    var t := Send(l, on);
    assert forall i :: 0 <= i < |l.log| ==> t.log[i] == l.log[i];
  }

  lemma DriveKeeps(s: Authority, requestOk: bool)
    requires Coherent(s) && s.zone.valid
    ensures var (t, ok) := Drive(s, requestOk);
            && Coherent(t) && t.zone.want == s.zone.want
            && (ok && t.zone.active ==> t.lens.on == t.zone.want) && (!ok ==> t.lens == s.lens)
  {
    if !(s.zone.active && s.zone.hint == s.zone.want) && requestOk {
      SendKeeps(Activate(s), s.zone.want);
    }
  }

  lemma ClearKeeps(s: Authority, wants3D: bool, requestOk: bool)
    requires Coherent(s)
    ensures var t := Cleared(s, wants3D, requestOk);
            && Coherent(t)
            && (s.zone.active ==> (t.lens.on == wants3D <==> requestOk || s.zone.hint == wants3D))
  {
    if s.zone.active && s.zone.hint != wants3D && requestOk { SendKeeps(s.lens, wants3D); }
  }

  /** One step: the invariant, and what a successful publish or clear leaves the lens at. */
  lemma StepKeeps(s: Authority, step: Step)
    requires Coherent(s) && Enabled(s, step)
    ensures Coherent(Apply(s, step).0)
    ensures !step.Clear? && Apply(s, step).1 && Apply(s, step).0.zone.active
            ==> Apply(s, step).0.lens.on == Apply(s, step).0.zone.want
    ensures step.Clear? && s.zone.active
            ==> (Apply(s, step).0.lens.on == step.wants3D <==> step.requestOk || s.zone.hint == step.wants3D)
    ensures !step.Clear? && !Apply(s, step).1 ==> Apply(s, step).0.lens == s.lens
  {
    match step
    case Refuse =>
    case Wait =>
    case Carry(ok) => DriveKeeps(s, ok);
    case Land(n, v, ok) => DriveKeeps(Landed(s, n, v), ok);
    case Clear(mode, ok) => ClearKeeps(s, mode, ok);
  }

  /** A step sends one request at most, and exactly when SR accepts it: a publish with a verdict sends it
      when the zone is inactive or was last set otherwise, a clear sends the rendering mode's when an
      active zone was set otherwise. */
  lemma AsksIff(s: Authority, step: Step)
    requires Enabled(s, step)
    ensures var t := Apply(s, step).0;
      && (t.lens.log != s.lens.log ==> t.lens.log == s.lens.log + [Request(t.lens.activation, t.lens.on)])
      && (t.lens.log == s.lens.log ==> t.lens == s.lens)
      && (step.Refuse? || step.Wait? ==> t == s)
      && (step.Carry? || step.Land? ==>
            (t.lens.log != s.lens.log <==> step.requestOk && (!s.zone.active || s.zone.hint != t.zone.want))
            && (t.lens.log != s.lens.log ==> t.lens.on == t.zone.want && t.zone.hint == t.zone.want && t.zone.active))
      && (step.Clear? ==>
            (t.lens.log != s.lens.log <==> step.requestOk && s.zone.active && s.zone.hint != step.wants3D)
            && (t.lens.log != s.lens.log ==> t.lens.on == step.wants3D))
  {
  }

  /** A new activation is counted exactly when an inactive zone becomes active, and a clear ends it. */
  lemma ActivatesIff(s: Authority, step: Step)
    ensures var t := Apply(s, step).0;
      && t.lens.activation == s.lens.activation + (if !s.zone.active && t.zone.active then 1 else 0)
      && (t.zone.active <==> !step.Clear? && (s.zone.active || ((step.Carry? || step.Land?) && step.requestOk)))
  {
  }

  /** Over any run of publishes and clears, requests alternate inside each activation. */
  lemma {:induction false} RunKeeps(s: Authority, run: seq<Step>)
    requires Coherent(s) && EnabledRun(s, run)
    ensures Coherent(Run(s, run))
    ensures Alternates(Run(s, run).lens.log)
    decreases |run|
  {
    if run != [] {
      StepKeeps(s, run[0]);
      RunKeeps(Apply(s, run[0]).0, run[1..]);
    }
  }
}
