/**
 The conversion plug-in's one use of the provider: a convert imports its input, writes up to three
 targets, and finishes on every path. What holds of any calls then holds of it without exceptions.
 */
module ImportConvert {
  import opened Common
  import opened ImportCache
  import opened ImportExpiry

  const MAX_TARGETS := 3

  datatype Target = Target(img: Image, env: Env)

  /** One convert from its import on. `lifted` says whether what lies between the import and the writes
      succeeds; `targets` are the writes it would make, `finish` and `again` what its finish meets, and the
      finish of the failure path. */
  datatype Conversion =
    Conversion(input: Image, env: Env, lifted: bool, targets: seq<Target>, finish: Env, again: Env)

  /** The writes, up to the first that fails. */
  function WriteTargets(s: State, targets: seq<Target>): (State, bool)
    decreases |targets|
  {
    if targets == [] then (s, true) else
    var (t, ok) := Write(s, targets[0].img, targets[0].env);
    if ok then WriteTargets(t, targets[1..]) else (t, false)
  }

  /** The state its first finish meets, and whether everything before it succeeded. */
  function Converted(s: State, c: Conversion): (State, bool) {
    var (t, ok) := ImportInput(s, c.input, c.env);
    if ok && c.lifted then WriteTargets(t, c.targets) else (t, false)
  }

  /** A convert that failed before its finish, or in it, finishes on the failure path. */
  function Convert(s: State, c: Conversion): (State, bool) {
    var (t, ok) := Converted(s, c);
    var (f, done) := if ok then Finish(t, c.finish) else (t, false);
    if done then (f, true) else (Finish(f, c.again).0, false)
  }

  datatype Step = Converts(c: Conversion) | Clears

  function After(s: State, step: Step): State {
    match step
    case Converts(c) => Convert(s, c).0
    case Clears => ClearCache(s)
  }

  function Session(s: State, steps: seq<Step>): State
    decreases |steps|
  {
    if steps == [] then s else Session(After(s, steps[0]), steps[1..])
  }

  ghost predicate TargetsOk(targets: seq<Target>) {
    forall i :: 0 <= i < |targets| ==> Keyed(targets[i].img)
  }

  ghost predicate StepOk(step: Step) {
    step.Converts? ==> Keyed(step.c.input) && |step.c.targets| <= MAX_TARGETS && TargetsOk(step.c.targets)
  }

  // ---- No finish signals a dropped import -----------------------------------------------------

  /** Whatever a queued release borrows is cached. */
  ghost predicate AllHeld(s: State) {
    forall i, x :: 0 <= i < |s.pending| && Lends(s.pending[i], x) ==> !Gone(CacheOf(s, x), x)
  }

  /** Sound, and everything queued was queued at this tick or later. */
  ghost predicate Recent(s: State, since: nat) {
    Sound(s) && Lent(s) && since <= s.tick && forall i :: 0 <= i < |s.pending| ==> s.pending[i].at >= since
  }

  lemma RecentIsHeld(s: State, since: nat)
    requires Recent(s, since) && s.tick <= since + MAX_AGE
    ensures AllHeld(s)
  {
    forall i, x | 0 <= i < |s.pending| && Lends(s.pending[i], x) ensures !Gone(CacheOf(s, x), x) {
      assert Held(s, s.pending[i]) && Since(CacheOf(s, x), x, s.pending[i].at);
    }
  }

  lemma CallIsRecent(s: State, ev: Event, since: nat)
    requires Recent(s, since) && EventOk(ev) && !ev.EvClear?
    ensures Recent(Next(s, ev), since) && Next(s, ev).tick <= s.tick + 1
  {
    NextKeeps(s, ev);
    NextLent(s, ev);
    NextDoes(s, ev);
    NextQueues(s, ev);
    var t := Next(s, ev);
    forall i | 0 <= i < |t.pending| ensures t.pending[i].at >= since {
      if i < |s.pending| { assert t.pending[i] == s.pending[i]; }
    }
  }

  lemma {:induction false} WritesAreRecent(s: State, targets: seq<Target>, since: nat)
    requires Recent(s, since) && TargetsOk(targets)
    ensures var t := WriteTargets(s, targets).0; Recent(t, since) && t.tick <= s.tick + |targets|
    decreases |targets|
  {
    if targets != [] {
      CallIsRecent(s, EvWrite(targets[0].img, targets[0].env), since);
      WritesAreRecent(Write(s, targets[0].img, targets[0].env).0, targets[1..], since);
    }
  }

  /** What holds between converts: sound caches and an empty queue. */
  ghost predicate Quiet(s: State) { Sound(s) && s.pending == [] }

  lemma ConvertedIsRecent(s: State, c: Conversion)
    requires Quiet(s) && StepOk(Converts(c))
    ensures var t := Converted(s, c).0; Recent(t, s.tick) && AllHeld(t)
  {
    CallIsRecent(s, EvImport(c.input, c.env), s.tick);
    var (t, ok) := ImportInput(s, c.input, c.env);
    WritesAreRecent(t, c.targets, s.tick);
    RecentIsHeld(Converted(s, c).0, s.tick);
  }

  lemma FinishIsQuiet(s: State, e: Env)
    requires Sound(s)
    ensures Quiet(Finish(s, e).0)
  {
    NextKeeps(s, EvFinish(e));
  }

  lemma ConvertIsQuiet(s: State, c: Conversion)
    requires Quiet(s) && StepOk(Converts(c))
    ensures Quiet(Convert(s, c).0)
  {
    ConvertedIsRecent(s, c);
    var (t, ok) := Converted(s, c);
    FinishIsQuiet(t, c.finish);
    FinishIsQuiet(if ok then Finish(t, c.finish).0 else t, c.again);
  }

  /** At every finish of the session all that is signalled is cached, and no clear finds a release queued. */
  ghost predicate NothingDangles(s: State, steps: seq<Step>)
    decreases |steps|
  {
    steps != [] ==>
      && (match steps[0]
          case Converts(c) => AllHeld(Converted(s, c).0)
          case Clears => s.pending == [])
      && NothingDangles(After(s, steps[0]), steps[1..])
  }

  /** Over any session of converts, failing anywhere, and clears between them: no finish signals a dropped
      fence or mutex, no clear finds a release queued, and none is left queued. */
  lemma {:induction false} SessionsDangleNothing(s: State, steps: seq<Step>)
    requires Quiet(s) && forall k :: 0 <= k < |steps| ==> StepOk(steps[k])
    ensures NothingDangles(s, steps) && Quiet(Session(s, steps))
    decreases |steps|
  {
    if steps != [] {
      if steps[0].Converts? {
        ConvertedIsRecent(s, steps[0].c);
        ConvertIsQuiet(s, steps[0].c);
      }
      SessionsDangleNothing(After(s, steps[0]), steps[1..]);
    }
  }

  // ---- Acquired equals released after every convert -------------------------------------------

  ghost predicate AllSignal(e: Env) { forall i: nat :: e.signal(i) }

  ghost predicate StepSignals(step: Step) {
    step.Converts? ==> AllSignal(step.c.env) && AllSignal(step.c.finish) && AllSignal(step.c.again)
  }

  lemma {:induction false} WritesConserve(s: State, targets: seq<Target>)
    requires Conserves(s, multiset{})
    ensures Conserves(WriteTargets(s, targets).0, multiset{})
    decreases |targets|
  {
    if targets != [] {
      WriteConserves(s, targets[0].img, targets[0].env, multiset{});
      WritesConserve(Write(s, targets[0].img, targets[0].env).0, targets[1..]);
    }
  }

  lemma ConvertedConserves(s: State, c: Conversion)
    requires Conserves(s, multiset{}) && AllSignal(c.env)
    ensures Conserves(Converted(s, c).0, multiset{})
  {
    ImportConserves(s, c.input, c.env, multiset{});
    WritesConserve(ImportInput(s, c.input, c.env).0, c.targets);
  }

  ghost predicate Balanced(s: State) { Conserves(s, multiset{}) && s.pending == [] && s.acquired == s.released }

  lemma FinishBalancesAll(s: State, e: Env)
    requires Conserves(s, multiset{}) && AllSignal(e)
    ensures Balanced(Finish(s, e).0)
  {
    SignalConserves(s, e, multiset{});
  }

  lemma ConvertBalances(s: State, c: Conversion)
    requires Conserves(s, multiset{}) && StepSignals(Converts(c))
    ensures Balanced(Convert(s, c).0)
  {
    ConvertedConserves(s, c);
    var (t, ok) := Converted(s, c);
    FinishBalancesAll(t, c.finish);
    FinishBalancesAll(if ok then Finish(t, c.finish).0 else t, c.again);
  }

  /** With no signal failing, after every convert of a session, failing anywhere, clears between them or
      not: every mutex acquired has been released, as often as it was acquired. */
  lemma {:induction false} SessionsBalance(s: State, steps: seq<Step>)
    requires Balanced(s) && forall k :: 0 <= k < |steps| ==> StepSignals(steps[k])
    ensures Balanced(Session(s, steps))
    decreases |steps|
  {
    if steps != [] {
      if steps[0].Converts? { ConvertBalances(s, steps[0].c); }
      SessionsBalance(After(s, steps[0]), steps[1..]);
    }
  }

  // ---- The plug-in's own code -----------------------------------------------------------------

  /** lc_stream_convert's calls of the provider. */
  method StreamConvert(p: Provider, c: Conversion) returns (ok: bool)
    modifies p
    ensures p.View() == Convert(old(p.View()), c).0 && ok == Convert(old(p.View()), c).1
  {
    ok := p.ImportImage(c.input, c.env);
    if ok && c.lifted { ok := WriteAll(p, c.targets); } else { ok := false; }
    if ok { ok := p.FinishConvert(c.finish); }
    if !ok { var again := p.FinishConvert(c.again); }
  }

  method WriteAll(p: Provider, targets: seq<Target>) returns (ok: bool)
    modifies p
    ensures p.View() == WriteTargets(old(p.View()), targets).0 && ok == WriteTargets(old(p.View()), targets).1
  {
    ok := true;
    var i := 0;
    while i < |targets| && ok
      invariant 0 <= i <= |targets|
      invariant WriteTargets(old(p.View()), targets)
                == if ok then WriteTargets(p.View(), targets[i..]) else (p.View(), false)
    {
      assert targets[i..][0] == targets[i] && targets[i..][1..] == targets[i + 1..];
      ok := p.WriteTarget(targets[i].img, targets[i].env);
      i := i + 1;
    }
  }
}
