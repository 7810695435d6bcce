/**
 Whether the order of the runtime's descriptors matters, with nothing but the heuristic: the claims are
 those of serving the descriptors in turn, first come first served. Where each panel's monitors are all
 compared by origin, or none is, they never depend on the order exactly when no two different
 descriptors want one display.
 */
module ClaimOrder {
  import opened Common
  import opened Claims
  import opened FirstCome

  // ---- Turn by turn ---------------------------------------------------------------------------

  const FREE := [false, false, false, false, false, false, false, false]

  /** The claim, if any, of a descriptor that SR's own list says nothing of, given what is taken. */
  function TurnFor(v: Descriptor, c: Inputs, taken: seq<bool>): (r: Option<Slot>)
    ensures r.Some? && r.value.Bound? ==> c.displays.Some? && r.value.j < |c.displays.value|
  {
    if c.displays.None? then Known(v, c) else Heuristic(v, c, taken)
  }

  function Written(v: Descriptor, c: Inputs, slot: Option<Slot>): seq<(Claim, Binding)>
    requires slot.Some? && slot.value.Bound? ==> c.displays.Some? && slot.value.j < |c.displays.value|
  {
    if slot.Some? then [Outcome(v, c, slot.value)] else []
  }

  function Taking(taken: seq<bool>, slot: Option<Slot>): seq<bool> {
    if slot.Some? then Take(taken, slot.value) else taken
  }

  /** The claims and bindings of these descriptors' turns, one after the other. */
  function Turns(c: Inputs, descs: seq<Descriptor>, taken: seq<bool>): seq<(Claim, Binding)> {
    if descs == [] then [] else
    var slot := TurnFor(descs[0], c, taken);
    Written(descs[0], c, slot) + Turns(c, descs[1..], Taking(taken, slot))
  }

  ghost predicate AllOk(p: Problem, rows: seq<Row>) {
    forall k :: 0 <= k < |rows| ==> RowOk(p, rows[k])
  }

  /** The claims and bindings of a whole assignment, in order. */
  function Outcomes(p: Problem, rows: seq<Row>): seq<(Claim, Binding)>
    requires AllOk(p, rows)
  {
    seq(|rows|, k requires 0 <= k < |rows| => OutcomeOf(p, rows[k]))
  }

  lemma OutcomesCons(p: Problem, row: Row, rest: seq<Row>)
    requires RowOk(p, row) && AllOk(p, rest)
    ensures AllOk(p, [row] + rest) && Outcomes(p, [row] + rest) == [OutcomeOf(p, row)] + Outcomes(p, rest)
  {
  }

  /** The claims and bindings of a problem, in the order they are written. */
  function Claimed(descs: seq<Descriptor>, given: Inputs): seq<(Claim, Binding)> {
    var p := Pose(descs, given);
    RowsAreFine(p, |descs|);
    Outcomes(p, Rows(p, |descs|))
  }

  lemma RowsAreFine(p: Problem, room: nat)
    requires Posed(p)
    ensures AllOk(p, Rows(p, room))
  {
    AssignmentIsOk(p, TurnOf(p), 0, OwnedSlots(p.joins), room);
  }

  lemma {:induction false} AssignmentIsOk(p: Problem, turn: Turn, i: nat, taken: seq<bool>, room: nat)
    requires Posed(p) && i <= |p.descs|
    requires forall x: nat, t :: x < |p.descs| ==> turn(x, t) == Decide(p, x, t)
    ensures AllOk(p, Assign(turn, |p.descs|, i, taken, room))
    decreases |p.descs| - i
  {
    if i < |p.descs| && room > 0 {
      match turn(i, taken)
      case None => AssignmentIsOk(p, turn, i + 1, taken, room);
      case Some(slot) => AssignmentIsOk(p, turn, i + 1, Take(taken, slot), room - 1);
    }
  }

  /** No list of SR's own to join by. */
  predicate Unlisted(c: Inputs) {
    c.displays.None? || (c.monitors == [] && |c.displays.value| <= MAX_SR_DISPLAYS)
  }

  lemma DecideIs(p: Problem, i: nat, taken: seq<bool>)
    requires Posed(p) && p.joins == Joins(p.descs, p.c) && Unlisted(p.c) && i < |p.descs|
    ensures Decide(p, i, taken) == TurnFor(p.descs[i], p.c, taken)
  {
    assert p.joins[i] == NoRow;
  }

  lemma {:induction false} AssignIsTurns(p: Problem, turn: Turn, i: nat, taken: seq<bool>, room: nat)
    requires Posed(p) && p.joins == Joins(p.descs, p.c) && Unlisted(p.c)
    requires i <= |p.descs| && |p.descs| - i <= room
    requires forall x: nat, t :: x < |p.descs| ==> turn(x, t) == Decide(p, x, t)
    ensures var rows := Assign(turn, |p.descs|, i, taken, room);
            AllOk(p, rows) && Outcomes(p, rows) == Turns(p.c, p.descs[i..], taken)
    decreases |p.descs| - i
  {
    if i < |p.descs| {
      var v, d := p.descs[i], turn(i, taken);
      DecideIs(p, i, taken);
      assert p.descs[i..][0] == v && p.descs[i..][1..] == p.descs[i + 1..];
      var t := Taking(taken, d);
      var left := if d.Some? then room - 1 else room;
      AssignIsTurns(p, turn, i + 1, t, left);
      if d.Some? { OutcomesCons(p, Row(i, d.value), Assign(turn, |p.descs|, i + 1, t, left)); }
    }
  }

  /** With no list of SR's own, the claims and bindings are those of the descriptors' turns. */
  lemma {:induction false} ClaimedIsTurns(descs: seq<Descriptor>, given: Inputs)
    requires Unlisted(Clamped(given))
    ensures Claimed(descs, given) == Turns(Clamped(given), descs, FREE)
  {
    var p := Pose(descs, given);
    forall j: nat | j < MAX_SR_DISPLAYS ensures !OwnedSlots(p.joins)[j] {
      FirstNone(p.joins, (x: Join) => x == Joined(j));
    }
    assert OwnedSlots(p.joins) == FREE;
    AssignIsTurns(p, TurnOf(p), 0, FREE, |descs|);
    assert descs[0..] == descs;
  }

  lemma {:induction false} TurnsCons(c: Inputs, v: Descriptor, r: seq<Descriptor>, taken: seq<bool>)
    ensures var slot := TurnFor(v, c, taken);
            Turns(c, [v] + r, taken) == Written(v, c, slot) + Turns(c, r, Taking(taken, slot))
  {
    assert ([v] + r)[1..] == r;
  }

  // ---- What a descriptor wants ----------------------------------------------------------------

  /** Every display of the descriptor's panel is compared with it by origin. */
  ghost predicate Sited(v: Descriptor, ds: seq<SrDisplay>) {
    v.pos.Some? && forall j :: 0 <= j < |ds| && SamePanel(v, ds[j]) ==> ds[j].desktopGlobal
  }

  /** None is. */
  ghost predicate Placeless(v: Descriptor, ds: seq<SrDisplay>) {
    v.pos.Some? ==> forall j :: 0 <= j < |ds| && SamePanel(v, ds[j]) ==> !ds[j].desktopGlobal
  }

  ghost predicate OriginsDiffer(v: Descriptor, ds: seq<SrDisplay>) {
    forall a, b :: 0 <= a < b < |ds| && SamePanel(v, ds[a]) && SamePanel(v, ds[b]) ==> ds[a].at != ds[b].at
  }

  /** One or the other. */
  ghost predicate Settled(v: Descriptor, ds: seq<SrDisplay>) {
    (Sited(v, ds) && OriginsDiffer(v, ds)) || Placeless(v, ds)
  }

  /** And the same for both, if they are of one panel. */
  ghost predicate Alike(v: Descriptor, w: Descriptor, ds: seq<SrDisplay>) {
    v.man == w.man && v.prod == w.prod ==> (Sited(v, ds) && Sited(w, ds)) || (Placeless(v, ds) && Placeless(w, ds))
  }

  /** Panel by panel, the monitors are all compared by origin, or none is. */
  ghost predicate Uniform(descs: seq<Descriptor>, c: Inputs) {
    && Unlisted(c)
    && (c.displays.Some? ==>
          && (forall v :: v in descs ==> Settled(v, c.displays.value))
          && forall v, w :: v in descs && w in descs ==> Alike(v, w, c.displays.value))
  }

  /** This display is the only one of the descriptor's panel. */
  ghost predicate OnlyOne(v: Descriptor, ds: seq<SrDisplay>, j: nat) {
    j < |ds| && SamePanel(v, ds[j]) && forall k :: 0 <= k < |ds| && SamePanel(v, ds[k]) ==> k == j
  }

  /** What a descriptor is matched with while every display is free. */
  function AtFirst(v: Descriptor, c: Inputs): Match {
    if c.displays.None? then NoMatch else MatchSr(v, c.displays.value, FREE)
  }

  function KeyOf(v: Descriptor, c: Inputs): Option<nat> {
    if AtFirst(v, c).Found? then Some(AtFirst(v, c).j) else None
  }

  function WithDisplay(v: Descriptor, c: Inputs): seq<(Claim, Binding)> {
    match AtFirst(v, c)
    case Found(j) =>
      if c.displays.Some? && j < |c.displays.value| then [Outcome(v, c, Bound(j, false))] else []
    case _ => []
  }

  function WithoutDisplay(v: Descriptor, c: Inputs): seq<(Claim, Binding)> {
    if AtFirst(v, c).Ambiguous? then [Outcome(v, c, Twin)]
    else if InTable(v, c) then [Outcome(v, c, TableOnly)] else []
  }

  function Counter(c: Inputs): Desk<Descriptor, (Claim, Binding)> {
    Desk((v: Descriptor) => KeyOf(v, c), (v: Descriptor) => WithDisplay(v, c), (v: Descriptor) => WithoutDisplay(v, c))
  }

  /** The display the descriptor would get if it came first: the one at its origin, or the only one. */
  ghost predicate Wants(v: Descriptor, ds: seq<SrDisplay>, j: nat) {
    j < |ds| && SamePanel(v, ds[j]) && if Sited(v, ds) then v.pos == Some(ds[j].at) else OnlyOne(v, ds, j)
  }

  lemma SitedMatch(v: Descriptor, ds: seq<SrDisplay>, taken: seq<bool>)
    requires Sited(v, ds)
    ensures forall k :: !Unplaced(v, ds, taken, k)
    ensures forall k :: AtOrigin(v, ds, taken, k)
                        <==> 0 <= k < |ds| && k < |taken| && !taken[k] && SamePanel(v, ds[k]) && v.pos == Some(ds[k].at)
  {
  }

  lemma PlacelessMatch(v: Descriptor, ds: seq<SrDisplay>, taken: seq<bool>)
    requires Placeless(v, ds)
    ensures forall k :: !AtOrigin(v, ds, taken, k)
    ensures forall k :: Unplaced(v, ds, taken, k) <==> 0 <= k < |ds| && k < |taken| && !taken[k] && SamePanel(v, ds[k])
  {
  }

  lemma FoundAtFirstIff(v: Descriptor, c: Inputs, j: nat)
    requires c.displays.Some? && |c.displays.value| <= MAX_SR_DISPLAYS && Settled(v, c.displays.value)
    ensures AtFirst(v, c) == Found(j) <==> Wants(v, c.displays.value, j)
  {
    var ds := c.displays.value;
    MatchSrMatches(v, ds, FREE);
    if Sited(v, ds) && OriginsDiffer(v, ds) {
      SitedMatch(v, ds, FREE);
    } else {
      PlacelessMatch(v, ds, FREE);
    }
    if Wants(v, ds, j) { MatchIsUnique(v, ds, FREE, Found(j)); }
  }

  // ---- First come, first served ---------------------------------------------------------------

  /** Exactly the displays gone are taken, and each is what one of the descriptors wants. */
  ghost predicate TakenAre(descs: seq<Descriptor>, c: Inputs, taken: seq<bool>, gone: set<nat>) {
    && |taken| == MAX_SR_DISPLAYS
    && (forall j: nat :: j < |taken| ==> (taken[j] <==> j in gone))
    && forall j: nat :: j in gone ==> exists w :: w in descs && AtFirst(w, c) == Found(j)
  }

  /** A turn gives what the descriptor wants if it is still free, and else what goes without. */
  ghost predicate TurnGives(v: Descriptor, c: Inputs, r: Match, gone: set<nat>) {
    match AtFirst(v, c)
    case Found(j) => r == if j in gone then NoMatch else Found(j)
    case m => r == m
  }

  lemma SitedTurn(v: Descriptor, c: Inputs, taken: seq<bool>, gone: set<nat>)
    requires c.displays.Some? && |c.displays.value| <= MAX_SR_DISPLAYS && |taken| == MAX_SR_DISPLAYS
    requires forall j: nat :: j < |taken| ==> (taken[j] <==> j in gone)
    requires Sited(v, c.displays.value) && OriginsDiffer(v, c.displays.value)
    ensures TurnGives(v, c, MatchSr(v, c.displays.value, taken), gone)
  {
    var ds := c.displays.value;
    MatchSrMatches(v, ds, FREE);
    SitedMatch(v, ds, FREE);
    SitedMatch(v, ds, taken);
    match AtFirst(v, c) {
      case Found(j) => MatchIsUnique(v, ds, taken, if j in gone then NoMatch else Found(j));
      case _ => MatchIsUnique(v, ds, taken, NoMatch);
    }
  }

  /** Of several displays of a panel compared by no origin, nobody wants any. */
  lemma NobodyWants(descs: seq<Descriptor>, v: Descriptor, c: Inputs, a: nat, b: nat)
    requires Uniform(descs, c) && c.displays.Some? && v in descs && Placeless(v, c.displays.value)
    requires a < |c.displays.value| && b < |c.displays.value| && a != b
    requires SamePanel(v, c.displays.value[a]) && SamePanel(v, c.displays.value[b])
    ensures forall w :: w in descs ==> AtFirst(w, c) != Found(a)
  {
    var ds := c.displays.value;
    forall w | w in descs ensures AtFirst(w, c) != Found(a) {
      FoundAtFirstIff(w, c, a);
      assert Alike(v, w, ds);
      assert SamePanel(w, ds[a]) ==> SamePanel(w, ds[b]) && !OnlyOne(w, ds, a) && !Sited(w, ds);
    }
  }

  lemma PlacelessTurn(descs: seq<Descriptor>, v: Descriptor, c: Inputs, taken: seq<bool>, gone: set<nat>)
    requires Uniform(descs, c) && c.displays.Some? && v in descs && Placeless(v, c.displays.value)
    requires TakenAre(descs, c, taken, gone)
    ensures TurnGives(v, c, MatchSr(v, c.displays.value, taken), gone)
  {
    var ds := c.displays.value;
    MatchSrMatches(v, ds, FREE);
    PlacelessMatch(v, ds, FREE);
    PlacelessMatch(v, ds, taken);
    match AtFirst(v, c) {
      case Found(j) => MatchIsUnique(v, ds, taken, if j in gone then NoMatch else Found(j));
      case NoMatch => MatchIsUnique(v, ds, taken, NoMatch);
      case Ambiguous =>
        var a, b :| a < b && Unplaced(v, ds, FREE, a) && Unplaced(v, ds, FREE, b);
        NobodyWants(descs, v, c, a, b);
        NobodyWants(descs, v, c, b, a);
        assert a !in gone && b !in gone;
        assert Unplaced(v, ds, taken, a) && Unplaced(v, ds, taken, b);
        MatchIsUnique(v, ds, taken, Ambiguous);
    }
  }

  lemma TurnIs(descs: seq<Descriptor>, v: Descriptor, c: Inputs, taken: seq<bool>, gone: set<nat>)
    requires Uniform(descs, c) && c.displays.Some? && v in descs && TakenAre(descs, c, taken, gone)
    ensures TurnGives(v, c, MatchSr(v, c.displays.value, taken), gone)
  {
    assert Settled(v, c.displays.value);
    if Placeless(v, c.displays.value) {
      PlacelessTurn(descs, v, c, taken, gone);
    } else {
      SitedTurn(v, c, taken, gone);
    }
  }

  /** So a turn serves its descriptor, and takes what it gives. */
  lemma TurnServes(descs: seq<Descriptor>, v: Descriptor, c: Inputs, taken: seq<bool>, gone: set<nat>)
    requires Uniform(descs, c) && v in descs && TakenAre(descs, c, taken, gone)
    ensures var slot := TurnFor(v, c, taken);
            && Written(v, c, slot) == One(Counter(c), v, gone)
            && TakenAre(descs, c, Taking(taken, slot), Left(Counter(c), v, gone))
  {
    if c.displays.Some? {
      TurnIs(descs, v, c, taken, gone);
      FoundIsFree(v, c.displays.value, FREE);
    }
  }

  lemma {:induction false} TurnsServe(descs: seq<Descriptor>, rest: seq<Descriptor>, c: Inputs, taken: seq<bool>,
                                      gone: set<nat>)
    requires Uniform(descs, c) && TakenAre(descs, c, taken, gone) && forall v :: v in rest ==> v in descs
    ensures Turns(c, rest, taken) == Serve(Counter(c), rest, gone)
    decreases |rest|
  {
    if rest != [] {
      var v := rest[0];
      TurnServes(descs, v, c, taken, gone);
      var t, g := Taking(taken, TurnFor(v, c, taken)), Left(Counter(c), v, gone);
      TurnsServe(descs, rest[1..], c, t, g);
    }
  }

  /** The claims and bindings of any order of the descriptors are those of serving them in that order. */
  lemma {:induction false} ClaimedIsServed(descs: seq<Descriptor>, other: seq<Descriptor>, given: Inputs)
    requires Uniform(descs, Clamped(given)) && multiset(other) == multiset(descs)
    ensures Claimed(other, given) == Serve(Counter(Clamped(given)), other, {})
  {
    ClaimedIsTurns(other, given);
    forall v | v in other ensures v in descs { assert v in multiset(other); }
    TurnsServe(descs, other, Clamped(given), FREE, {});
  }

  // ---- Exactly when order matters -------------------------------------------------------------

  /** A claim bound to this display looks like one bound to none. */
  predicate Blank(d: SrDisplay) {
    d.displayId == 0 && d.hmonitor == 0 && d.deviceName == "" && d.widthMm == 0 && d.heightMm == 0
    && d.nativeW == 0 && d.nativeH == 0 && !d.fpcVerified
  }

  /** Two different descriptors that want one display: only the first gets it. */
  ghost predicate Contest(a: Descriptor, b: Descriptor, c: Inputs, j: nat) {
    && c.displays.Some? && a != b && Wants(a, c.displays.value, j) && Wants(b, c.displays.value, j)
    && !(InTable(a, c) && Blank(c.displays.value[j]))
  }

  lemma RivalsAt(a: Descriptor, b: Descriptor, c: Inputs, j: nat)
    requires c.displays.Some? && j < |c.displays.value| && AtFirst(a, c) == AtFirst(b, c) == Found(j)
    requires SamePanel(a, c.displays.value[j]) && SamePanel(b, c.displays.value[j])
    ensures Rivals(Counter(c), a, b) <==> a != b && !(InTable(a, c) && Blank(c.displays.value[j]))
  {
    RivalsOf(Counter(c), a, b, Outcome(a, c, Bound(j, false)), Outcome(a, c, TableOnly),
             Outcome(b, c, Bound(j, false)), Outcome(b, c, TableOnly), InTable(a, c));
  }

  lemma RivalsIff(a: Descriptor, b: Descriptor, c: Inputs)
    requires Unlisted(c) && (c.displays.Some? ==> Settled(a, c.displays.value) && Settled(b, c.displays.value))
    ensures Rivals(Counter(c), a, b) <==> exists j: nat :: Contest(a, b, c, j)
  {
    if c.displays.Some? {
      var ds := c.displays.value;
      forall j: nat ensures AtFirst(a, c) == Found(j) <==> Wants(a, ds, j) { FoundAtFirstIff(a, c, j); }
      forall j: nat ensures AtFirst(b, c) == Found(j) <==> Wants(b, ds, j) { FoundAtFirstIff(b, c, j); }
      if j: nat :| Wants(a, ds, j) && Wants(b, ds, j) {
        RivalsAt(a, b, c, j);
        assert Rivals(Counter(c), a, b) <==> Contest(a, b, c, j);
      }
    }
  }

  ghost predicate Contested(descs: seq<Descriptor>, c: Inputs) {
    exists a, b, j: nat :: a in descs && b in descs && Contest(a, b, c, j)
  }

  /** The order the descriptors come in never matters. */
  ghost predicate AnyOrder(descs: seq<Descriptor>, given: Inputs) {
    forall other: seq<Descriptor> :: multiset(other) == multiset(descs) ==>
      multiset(Claimed(other, given)) == multiset(Claimed(descs, given))
  }

  lemma FairIff(descs: seq<Descriptor>, c: Inputs)
    requires Uniform(descs, c)
    ensures Fair(Counter(c), descs) <==> !Contested(descs, c)
  {
    forall a, b | a in descs && b in descs
      ensures Rivals(Counter(c), a, b) <==> exists j: nat :: Contest(a, b, c, j)
    {
      RivalsIff(a, b, c);
    }
  }

  /** Where each panel's monitors are all compared by origin, or none is, every order of the descriptors
      gives the same claims, bindings and all, exactly when no two different descriptors want one display,
      unless that panel is known anyway and the display says nothing. */
  lemma OrderNeverMattersIff(descs: seq<Descriptor>, given: Inputs)
    requires Uniform(descs, Clamped(given))
    ensures AnyOrder(descs, given) <==> !Contested(descs, Clamped(given))
  {
    var c := Clamped(given);
    FairIff(descs, c);
    OrderFreeIff(Counter(c), descs);
    forall other: seq<Descriptor> | multiset(other) == multiset(descs)
      ensures Claimed(other, given) == Serve(Counter(c), other, {})
    {
      ClaimedIsServed(descs, other, given);
    }
  }

  // ---- Everything placed and distinct ---------------------------------------------------------

  ghost predicate DistinctOrigins(ds: seq<SrDisplay>) {
    forall a, b :: 0 <= a < b < |ds| ==> ds[a].at != ds[b].at
  }

  ghost predicate DistinctPositions(descs: seq<Descriptor>) {
    forall a, b :: 0 <= a < b < |descs| ==> descs[a].pos != descs[b].pos
  }

  /** Either SR predates the display list, or every side of the heuristic is placed and distinct. */
  ghost predicate Placed(descs: seq<Descriptor>, c: Inputs) {
    c.displays.Some? ==>
      && c.monitors == []
      && |c.displays.value| <= MAX_SR_DISPLAYS
      && (forall j :: 0 <= j < |c.displays.value| ==> c.displays.value[j].desktopGlobal)
      && (forall i :: 0 <= i < |descs| ==> descs[i].pos.Some?)
      && DistinctOrigins(c.displays.value)
      && DistinctPositions(descs)
  }

  lemma PlacedIsUniform(descs: seq<Descriptor>, c: Inputs)
    requires Placed(descs, c)
    ensures Uniform(descs, c) && !Contested(descs, c)
  {
    forall a, b, j: nat | a in descs && b in descs ensures !Contest(a, b, c, j) {
      var i :| 0 <= i < |descs| && descs[i] == a;
      var k :| 0 <= k < |descs| && descs[k] == b;
    }
  }

  /** Permuting the descriptors permutes the claims, bindings and all, and changes nothing else. */
  lemma PermutingDescriptorsPermutesClaims(descs: seq<Descriptor>, other: seq<Descriptor>, given: Inputs)
    requires multiset(descs) == multiset(other) && Placed(descs, Clamped(given))
    ensures multiset(Claimed(descs, given)) == multiset(Claimed(other, given))
  {
    PlacedIsUniform(descs, Clamped(given));
    OrderNeverMattersIff(descs, given);
  }

  // ---- Elsewhere ------------------------------------------------------------------------------

  function OneGets(a: Descriptor, b: Descriptor, c: Inputs): multiset<(Claim, Binding)> {
    multiset(WithDisplay(a, c)) + multiset(WithoutDisplay(b, c))
  }

  lemma {:induction false} OnlyDisplayTurns(c: Inputs, a: Descriptor, b: Descriptor, r: seq<Descriptor>, j: nat)
    requires Unlisted(c) && c.displays.Some? && OnlyOne(a, c.displays.value, j) && SamePanel(b, c.displays.value[j])
    requires AtFirst(a, c) == AtFirst(b, c) == Found(j)
    ensures Turns(c, [a, b] + r, FREE)
            == WithDisplay(a, c) + (WithoutDisplay(b, c) + Turns(c, r, FREE[j := true]))
  {
    var ds, t := c.displays.value, FREE[j := true];
    assert [a, b] + r == [a] + ([b] + r);
    TurnsCons(c, a, [b] + r, FREE);
    TurnsCons(c, b, r, t);
    MatchIsUnique(b, ds, t, NoMatch);
  }

  lemma {:induction false} OnlyDisplayGoes(c: Inputs, a: Descriptor, b: Descriptor, r: seq<Descriptor>, j: nat)
    requires Unlisted(c) && c.displays.Some? && OnlyOne(a, c.displays.value, j) && SamePanel(b, c.displays.value[j])
    requires AtFirst(a, c) == AtFirst(b, c) == Found(j)
    ensures multiset(Turns(c, [a, b] + r, FREE)) == OneGets(a, b, c) + multiset(Turns(c, r, FREE[j := true]))
  {
    OnlyDisplayTurns(c, a, b, r, j);
    ThreeParts(WithDisplay(a, c), WithoutDisplay(b, c), Turns(c, r, FREE[j := true]));
  }

  lemma ThreeParts<T>(x: seq<T>, y: seq<T>, z: seq<T>)
    ensures multiset(x + (y + z)) == (multiset(x) + multiset(y)) + multiset(z)
  {
  }

  lemma RivalsDiffer(c: Inputs, a: Descriptor, b: Descriptor, j: nat)
    requires UpForOnly(a, b, c, j)
    ensures OneGets(a, b, c) != OneGets(b, a, c)
  {
    RivalsAt(a, b, c, j);
  }

  lemma {:induction false} OnlyDisplayDecides(c: Inputs, a: Descriptor, b: Descriptor, r: seq<Descriptor>, j: nat)
    requires Unlisted(c) && UpForOnly(a, b, c, j)
    ensures multiset(Turns(c, [a, b] + r, FREE)) != multiset(Turns(c, [b, a] + r, FREE))
  {
    OnlyDisplayGoes(c, a, b, r, j);
    OnlyDisplayGoes(c, b, a, r, j);
    RivalsDiffer(c, a, b, j);
    Cancel(OneGets(a, b, c), OneGets(b, a, c), multiset(Turns(c, r, FREE[j := true])));
  }

  /** Different descriptors that would both get the only display of their panel, which says something. */
  ghost predicate UpForOnly(a: Descriptor, b: Descriptor, c: Inputs, j: nat) {
    && c.displays.Some? && a != b && OnlyOne(a, c.displays.value, j) && SamePanel(b, c.displays.value[j])
    && AtFirst(a, c) == AtFirst(b, c) == Found(j) && !(InTable(a, c) && Blank(c.displays.value[j]))
  }

  /** In any problem without a list of SR's own, however placed: if the order never matters, no two
      different descriptors are up for the only display of their panel. */
  lemma AnyOrderNeedsNoContest(descs: seq<Descriptor>, given: Inputs)
    requires Unlisted(Clamped(given)) && AnyOrder(descs, given)
    ensures forall a, b, j: nat :: a in descs && b in descs ==> !UpForOnly(a, b, Clamped(given), j)
  {
    var c := Clamped(given);
    forall a, b, j: nat | a in descs && b in descs ensures !UpForOnly(a, b, c, j) {
      if a != b {
        var r := TwoToFront(descs, a, b);
        ClaimedIsTurns([a, b] + r, given);
        ClaimedIsTurns([b, a] + r, given);
        if UpForOnly(a, b, c, j) { OnlyDisplayDecides(c, a, b, r, j); }
      }
    }
  }

  lemma FirstTwinWins(a: Descriptor, b: Descriptor, given: Inputs)
    requires given.monitors == [] && given.displays.Some? && |given.displays.value| == 1
    requires a.pos.None? && b.pos.None? && !InTable(a, given) && !InTable(b, given)
    requires SamePanel(a, given.displays.value[0]) && SamePanel(b, given.displays.value[0])
    ensures |Claimed([a, b], given)| == 1 && Claimed([a, b], given)[0].0.monitorId == a.monitorId
  {
    var c := Clamped(given);
    FoundAtFirstIff(a, c, 0);
    FoundAtFirstIff(b, c, 0);
    ClaimedIsTurns([a, b], given);
    assert [a, b] + [] == [a, b];
    OnlyDisplayTurns(c, a, b, [], 0);
  }

  /** Without positions it does matter: of two identical monitors, the first one listed gets the only
      SR display, serial and all. */
  lemma OrderMattersWithoutPositions()
    ensures var a, b := Descriptor(1, 7, 9, None, 0, 0), Descriptor(2, 7, 9, None, 0, 0);
            var d := SrDisplay(5, true, "S", 7, 9, 0, Origin(0, 0), true, 0, 0, 0, 0, "", 0);
            var given := Inputs(Some([d]), (_, _) => false, false, 0, [], _ => 0);
            && |Claimed([a, b], given)| == 1 && Claimed([a, b], given)[0].0.monitorId == 1
            && |Claimed([b, a], given)| == 1 && Claimed([b, a], given)[0].0.monitorId == 2
  {
    var a, b := Descriptor(1, 7, 9, None, 0, 0), Descriptor(2, 7, 9, None, 0, 0);
    var d := SrDisplay(5, true, "S", 7, 9, 0, Origin(0, 0), true, 0, 0, 0, 0, "", 0);
    var given := Inputs(Some([d]), (_, _) => false, false, 0, [], _ => 0);
    FirstTwinWins(a, b, given);
    FirstTwinWins(b, a, given);
  }

  lemma {:induction false} TwoTurns(c: Inputs, a: Descriptor, b: Descriptor)
    ensures var first := TurnFor(a, c, FREE);
            Turns(c, [a, b], FREE) == Written(a, c, first) + Written(b, c, TurnFor(b, c, Taking(FREE, first)))
  {
    var t := Taking(FREE, TurnFor(a, c, FREE));
    assert [a, b] == [a] + [b] && [b] == [b] + [];
    TurnsCons(c, a, [b], FREE);
    TurnsCons(c, b, [], t);
  }

  /** Within one panel, a monitor with a position and one without: nothing is contested, but the one
      without is ambiguous unless the other has taken its own display before. */
  lemma MixedPanelsMatter(a: Descriptor, b: Descriptor, given: Inputs)
    requires given.monitors == [] && given.displays.Some? && |given.displays.value| == 2
    requires var ds := given.displays.value;
             && (forall j :: 0 <= j < 2 ==> ds[j].desktopGlobal && SamePanel(a, ds[j]) && SamePanel(b, ds[j]))
             && a.pos == Some(ds[0].at) && b.pos.None? && ds[1].at != ds[0].at && ds[1].displayId != 0
    ensures Claimed([a, b], given) == [Outcome(a, Clamped(given), Bound(0, false)),
                                       Outcome(b, Clamped(given), Bound(1, false))]
    ensures Claimed([b, a], given) == [Outcome(b, Clamped(given), Twin), Outcome(a, Clamped(given), Bound(0, false))]
    ensures Outcome(b, Clamped(given), Bound(1, false)) != Outcome(b, Clamped(given), Twin)
  {
    var c := Clamped(given);
    var ds, t := c.displays.value, FREE[0 := true];
    ClaimedIsTurns([a, b], given);
    ClaimedIsTurns([b, a], given);
    TwoTurns(c, a, b);
    TwoTurns(c, b, a);
    assert AtOrigin(a, ds, FREE, 0);
    MatchIsUnique(a, ds, FREE, Found(0));
    PlacelessMatch(b, ds, FREE);
    PlacelessMatch(b, ds, t);
    assert Unplaced(b, ds, FREE, 0) && Unplaced(b, ds, FREE, 1);
    MatchIsUnique(b, ds, FREE, Ambiguous);
    MatchIsUnique(b, ds, t, Found(1));
  }
}
