/**
 Per-monitor display claims on Windows: the runtime's monitors are assigned to SR's displays in two
 passes, SR's own join first and then an EDID and origin heuristic that may answer "ambiguous".
 */
module Claims {
  import opened Common

  const MAX_SR_DISPLAYS := 8
  const MAX_SR_MONITORS := 16

  datatype Origin = Origin(left: int, top: int)

  /** One OS monitor as the runtime describes it; `pos` is None for a pre-position descriptor. */
  datatype Descriptor = Descriptor(
    monitorId: nat, man: nat, prod: nat, pos: Option<Origin>, pixelW: nat, pixelH: nat)

  datatype SrDisplay = SrDisplay(
    displayId: nat, fpcVerified: bool, serial: string, man: nat, prod: nat, edidSerial: nat,
    at: Origin, desktopGlobal: bool, nativeW: nat, nativeH: nat, widthMm: nat, heightMm: nat,
    deviceName: string, hmonitor: nat)

  datatype SrMonitor = SrMonitor(
    srDisplayId: nat, hmonitor: nat, at: Origin, man: nat, prod: nat, edidSerial: nat)

  /** `displays` is None when SR predates the enumeration; an absent monitor list is empty; a missing
      HMONITOR resolver answers 0 and a missing table contains nothing. */
  datatype Inputs = Inputs(
    displays: Option<seq<SrDisplay>>, inTable: (nat, nat) -> bool, legacyVerified: bool, apis: nat,
    monitors: seq<SrMonitor>, monitorAt: Origin -> nat)

  datatype Confidence = Edid | Verified

  datatype Claim = Claim(monitorId: nat, apis: nat, confidence: Confidence, serial: string)

  datatype Binding = Binding(
    monitorId: nat, srDisplayId: nat, hmonitor: nat, deviceName: string, srJoined: bool,
    widthMm: nat, heightMm: nat, nativeW: nat, nativeH: nat, fpcVerified: bool, serial: string,
    pos: Option<Origin>, pixelW: nat, pixelH: nat, verified: bool)

  function Upto<T>(s: seq<T>, n: nat): (r: seq<T>)
    ensures r <= s && |r| == if |s| <= n then |s| else n
  {
    if |s| <= n then s else s[..n]
  }

  /** Only the first 8 SR displays and 16 SR monitors are looked at. */
  function Clamped(c: Inputs): (r: Inputs)
    ensures r.displays.Some? ==> |r.displays.value| <= MAX_SR_DISPLAYS
  {
    c.(displays := match c.displays case None => None case Some(ds) => Some(Upto(ds, MAX_SR_DISPLAYS)),
       monitors := Upto(c.monitors, MAX_SR_MONITORS))
  }

  // ---- The two matching rules -----------------------------------------------------------------

  datatype Join = NoRow | NotSr | Joined(j: nat)

  predicate SamePanel(v: Descriptor, d: SrDisplay) {
    d.man == v.man && d.prod == v.prod
  }

  function RowTest(v: Descriptor, c: Inputs): SrMonitor -> bool
    requires v.pos.Some?
  {
    var hmon := c.monitorAt(v.pos.value);
    (m: SrMonitor) => if hmon != 0 then m.hmonitor == hmon else m.at == v.pos.value
  }

  predicate Contradicts(v: Descriptor, m: SrMonitor) {
    v.man != 0 && m.man != 0 && (m.man != v.man || m.prod != v.prod)
  }

  function IdTest(id: nat): SrDisplay -> bool {
    (d: SrDisplay) => d.displayId == id
  }

  /** SR's own join for one descriptor. */
  function JoinTarget(v: Descriptor, c: Inputs): (r: Join)
    ensures r.Joined? ==> c.displays.Some? && r.j < |c.displays.value|
  {
    if c.displays.None? || c.monitors == [] || v.pos.None? then NoRow else
    FirstFacts(c.monitors, RowTest(v, c));
    match First(c.monitors, RowTest(v, c))
    case None => NoRow
    case Some(k) =>
      var row := c.monitors[k];
      if Contradicts(v, row) then NoRow
      else if row.srDisplayId == 0 then NotSr
      else
        FirstFacts(c.displays.value, IdTest(row.srDisplayId));
        match First(c.displays.value, IdTest(row.srDisplayId))
           case None => NoRow
           case Some(j) => Joined(j)
  }

  datatype Match = NoMatch | Ambiguous | Found(j: nat)

  /** A free display with the descriptor's ids, sitting at the descriptor's origin. */
  predicate AtOrigin(v: Descriptor, ds: seq<SrDisplay>, taken: seq<bool>, j: int) {
    0 <= j < |ds| && j < |taken| && !taken[j] && SamePanel(v, ds[j])
    && ds[j].desktopGlobal && v.pos == Some(ds[j].at)
  }

  /** A free display with the descriptor's ids whose place on the desktop is not known. */
  predicate Unplaced(v: Descriptor, ds: seq<SrDisplay>, taken: seq<bool>, j: int) {
    0 <= j < |ds| && j < |taken| && !taken[j] && SamePanel(v, ds[j]) && !(ds[j].desktopGlobal && v.pos.Some?)
  }

  /** What the heuristic must answer: the first display at the origin, else the only unplaced one. */
  ghost predicate Matches(v: Descriptor, ds: seq<SrDisplay>, taken: seq<bool>, r: Match) {
    match r
    case Found(j) =>
      || (AtOrigin(v, ds, taken, j) && forall k :: 0 <= k < j ==> !AtOrigin(v, ds, taken, k))
      || ((forall k :: !AtOrigin(v, ds, taken, k))
          && Unplaced(v, ds, taken, j) && forall k :: Unplaced(v, ds, taken, k) ==> k == j)
    case Ambiguous =>
      (forall k :: !AtOrigin(v, ds, taken, k))
      && exists a, b :: a < b && Unplaced(v, ds, taken, a) && Unplaced(v, ds, taken, b)
    case NoMatch =>
      forall k :: !AtOrigin(v, ds, taken, k) && !Unplaced(v, ds, taken, k)
  }

  function FirstAtOrigin(v: Descriptor, ds: seq<SrDisplay>, taken: seq<bool>, k: nat): Option<nat>
    requires k <= |ds|
    decreases |ds| - k
  {
    if k == |ds| then None
    else if AtOrigin(v, ds, taken, k) then Some(k)
    else FirstAtOrigin(v, ds, taken, k + 1)
  }

  /** The only unplaced candidate from `k` on, if there is exactly one. */
  function OnlyUnplaced(v: Descriptor, ds: seq<SrDisplay>, taken: seq<bool>, k: nat): Match
    requires k <= |ds|
    decreases |ds| - k
  {
    if k == |ds| then NoMatch
    else if !Unplaced(v, ds, taken, k) then OnlyUnplaced(v, ds, taken, k + 1)
    else if OnlyUnplaced(v, ds, taken, k + 1).NoMatch? then Found(k)
    else Ambiguous
  }

  function MatchSr(v: Descriptor, ds: seq<SrDisplay>, taken: seq<bool>): Match {
    match FirstAtOrigin(v, ds, taken, 0)
    case Some(j) => Found(j)
    case None => OnlyUnplaced(v, ds, taken, 0)
  }

  lemma {:induction false} FirstAtOriginIs(v: Descriptor, ds: seq<SrDisplay>, taken: seq<bool>, k: nat)
    requires k <= |ds|
    ensures var r := FirstAtOrigin(v, ds, taken, k);
            if r.Some? then k <= r.value && AtOrigin(v, ds, taken, r.value)
                            && forall i :: k <= i < r.value ==> !AtOrigin(v, ds, taken, i)
            else forall i :: k <= i ==> !AtOrigin(v, ds, taken, i)
    decreases |ds| - k
  {
    if k < |ds| {
      FirstAtOriginIs(v, ds, taken, k + 1);
    }
  }

  lemma {:induction false} OnlyUnplacedIs(v: Descriptor, ds: seq<SrDisplay>, taken: seq<bool>, k: nat)
    requires k <= |ds|
    ensures match OnlyUnplaced(v, ds, taken, k)
            case NoMatch => forall i :: k <= i ==> !Unplaced(v, ds, taken, i)
            case Found(j) => k <= j && Unplaced(v, ds, taken, j)
                             && forall i :: k <= i && Unplaced(v, ds, taken, i) ==> i == j
            case Ambiguous => exists a, b :: k <= a < b && Unplaced(v, ds, taken, a) && Unplaced(v, ds, taken, b)
    decreases |ds| - k
  {
    if k < |ds| {
      OnlyUnplacedIs(v, ds, taken, k + 1);
    }
  }

  /** The heuristic answers as it must: origin first, then uniqueness, else ambiguous. */
  lemma MatchSrMatches(v: Descriptor, ds: seq<SrDisplay>, taken: seq<bool>)
    ensures Matches(v, ds, taken, MatchSr(v, ds, taken))
  {
    FirstAtOriginIs(v, ds, taken, 0);
    OnlyUnplacedIs(v, ds, taken, 0);
    if FirstAtOrigin(v, ds, taken, 0).None? {
      assert forall k :: !AtOrigin(v, ds, taken, k);
    }
  }

  /** A found display is free and has the descriptor's ids. */
  lemma FoundIsFree(v: Descriptor, ds: seq<SrDisplay>, taken: seq<bool>)
    ensures var r := MatchSr(v, ds, taken);
            r.Found? ==> r.j < |ds| && r.j < |taken| && !taken[r.j] && SamePanel(v, ds[r.j])
  {
    MatchSrMatches(v, ds, taken);
  }

  /** The heuristic's answer is determined by what it must satisfy. */
  lemma MatchIsUnique(v: Descriptor, ds: seq<SrDisplay>, taken: seq<bool>, r: Match)
    requires Matches(v, ds, taken, r)
    ensures r == MatchSr(v, ds, taken)
  {
    MatchSrMatches(v, ds, taken);
  }

  // ---- The assignment -------------------------------------------------------------------------

  /** The descriptors, the clamped inputs, and SR's own join of each descriptor. */
  datatype Problem = Problem(descs: seq<Descriptor>, c: Inputs, joins: seq<Join>)

  ghost predicate Posed(p: Problem) {
    && |p.joins| == |p.descs|
    && (forall i :: 0 <= i < |p.joins| && p.joins[i].Joined? ==>
          p.c.displays.Some? && p.joins[i].j < |p.c.displays.value|)
    && (p.c.displays.Some? ==> |p.c.displays.value| <= MAX_SR_DISPLAYS)
  }

  function Joins(descs: seq<Descriptor>, c: Inputs): (r: seq<Join>)
    ensures |r| == |descs| && forall i :: 0 <= i < |r| ==> r[i] == JoinTarget(descs[i], c)
  {
    seq(|descs|, i requires 0 <= i < |descs| => JoinTarget(descs[i], c))
  }

  function Pose(descs: seq<Descriptor>, given: Inputs): (p: Problem)
    ensures Posed(p)
  {
    var c := Clamped(given);
    Problem(descs, c, Joins(descs, c))
  }

  /** The descriptor an SR display belongs to by SR's own join: the first that joins it. */
  function Owner(joins: seq<Join>, j: nat): Option<nat> {
    First(joins, (x: Join) => x == Joined(j))
  }

  function OwnedSlots(joins: seq<Join>): (r: seq<bool>)
    ensures |r| == MAX_SR_DISPLAYS && forall j :: 0 <= j < |r| ==> r[j] == Owner(joins, j).Some?
  {
    seq(MAX_SR_DISPLAYS, j requires 0 <= j => Owner(joins, j).Some?)
  }

  /** What a claim is bound to: an SR display, one of several twins, or the table alone. */
  datatype Slot = Bound(j: nat, joined: bool) | Twin | TableOnly

  predicate InTable(v: Descriptor, c: Inputs) { c.inTable(v.man, v.prod) }

  function Known(v: Descriptor, c: Inputs): Option<Slot> {
    if InTable(v, c) then Some(TableOnly) else None
  }

  function Heuristic(v: Descriptor, c: Inputs, taken: seq<bool>): (r: Option<Slot>)
    requires c.displays.Some?
    ensures r.Some? && r.value.Bound? ==>
              !r.value.joined && r.value.j < |c.displays.value| && r.value.j < |taken| && !taken[r.value.j]
    ensures InTable(v, c) ==> r.Some?
  {
    FoundIsFree(v, c.displays.value, taken);
    match MatchSr(v, c.displays.value, taken)
    case Found(j) => Some(Bound(j, false))
    case Ambiguous => Some(Twin)
    case NoMatch => Known(v, c)
  }

  /** The claim, if any, of the descriptor whose turn it is. */
  function Decide(p: Problem, i: nat, taken: seq<bool>): (r: Option<Slot>)
    requires Posed(p) && i < |p.descs|
    ensures r.Some? && r.value.Bound? ==> p.c.displays.Some? && r.value.j < |p.c.displays.value|
  {
    if p.c.displays.None? then Known(p.descs[i], p.c) else
    match p.joins[i]
    case Joined(j) =>
      if Owner(p.joins, j) == Some(i) then Some(Bound(j, true)) else Heuristic(p.descs[i], p.c, taken)
    case NotSr => Known(p.descs[i], p.c)
    case NoRow => Heuristic(p.descs[i], p.c, taken)
  }

  datatype Row = Row(i: nat, slot: Slot)

  function Take(taken: seq<bool>, slot: Slot): (r: seq<bool>)
    ensures |r| == |taken|
  {
    if slot.Bound? && slot.j < |taken| then taken[slot.j := true] else taken
  }

  /** A rule for one descriptor's turn, given which SR displays are taken. */
  type Turn = (nat, seq<bool>) -> Option<Slot>

  function TurnOf(p: Problem): Turn
    requires Posed(p)
  {
    (i: nat, taken: seq<bool>) => if i < |p.descs| then Decide(p, i, taken) else None
  }

  /** The claims of descriptors `i..n`, in order, as long as there is room. */
  function Assign(turn: Turn, n: nat, i: nat, taken: seq<bool>, room: nat): (rows: seq<Row>)
    requires i <= n
    ensures |rows| <= room && |rows| <= n - i
    decreases n - i
  {
    if i == n || room == 0 then [] else
    match turn(i, taken)
    case None => Assign(turn, n, i + 1, taken, room)
    case Some(slot) => [Row(i, slot)] + Assign(turn, n, i + 1, Take(taken, slot), room - 1)
  }

  function Rows(p: Problem, maxClaims: nat): seq<Row>
    requires Posed(p)
  {
    Assign(TurnOf(p), |p.descs|, 0, OwnedSlots(p.joins), maxClaims)
  }

  ghost predicate RowOk(p: Problem, r: Row) {
    r.i < |p.descs| && (r.slot.Bound? ==> p.c.displays.Some? && r.slot.j < |p.c.displays.value|)
  }

  /** The claim and binding a slot becomes. */
  function Outcome(v: Descriptor, c: Inputs, slot: Slot): (Claim, Binding)
    requires slot.Bound? ==> c.displays.Some? && slot.j < |c.displays.value|
  {
    var claim := Claim(v.monitorId, c.apis, Edid, "");
    var b := Binding(v.monitorId, 0, 0, "", false, 0, 0, 0, 0, false, "", v.pos, v.pixelW, v.pixelH, false);
    match slot
    case Twin => (claim, b)
    case TableOnly =>
      if c.displays.None? && c.legacyVerified then (claim.(confidence := Verified), b.(verified := true))
      else (claim, b)
    case Bound(j, joined) =>
      var d := c.displays.value[j];
      var b := b.(srDisplayId := d.displayId, hmonitor := d.hmonitor, deviceName := d.deviceName,
                  srJoined := joined, widthMm := d.widthMm, heightMm := d.heightMm,
                  nativeW := d.nativeW, nativeH := d.nativeH);
      if d.fpcVerified then
        (claim.(confidence := Verified, serial := d.serial),
         b.(fpcVerified := true, serial := d.serial, verified := true))
      else (claim, b)
  }

  // ---- What the assignment guarantees ---------------------------------------------------------

  /** Every joined display is already taken when the heuristic starts. */
  ghost predicate OwnedAreTaken(joins: seq<Join>, taken: seq<bool>) {
    |taken| == MAX_SR_DISPLAYS && forall j :: 0 <= j < |taken| && Owner(joins, j).Some? ==> taken[j]
  }

  /** What one binding promises about the display it binds. */
  ghost predicate Respects(joins: seq<Join>, taken: seq<bool>, r: Row) {
    r.slot.Bound? ==>
      if r.slot.joined then Owner(joins, r.slot.j) == Some(r.i)
      else r.slot.j < |taken| && !taken[r.slot.j] && Owner(joins, r.slot.j).None?
  }

  ghost predicate AllRespect(joins: seq<Join>, taken: seq<bool>, rows: seq<Row>) {
    forall k :: 0 <= k < |rows| ==> Respects(joins, taken, rows[k])
  }

  /** In descriptor order from `i` to below `n`. */
  ghost predicate InOrder(rows: seq<Row>, i: nat, n: nat) {
    (forall k :: 0 <= k < |rows| ==> i <= rows[k].i < n)
    && forall a, b :: 0 <= a < b < |rows| ==> rows[a].i < rows[b].i
  }

  /** No SR display is bound twice. */
  ghost predicate OneToOne(rows: seq<Row>) {
    forall a, b :: 0 <= a < b < |rows| && rows[a].slot.Bound? && rows[b].slot.Bound? ==>
      rows[a].slot.j != rows[b].slot.j
  }

  /** A turn rule that honours SR's joins. */
  ghost predicate Honours(turn: Turn, joins: seq<Join>) {
    forall i, taken :: OwnedAreTaken(joins, taken) && turn(i, taken).Some? ==>
      Respects(joins, taken, Row(i, turn(i, taken).value))
  }

  lemma DecideHonours(p: Problem)
    requires Posed(p)
    ensures Honours(TurnOf(p), p.joins)
  {
    forall i, taken | OwnedAreTaken(p.joins, taken) && TurnOf(p)(i, taken).Some?
      ensures Respects(p.joins, taken, Row(i, TurnOf(p)(i, taken).value))
    {
      assert TurnOf(p)(i, taken) == Decide(p, i, taken);
    }
  }

  /** A join binds only its owner; the heuristic binds only what is free and unjoined. */
  lemma {:induction false} RowsRespectJoins(turn: Turn, n: nat, joins: seq<Join>, i: nat, taken: seq<bool>, room: nat)
    requires i <= n && Honours(turn, joins) && OwnedAreTaken(joins, taken)
    ensures AllRespect(joins, taken, Assign(turn, n, i, taken, room))
    ensures InOrder(Assign(turn, n, i, taken, room), i, n)
    decreases n - i
  {
    if i < n && room > 0 {
      match turn(i, taken)
      case None => RowsRespectJoins(turn, n, joins, i + 1, taken, room);
      case Some(slot) => RowsRespectJoins(turn, n, joins, i + 1, Take(taken, slot), room - 1);
    }
  }

  lemma {:induction false} RowsAreInjective(turn: Turn, n: nat, joins: seq<Join>, i: nat, taken: seq<bool>, room: nat)
    requires i <= n && Honours(turn, joins) && OwnedAreTaken(joins, taken)
    ensures OneToOne(Assign(turn, n, i, taken, room))
    decreases n - i
  {
    if i < n && room > 0 {
      match turn(i, taken)
      case None => RowsAreInjective(turn, n, joins, i + 1, taken, room);
      case Some(slot) =>
        assert Respects(joins, taken, Row(i, slot));
        RowsAreInjective(turn, n, joins, i + 1, Take(taken, slot), room - 1);
        RowsRespectJoins(turn, n, joins, i + 1, Take(taken, slot), room - 1);
    }
  }

  /** No SR display is bound twice, a joined display goes to its first joiner and never to the
      heuristic, and the claims are the descriptors in order, some left out. */
  lemma AssignmentIsInjective(p: Problem, maxClaims: nat)
    requires Posed(p)
    ensures var rows := Rows(p, maxClaims);
            AllRespect(p.joins, OwnedSlots(p.joins), rows) && OneToOne(rows) && InOrder(rows, 0, |p.descs|)
  {
    DecideHonours(p);
    RowsRespectJoins(TurnOf(p), |p.descs|, p.joins, 0, OwnedSlots(p.joins), maxClaims);
    RowsAreInjective(TurnOf(p), |p.descs|, p.joins, 0, OwnedSlots(p.joins), maxClaims);
  }

  lemma UptoCons<T>(x: T, s: seq<T>, n: nat)
    ensures Upto([x] + s, n + 1) == [x] + Upto(s, n)
  {
  }

  /** A smaller buffer only cuts the list short: it never changes who is claimed or bound. */
  lemma {:induction false} FewerClaimsArePrefix(turn: Turn, n: nat, i: nat, taken: seq<bool>, room: nat, more: nat)
    requires i <= n && n - i <= more
    ensures Assign(turn, n, i, taken, room) == Upto(Assign(turn, n, i, taken, more), room)
    decreases n - i
  {
    if i < n && room > 0 {
      match turn(i, taken)
      case None => FewerClaimsArePrefix(turn, n, i + 1, taken, room, more);
      case Some(slot) =>
        FewerClaimsArePrefix(turn, n, i + 1, Take(taken, slot), room - 1, more - 1);
        UptoCons(Row(i, slot), Assign(turn, n, i + 1, Take(taken, slot), more - 1), room - 1);
    }
  }

  /** With room for all, a descriptor whose turn always yields this slot is claimed with it. */
  lemma {:induction false} SureTurnIsClaimed(turn: Turn, n: nat, i: nat, taken: seq<bool>, room: nat, x: nat)
    returns (k: nat, at: seq<bool>)
    requires i <= x < n && n - i <= room
    requires forall t :: turn(x, t).Some?
    ensures var rows := Assign(turn, n, i, taken, room);
            k < |rows| && turn(x, at).Some? && rows[k] == Row(x, turn(x, at).value)
    decreases n - i
  {
    if x == i {
      k, at := 0, taken;
    } else {
      match turn(i, taken) {
        case None => k, at := SureTurnIsClaimed(turn, n, i + 1, taken, room, x);
        case Some(slot) =>
          k, at := SureTurnIsClaimed(turn, n, i + 1, Take(taken, slot), room - 1, x);
          assert Assign(turn, n, i, taken, room)[k + 1] == Assign(turn, n, i + 1, Take(taken, slot), room - 1)[k];
          k := k + 1;
      }
    }
  }

  /** This descriptor is the first that SR's join ties to this display. */
  ghost predicate FirstJoiner(p: Problem, x: nat, j: nat)
    requires Posed(p) && x < |p.descs|
  {
    p.joins[x] == Joined(j) && Owner(p.joins, j) == Some(x)
  }

  /** With room, every first joiner gets its display, and every monitor the table knows is claimed. */
  lemma KnownMonitorsAreClaimed(p: Problem, room: nat, x: nat, j: nat) returns (k: nat)
    requires Posed(p) && x < |p.descs| <= room
    requires InTable(p.descs[x], p.c) || FirstJoiner(p, x, j)
    ensures var rows := Rows(p, room);
            k < |rows| && rows[k].i == x && (FirstJoiner(p, x, j) ==> rows[k].slot == Bound(j, true))
  {
    forall t: seq<bool>
      ensures TurnOf(p)(x, t).Some? && (FirstJoiner(p, x, j) ==> TurnOf(p)(x, t).value == Bound(j, true))
    {
      assert TurnOf(p)(x, t) == Decide(p, x, t);
    }
    var at;
    k, at := SureTurnIsClaimed(TurnOf(p), |p.descs|, 0, OwnedSlots(p.joins), room, x);
  }

  /** In the new-API case a claim is VERIFIED, with the display's serial, exactly when it is bound to
      a display whose FPC is verified; claim and binding stay in step with their descriptor. */
  lemma VerifiedIffFpc(v: Descriptor, c: Inputs, slot: Slot)
    requires c.displays.Some? && (slot.Bound? ==> slot.j < |c.displays.value|)
    ensures var (claim, b) := Outcome(v, c, slot);
            && (claim.confidence == Verified <==> slot.Bound? && c.displays.value[slot.j].fpcVerified)
            && claim.serial == (if claim.confidence == Verified then c.displays.value[slot.j].serial else "")
            && b.verified == b.fpcVerified == (claim.confidence == Verified) && b.serial == claim.serial
            && b.srJoined == (slot.Bound? && slot.joined)
            && b.srDisplayId == (if slot.Bound? then c.displays.value[slot.j].displayId else 0)
            && claim.monitorId == b.monitorId == v.monitorId
  {
  }

  // ---- leia_win_compute_claims ----------------------------------------------------------------

  /** The linear search over SR's monitor list. */
  method FindRow(v: Descriptor, c: Inputs) returns (k: int)
    requires v.pos.Some?
    ensures if k < 0 then First(c.monitors, RowTest(v, c)).None?
            else k < |c.monitors| && First(c.monitors, RowTest(v, c)) == Some(k)
  {
    var hmon := c.monitorAt(v.pos.value);
    k := 0;
    while k < |c.monitors|
      invariant 0 <= k <= |c.monitors|
      invariant forall i :: 0 <= i < k ==> !RowTest(v, c)(c.monitors[i])
    {
      var m := c.monitors[k];
      if (hmon != 0 && m.hmonitor == hmon) || (hmon == 0 && m.at == v.pos.value) {
        FirstIs(c.monitors, RowTest(v, c), k);
        return;
      }
      k := k + 1;
    }
    FirstNone(c.monitors, RowTest(v, c));
    k := -1;
  }

  method FindJoin(v: Descriptor, c: Inputs) returns (r: Join)
    ensures r == JoinTarget(v, c)
  {
    if c.displays.None? || c.monitors == [] || v.pos.None? { return NoRow; }
    var k := FindRow(v, c);
    if k < 0 { return NoRow; }
    var row := c.monitors[k];
    if Contradicts(v, row) { return NoRow; }
    if row.srDisplayId == 0 { return NotSr; }
    var ds := c.displays.value;
    var j := 0;
    while j < |ds|
      invariant 0 <= j <= |ds|
      invariant forall i :: 0 <= i < j ==> !IdTest(row.srDisplayId)(ds[i])
    {
      if ds[j].displayId == row.srDisplayId {
        FirstIs(ds, IdTest(row.srDisplayId), j);
        return Joined(j);
      }
      j := j + 1;
    }
    FirstNone(ds, IdTest(row.srDisplayId));
    return NoRow;
  }

  /** The heuristic's scan: an origin match wins at once, unplaced candidates are counted. */
  method MatchDisplay(v: Descriptor, ds: seq<SrDisplay>, taken: array<bool>) returns (r: Match)
    requires |ds| <= taken.Length
    ensures r == MatchSr(v, ds, taken[..])
  {
    ghost var t, first := taken[..], 0;
    var cand, candCount, j := 0, 0, 0;
    while j < |ds|
      invariant 0 <= j <= |ds| && t == taken[..] && candCount >= 0
      invariant forall k :: k < j ==> !AtOrigin(v, ds, t, k)
      invariant candCount == 0 ==> forall k :: k < j ==> !Unplaced(v, ds, t, k)
      invariant candCount > 0 ==> 0 <= first <= cand < j && Unplaced(v, ds, t, first) && Unplaced(v, ds, t, cand)
      invariant candCount == 1 ==> forall k :: k < j && Unplaced(v, ds, t, k) ==> k == cand
      invariant candCount > 1 ==> first < cand
    {
      assert taken[j] == t[j];
      if !taken[j] && SamePanel(v, ds[j]) {
        if ds[j].desktopGlobal && v.pos.Some? {
          if v.pos.value == ds[j].at {
            MatchIsUnique(v, ds, t, Found(j));
            return Found(j);
          }
        } else {
          first := if candCount == 0 then j else first;
          cand, candCount := j, candCount + 1;
        }
      }
      j := j + 1;
    }
    r := if candCount > 1 then Ambiguous else if candCount == 1 then Found(cand) else NoMatch;
    MatchIsUnique(v, ds, t, r);
  }

  function OwnerIndex(joins: seq<Join>, j: nat): int {
    match Owner(joins, j) case None => -1 case Some(i) => i
  }

  /** The recorded first joiner of every SR display. */
  ghost predicate OwnersOf(joins: seq<Join>, owner: seq<int>) {
    |owner| == MAX_SR_DISPLAYS && forall j :: 0 <= j < |owner| ==> owner[j] == OwnerIndex(joins, j)
  }

  /** The two arrays after the descriptors behind `joins` have been looked at. */
  ghost predicate Ownership(joins: seq<Join>, owner: seq<int>, taken: seq<bool>) {
    |taken| == MAX_SR_DISPLAYS && OwnersOf(joins, owner)
    && forall j :: 0 <= j < MAX_SR_DISPLAYS ==> (taken[j] <==> owner[j] >= 0)
  }

  lemma OwnershipExtends(joins: seq<Join>, i: nat, owner: seq<int>, taken: seq<bool>)
    requires i < |joins| && Ownership(joins[..i], owner, taken)
    requires joins[i].Joined? ==> joins[i].j < MAX_SR_DISPLAYS
    ensures if joins[i].Joined? && owner[joins[i].j] < 0
            then Ownership(joins[..i + 1], owner[joins[i].j := i], taken[joins[i].j := true])
            else Ownership(joins[..i + 1], owner, taken)
  {
    forall j: nat | j < MAX_SR_DISPLAYS
      ensures OwnerIndex(joins[..i + 1], j)
              == if owner[j] >= 0 then owner[j] else if joins[i] == Joined(j) then i else -1
    {
      FirstExtend(joins, (x: Join) => x == Joined(j), i);
    }
  }

  /** The first pass: each display that SR joins belongs to its first joiner, and is taken. */
  method TakeJoined(p: Problem, taken: array<bool>, joinOwner: array<int>)
    requires Posed(p) && p.joins == Joins(p.descs, p.c)
    requires taken.Length == joinOwner.Length == MAX_SR_DISPLAYS
    requires forall j :: 0 <= j < MAX_SR_DISPLAYS ==> !taken[j] && joinOwner[j] == -1
    modifies taken, joinOwner
    ensures Ownership(p.joins, joinOwner[..], taken[..]) && taken[..] == OwnedSlots(p.joins)
  {
    var i := 0;
    while i < |p.descs|
      invariant 0 <= i <= |p.descs|
      invariant Ownership(p.joins[..i], joinOwner[..], taken[..])
    {
      var jt := FindJoin(p.descs[i], p.c);
      ghost var owner, slots := joinOwner[..], taken[..];
      OwnershipExtends(p.joins, i, owner, slots);
      if jt.Joined? && joinOwner[jt.j] < 0 {
        joinOwner[jt.j] := i;
        taken[jt.j] := true;
        assert joinOwner[..] == owner[jt.j := i] && taken[..] == slots[jt.j := true];
      }
      i := i + 1;
    }
    assert p.joins[..i] == p.joins;
  }

  /** The second pass's decision for one descriptor. */
  method DecideOne(p: Problem, i: nat, taken: array<bool>, joinOwner: array<int>) returns (r: Option<Slot>)
    requires Posed(p) && p.joins == Joins(p.descs, p.c) && i < |p.descs|
    requires taken.Length == joinOwner.Length == MAX_SR_DISPLAYS
    requires OwnersOf(p.joins, joinOwner[..])
    ensures r == Decide(p, i, taken[..])
  {
    var v := p.descs[i];
    var inTable := p.c.inTable(v.man, v.prod);
    if p.c.displays.None? {
      return if inTable then Some(TableOnly) else None;
    }
    var jt := FindJoin(v, p.c);
    assert jt == p.joins[i];
    assert jt.Joined? ==> joinOwner[jt.j] == joinOwner[..][jt.j];
    if jt.Joined? && joinOwner[jt.j] == i {
      return Some(Bound(jt.j, true));
    }
    var m := NoMatch;
    if !jt.NotSr? {
      m := MatchDisplay(v, p.c.displays.value, taken);
    }
    match m {
      case Ambiguous => return Some(Twin);
      case Found(j) => return Some(Bound(j, false));
      case NoMatch => return if inTable then Some(TableOnly) else None;
    }
  }

  function OutcomeOf(p: Problem, r: Row): (Claim, Binding)
    requires RowOk(p, r)
  {
    Outcome(p.descs[r.i], p.c, r.slot)
  }

  /** The buffers' first `n` entries are these rows' claims and bindings, in step. */
  ghost predicate Written(p: Problem, rows: seq<Row>, n: nat, claims: seq<Claim>, bindings: seq<Binding>) {
    n <= |rows| && n <= |claims| && n <= |bindings|
    && forall k :: 0 <= k < n ==> RowOk(p, rows[k]) && (claims[k], bindings[k]) == OutcomeOf(p, rows[k])
  }

  method TakeSlot(taken: array<bool>, slot: Slot)
    requires slot.Bound? ==> slot.j < taken.Length
    modifies taken
    ensures taken[..] == Take(old(taken[..]), slot)
  {
    if slot.Bound? {
      taken[slot.j] := true;
    }
  }

  method WriteOut(p: Problem, ghost rows: seq<Row>, n: nat, row: Row,
                  outClaims: array<Claim>, outBindings: array<Binding>)
    requires n < |rows| && rows[n] == row && RowOk(p, row) && n < outClaims.Length <= outBindings.Length
    requires Written(p, rows, n, outClaims[..], outBindings[..])
    modifies outClaims, outBindings
    ensures Written(p, rows, n + 1, outClaims[..], outBindings[..])
  {
    var (claim, binding) := OutcomeOf(p, row);
    outClaims[n], outBindings[n] := claim, binding;
    assert forall k :: 0 <= k < n ==>
      outClaims[k] == old(outClaims[..])[k] && outBindings[k] == old(outBindings[..])[k];
  }

  /** `rest` is what is left to write of `all` after its first `n` rows. */
  ghost predicate LeftOver(turn: Turn, m: nat, i: nat, taken: seq<bool>, room: nat, n: nat, all: seq<Row>) {
    i <= m && n <= |all| && all[n..] == Assign(turn, m, i, taken, room)
  }

  lemma OneTurn(turn: Turn, m: nat, i: nat, taken: seq<bool>, room: nat, n: nat, all: seq<Row>)
    requires LeftOver(turn, m, i, taken, room, n, all) && i < m && room > 0
    ensures match turn(i, taken)
            case None => LeftOver(turn, m, i + 1, taken, room, n, all)
            case Some(slot) =>
              n < |all| && all[n] == Row(i, slot) && LeftOver(turn, m, i + 1, Take(taken, slot), room - 1, n + 1, all)
  {
    if turn(i, taken).Some? {
      assert all[n] == all[n..][0] && all[n + 1..] == all[n..][1..];
    }
  }

  /** One turn: what it claims, if anything, is taken and written; `next` claims are written after it. */
  method TakeTurn(p: Problem, ghost turn: Turn, ghost all: seq<Row>, i: nat, n: nat, taken: array<bool>,
                  joinOwner: array<int>, outClaims: array<Claim>, outBindings: array<Binding>) returns (next: nat)
    requires Posed(p) && p.joins == Joins(p.descs, p.c) && i < |p.descs|
    requires forall t :: turn(i, t) == Decide(p, i, t)
    requires taken.Length == joinOwner.Length == MAX_SR_DISPLAYS && OwnersOf(p.joins, joinOwner[..])
    requires n < outClaims.Length <= outBindings.Length
    requires LeftOver(turn, |p.descs|, i, taken[..], outClaims.Length - n, n, all)
    requires Written(p, all, n, outClaims[..], outBindings[..])
    modifies taken, outClaims, outBindings
    ensures n <= next <= n + 1 && Written(p, all, next, outClaims[..], outBindings[..])
    ensures LeftOver(turn, |p.descs|, i + 1, taken[..], outClaims.Length - next, next, all)
  {
    OneTurn(turn, |p.descs|, i, taken[..], outClaims.Length - n, n, all);
    var slot := DecideOne(p, i, taken, joinOwner);
    assert turn(i, taken[..]) == slot;
    next := n;
    if slot.Some? {
      TakeSlot(taken, slot.value);
      WriteOut(p, all, n, Row(i, slot.value), outClaims, outBindings);
      next := n + 1;
    }
  }

  /** The second pass, over the caller's buffers, for the turn rule `turn` that DecideOne computes. */
  method SecondPass(p: Problem, ghost turn: Turn, taken: array<bool>, joinOwner: array<int>,
                    outClaims: array<Claim>, outBindings: array<Binding>) returns (n: nat)
    requires Posed(p) && p.joins == Joins(p.descs, p.c)
    requires forall i: nat, t :: i < |p.descs| ==> turn(i, t) == Decide(p, i, t)
    requires taken.Length == joinOwner.Length == MAX_SR_DISPLAYS && taken[..] == OwnedSlots(p.joins)
    requires OwnersOf(p.joins, joinOwner[..])
    requires outBindings.Length >= outClaims.Length
    modifies taken, outClaims, outBindings
    ensures var rows := Assign(turn, |p.descs|, 0, OwnedSlots(p.joins), outClaims.Length);
            n == |rows| && Written(p, rows, n, outClaims[..], outBindings[..])
  {
    ghost var all := Assign(turn, |p.descs|, 0, taken[..], outClaims.Length);
    n := 0;
    var i := 0;
    while i < |p.descs| && n < outClaims.Length
      invariant 0 <= i <= |p.descs| && 0 <= n <= outClaims.Length
      invariant LeftOver(turn, |p.descs|, i, taken[..], outClaims.Length - n, n, all)
      invariant Written(p, all, n, outClaims[..], outBindings[..])
    {
      n := TakeTurn(p, turn, all, i, n, taken, joinOwner, outClaims, outBindings);
      i := i + 1;
    }
  }

  /** Both passes. Only the first `n` entries of the buffers mean anything afterwards. */
  method ComputeClaims(descs: seq<Descriptor>, given: Inputs, outClaims: array<Claim>, outBindings: array<Binding>)
    returns (n: nat)
    requires outBindings.Length >= outClaims.Length
    modifies outClaims, outBindings
    ensures var rows := Rows(Pose(descs, given), outClaims.Length);
            n == |rows| && Written(Pose(descs, given), rows, n, outClaims[..], outBindings[..])
  {
    var p := Pose(descs, given);
    var taken := new bool[MAX_SR_DISPLAYS](_ => false);
    var joinOwner := new int[MAX_SR_DISPLAYS](_ => -1);
    TakeJoined(p, taken, joinOwner);
    n := SecondPass(p, TurnOf(p), taken, joinOwner, outClaims, outBindings);
  }
}
