/**
 What the claim assignment answers, in the fields of its inputs: SR's own join, the heuristic, one
 descriptor's turn, the whole run of turns, and the claim and binding each turn leaves.
 */
module ClaimRules {
  import opened Common
  import opened Claims

  /** Of what SR lists, the first eight displays and the first sixteen monitors are looked at. */
  lemma OnlyTheFirstAreSeen(c: Inputs)
    ensures var s := Clamped(c);
      && s == c.(displays := s.displays, monitors := s.monitors)
      && s.monitors == (if |c.monitors| <= 16 then c.monitors else c.monitors[..16])
      && (s.displays.Some? <==> c.displays.Some?)
      && (c.displays.Some? ==>
            s.displays.value == if |c.displays.value| <= 8 then c.displays.value else c.displays.value[..8])
  {
  }

  // ---- SR's own join --------------------------------------------------------------------------

  /** Row `k` is the descriptor's: the first at its HMONITOR, or at its origin when that resolves to 0. */
  ghost predicate IsRow(v: Descriptor, c: Inputs, k: int) {
    && v.pos.Some? && 0 <= k < |c.monitors|
    && var hmon := c.monitorAt(v.pos.value);
       if hmon != 0 then
         c.monitors[k].hmonitor == hmon && forall i :: 0 <= i < k ==> c.monitors[i].hmonitor != hmon
       else
         c.monitors[k].at == v.pos.value && forall i :: 0 <= i < k ==> c.monitors[i].at != v.pos.value
  }

  /** SR's row and the descriptor name one panel, or one of them names none. */
  ghost predicate SameEdid(v: Descriptor, m: SrMonitor) {
    v.man == 0 || m.man == 0 || (v.man == m.man && v.prod == m.prod)
  }

  ghost predicate IsFirstWithId(ds: seq<SrDisplay>, id: nat, j: int) {
    0 <= j < |ds| && ds[j].displayId == id && forall i :: 0 <= i < j ==> ds[i].displayId != id
  }

  lemma RowIs(v: Descriptor, c: Inputs)
    requires v.pos.Some?
    ensures match First(c.monitors, RowTest(v, c))
            case Some(k) => IsRow(v, c, k) && forall i :: IsRow(v, c, i) ==> i == k
            case None => forall i :: !IsRow(v, c, i)
  {
    FirstFacts(c.monitors, RowTest(v, c));
    var test := RowTest(v, c);
    assert forall i :: 0 <= i < |c.monitors| && IsRow(v, c, i) ==> test(c.monitors[i]);
    assert forall i, k :: IsRow(v, c, i) && 0 <= k < i ==> !test(c.monitors[k]);
  }

  lemma DisplayIs(ds: seq<SrDisplay>, id: nat)
    ensures match First(ds, IdTest(id))
            case Some(j) => IsFirstWithId(ds, id, j) && forall i :: IsFirstWithId(ds, id, i) ==> i == j
            case None => forall i :: 0 <= i < |ds| ==> ds[i].displayId != id
  {
    FirstFacts(ds, IdTest(id));
    var test := IdTest(id);
    assert forall i :: 0 <= i < |ds| ==> (test(ds[i]) <==> ds[i].displayId == id);
  }

  /** SR's join names a display exactly when the displays are enumerated, SR has a row for the
      monitor, the row does not contradict its EDID, and the display is the first with the row's id;
      it says "not an SR display" exactly when such a row has no id; and it has no say otherwise. */
  lemma JoinTargetIff(v: Descriptor, c: Inputs)
    ensures forall j: nat :: JoinTarget(v, c) == Joined(j) <==>
              c.displays.Some? && exists k ::
                IsRow(v, c, k) && SameEdid(v, c.monitors[k]) && c.monitors[k].srDisplayId != 0
                && IsFirstWithId(c.displays.value, c.monitors[k].srDisplayId, j)
    ensures JoinTarget(v, c) == NotSr <==>
              c.displays.Some? && exists k ::
                IsRow(v, c, k) && SameEdid(v, c.monitors[k]) && c.monitors[k].srDisplayId == 0
    ensures JoinTarget(v, c) == NoRow <==>
              c.displays.None? || forall k :: IsRow(v, c, k) && SameEdid(v, c.monitors[k]) ==>
                c.monitors[k].srDisplayId != 0
                && forall j :: 0 <= j < |c.displays.value| ==>
                     c.displays.value[j].displayId != c.monitors[k].srDisplayId
  {
    if c.displays.Some? && v.pos.Some? {
      RowIs(v, c);
      match First(c.monitors, RowTest(v, c))
      case None =>
      case Some(k) => DisplayIs(c.displays.value, c.monitors[k].srDisplayId);
    }
  }

  // ---- The heuristic --------------------------------------------------------------------------

  /** A display nobody has taken, with the descriptor's EDID ids. */
  ghost predicate IsFree(v: Descriptor, ds: seq<SrDisplay>, taken: seq<bool>, j: int) {
    0 <= j < |ds| && j < |taken| && !taken[j] && ds[j].man == v.man && ds[j].prod == v.prod
  }

  /** Both sides' places are known. */
  ghost predicate Placed(v: Descriptor, d: SrDisplay) { d.desktopGlobal && v.pos.Some? }

  /** The heuristic finds the first free display at the descriptor's own origin. */
  lemma HeuristicAtOrigin(v: Descriptor, ds: seq<SrDisplay>, taken: seq<bool>, j: nat)
    requires IsFree(v, ds, taken, j) && Placed(v, ds[j]) && ds[j].at == v.pos.value
    requires forall i :: IsFree(v, ds, taken, i) && i < j && Placed(v, ds[i]) ==> ds[i].at != v.pos.value
    ensures MatchSr(v, ds, taken) == Found(j)
  {
    MatchIsUnique(v, ds, taken, Found(j));
  }

  /** Without one, the only free display not known to be elsewhere; two such are ambiguous. */
  lemma HeuristicElsewhere(v: Descriptor, ds: seq<SrDisplay>, taken: seq<bool>)
    requires forall i :: IsFree(v, ds, taken, i) && Placed(v, ds[i]) ==> ds[i].at != v.pos.value
    ensures forall j: nat :: MatchSr(v, ds, taken) == Found(j) <==>
              IsFree(v, ds, taken, j) && !Placed(v, ds[j])
              && forall i :: IsFree(v, ds, taken, i) && !Placed(v, ds[i]) ==> i == j
    ensures MatchSr(v, ds, taken) == Ambiguous <==>
              exists a, b :: a < b && IsFree(v, ds, taken, a) && IsFree(v, ds, taken, b)
                             && !Placed(v, ds[a]) && !Placed(v, ds[b])
  {
    MatchSrMatches(v, ds, taken);
    assert forall i :: Unplaced(v, ds, taken, i) <==> IsFree(v, ds, taken, i) && !Placed(v, ds[i]);
    assert forall i :: !AtOrigin(v, ds, taken, i);
  }

  // ---- One turn -------------------------------------------------------------------------------

  function TableSays(p: Problem, v: Descriptor): Option<Slot> {
    if p.c.inTable(v.man, v.prod) then Some(TableOnly) else None
  }

  /** A joined display goes to its first joiner whatever is taken. What SR calls no SR display, and
      everything when SR cannot enumerate, rests on the frozen table alone. The rest is the heuristic's. */
  lemma DecideIs(p: Problem, i: nat, taken: seq<bool>)
    requires Posed(p) && i < |p.descs|
    ensures p.c.displays.None? || p.joins[i] == NotSr ==> Decide(p, i, taken) == TableSays(p, p.descs[i])
    ensures forall j :: p.c.displays.Some? && p.joins[i] == Joined(j)
                        && (forall k :: 0 <= k < i ==> p.joins[k] != Joined(j)) ==>
              Decide(p, i, taken) == Some(Bound(j, true))
    ensures p.c.displays.Some? && (p.joins[i] == NoRow || (p.joins[i].Joined? && p.joins[i] in p.joins[..i])) ==>
              Decide(p, i, taken) == match MatchSr(p.descs[i], p.c.displays.value, taken)
                                     case Found(j) => Some(Bound(j, false))
                                     case Ambiguous => Some(Twin)
                                     case NoMatch => TableSays(p, p.descs[i])
  {
    if p.joins[i].Joined? {
      FirstFacts(p.joins, (x: Join) => x == Joined(p.joins[i].j));
      OwnerIs(p.joins, p.joins[i].j);
    }
  }

  lemma OwnerIs(joins: seq<Join>, j: nat)
    ensures match Owner(joins, j)
            case Some(i) => i < |joins| && joins[i] == Joined(j) && forall k :: 0 <= k < i ==> joins[k] != Joined(j)
            case None => forall k :: 0 <= k < |joins| ==> joins[k] != Joined(j)
  {
    var test := (x: Join) => x == Joined(j);
    FirstFacts(joins, test);
    assert Owner(joins, j) == First(joins, test);
    assert forall k :: 0 <= k < |joins| ==> (test(joins[k]) <==> joins[k] == Joined(j));
  }

  // ---- The run of turns -----------------------------------------------------------------------

  ghost predicate BoundBefore(rows: seq<Row>, x: nat, j: nat) {
    exists k :: 0 <= k < |rows| && rows[k].i < x && rows[k].slot.Bound? && rows[k].slot.j == j
  }

  /** What is taken at descriptor `x`'s turn: what was at first, and what an earlier claim bound. */
  ghost predicate TakenAt(rows: seq<Row>, x: nat, first: seq<bool>, taken: seq<bool>) {
    |taken| == |first|
    && forall j :: 0 <= j < |first| ==> (taken[j] <==> first[j] || BoundBefore(rows, x, j))
  }

  lemma BoundFirst(row: Row, rest: seq<Row>, x: nat, j: nat)
    ensures BoundBefore([row] + rest, x, j) <==>
              (row.i < x && row.slot.Bound? && row.slot.j == j) || BoundBefore(rest, x, j)
  {
    var all := [row] + rest;
    assert all[0] == row;
    assert forall k :: 0 <= k < |rest| ==> all[k + 1] == rest[k];
    assert forall k :: 0 < k < |all| ==> all[k] == rest[k - 1];
  }

  lemma {:induction false} AssignedFrom(turn: Turn, n: nat, i: nat, taken: seq<bool>, room: nat)
    requires i <= n
    ensures forall k :: 0 <= k < |Assign(turn, n, i, taken, room)| ==> i <= Assign(turn, n, i, taken, room)[k].i < n
    decreases n - i
  {
    if i < n && room > 0 {
      match turn(i, taken)
      case None => AssignedFrom(turn, n, i + 1, taken, room);
      case Some(slot) => AssignedFrom(turn, n, i + 1, Take(taken, slot), room - 1);
    }
  }

  /** The descriptor at hand is claimed as its own turn says. */
  lemma {:induction false} FirstTurnIsTaken(turn: Turn, n: nat, i: nat, taken: seq<bool>, room: nat)
    requires i < n && room > 0
    ensures forall slot :: Row(i, slot) in Assign(turn, n, i, taken, room) <==> turn(i, taken) == Some(slot)
  {
    match turn(i, taken)
    case None => AssignedFrom(turn, n, i + 1, taken, room);
    case Some(slot) => AssignedFrom(turn, n, i + 1, Take(taken, slot), room - 1);
  }

  /** What a later turn finds taken is the same whether seen from here or from the next descriptor. */
  lemma TakenAfter(i: nat, slot: Slot, rest: seq<Row>, x: nat, first: seq<bool>, taken: seq<bool>)
    requires i < x && TakenAt([Row(i, slot)] + rest, x, first, taken)
    ensures TakenAt(rest, x, Take(first, slot), taken)
  {
    forall j | 0 <= j < |first| ensures taken[j] <==> Take(first, slot)[j] || BoundBefore(rest, x, j) {
      BoundFirst(Row(i, slot), rest, x, j);
    }
  }

  /** With room for all, descriptor `x` has exactly the claim its turn answers for what is taken then. */
  lemma {:induction false} EveryTurnIsTaken(
      turn: Turn, n: nat, i: nat, first: seq<bool>, room: nat, x: nat, taken: seq<bool>)
    requires i <= x < n && n - i <= room && TakenAt(Assign(turn, n, i, first, room), x, first, taken)
    ensures forall slot :: Row(x, slot) in Assign(turn, n, i, first, room) <==> turn(x, taken) == Some(slot)
    decreases n - i
  {
    if i == x {
      NothingBefore(turn, n, x, first, room, taken);
      FirstTurnIsTaken(turn, n, x, first, room);
    } else {
      match turn(i, first)
      case None => EveryTurnIsTaken(turn, n, i + 1, first, room, x, taken);
      case Some(slot) =>
        TakenAfter(i, slot, Assign(turn, n, i + 1, Take(first, slot), room - 1), x, first, taken);
        EveryTurnIsTaken(turn, n, i + 1, Take(first, slot), room - 1, x, taken);
    }
  }

  lemma {:induction false} NothingBefore(turn: Turn, n: nat, x: nat, first: seq<bool>, room: nat, taken: seq<bool>)
    requires x <= n && TakenAt(Assign(turn, n, x, first, room), x, first, taken)
    ensures taken == first
  {
    AssignedFrom(turn, n, x, first, room);
  }

  /** The whole assignment, turn by turn: a descriptor is claimed with a slot exactly when its turn
      answers that slot, a display being taken then when SR joins it to some descriptor or an earlier
      descriptor's claim bound it. */
  lemma AssignmentIsTurns(p: Problem, room: nat, x: nat, taken: seq<bool>)
    requires Posed(p) && x < |p.descs| <= room && |taken| == MAX_SR_DISPLAYS
    requires forall j :: 0 <= j < MAX_SR_DISPLAYS ==>
               (taken[j] <==> Joined(j) in p.joins || BoundBefore(Rows(p, room), x, j))
    ensures forall slot :: Row(x, slot) in Rows(p, room) <==> Decide(p, x, taken) == Some(slot)
  {
    forall j | 0 <= j < MAX_SR_DISPLAYS ensures OwnedSlots(p.joins)[j] <==> Joined(j) in p.joins {
      OwnerIs(p.joins, j);
    }
    EveryTurnIsTaken(TurnOf(p), |p.descs|, 0, OwnedSlots(p.joins), room, x, taken);
    assert TurnOf(p)(x, taken) == Decide(p, x, taken);
  }

  // ---- What a claim carries -------------------------------------------------------------------

  /** Every field of a claim and its binding. A bound one carries the display's fields; every other
      carries none, and is VERIFIED only where an SR without enumeration vouches for the table. */
  lemma OutcomeIs(v: Descriptor, c: Inputs, slot: Slot)
    requires slot.Bound? ==> c.displays.Some? && slot.j < |c.displays.value|
    ensures var (claim, b) := Outcome(v, c, slot);
      && claim.monitorId == b.monitorId == v.monitorId && claim.apis == c.apis
      && b.pos == v.pos && b.pixelW == v.pixelW && b.pixelH == v.pixelH
      && b.verified == (claim.confidence == Verified) && claim.serial == b.serial
      && (slot.Bound? ==>
           var d := c.displays.value[slot.j];
           && b.srDisplayId == d.displayId && b.hmonitor == d.hmonitor && b.deviceName == d.deviceName
           && b.widthMm == d.widthMm && b.heightMm == d.heightMm
           && b.nativeW == d.nativeW && b.nativeH == d.nativeH
           && b.srJoined == slot.joined && b.fpcVerified == b.verified == d.fpcVerified
           && b.serial == if d.fpcVerified then d.serial else "")
      && (!slot.Bound? ==>
           && b.srDisplayId == b.hmonitor == b.widthMm == b.heightMm == b.nativeW == b.nativeH == 0
           && b.deviceName == b.serial == "" && !b.srJoined && !b.fpcVerified
           && (b.verified <==> slot.TableOnly? && c.displays.None? && c.legacyVerified))
  {
  }
}
