/** Which lots a settlement touches, told from the hold's open parts before it. */
module LedgerTouched {
  import opened Machine
  import opened Sums
  import opened Ordering
  import opened LedgerModel
  import opened LedgerLots
  import opened LedgerInvariant

  /** What is unsettled of a hold on lots before `lot`. */
  function PendingBelow(hold: nat, lot: nat): HoldLot -> int {
    (a: HoldLot) => if a.hold == hold && a.lot < lot then Pending(a) else 0
  }

  function PendingBefore(holdLots: seq<HoldLot>, hold: nat, lot: nat): int { Sum(PendingBelow(hold, lot), holdLots) }

  /** An open part whose predecessors in lot order do not use up the amount. */
  predicate TouchesPart(holdLots: seq<HoldLot>, hold: nat, amount: int, k: nat) {
    IsOpenPart(holdLots, hold)(k) && PendingBefore(holdLots, hold, holdLots[k].lot) < amount
  }

  /** Settling `amount` of the hold reaches a part on this lot. */
  predicate Touches(holdLots: seq<HoldLot>, hold: nat, amount: int, lot: nat) {
    exists k: nat :: k < |holdLots| && TouchesPart(holdLots, hold, amount, k) && holdLots[k].lot == lot
  }

  lemma PendingBeforeAtLeast(holdLots: seq<HoldLot>, hold: nat, lot: nat, k: nat)
    requires PartsOk(holdLots) && k < |holdLots| && holdLots[k].hold == hold && holdLots[k].lot < lot
    ensures PendingBefore(holdLots, hold, lot) >= Pending(holdLots[k])
  {
    assert forall j :: 0 <= j < |holdLots| ==> PartOk(holdLots[j]);
    SumAtLeast(PendingBelow(hold, lot), holdLots, k);
  }

  lemma PendingBeforeNonNegative(holdLots: seq<HoldLot>, hold: nat, lot: nat)
    requires PartsOk(holdLots)
    ensures PendingBefore(holdLots, hold, lot) >= 0
  {
    assert forall j :: 0 <= j < |holdLots| ==> PartOk(holdLots[j]);
    SumNonNegative(PendingBelow(hold, lot), holdLots);
  }

  /** The rest of a settlement: its order covers the hold's open parts, in lot order. */
  ghost predicate InOrder(holdLots: seq<HoldLot>, hold: nat, order: seq<nat>) {
    && PartsOk(holdLots) && OnePerLot(holdLots) && PartsOf(holdLots, hold, order) && CoversParts(holdLots, hold, order)
    && SortedByLot(holdLots, order) && forall x: nat :: x in order ==> Pending(holdLots[x]) > 0
  }

  /** Nothing is unsettled before the first open part, so a positive amount reaches it. */
  lemma FirstIsTouched(holdLots: seq<HoldLot>, hold: nat, order: seq<nat>, amount: int)
    requires InOrder(holdLots, hold, order) && order != [] && amount > 0
    ensures order[0] in order && TouchesPart(holdLots, hold, amount, order[0])
  {
    var k := order[0];
    assert k in order;
    forall j | 0 <= j < |holdLots| ensures PendingBelow(hold, holdLots[k].lot)(holdLots[j]) == 0 {
      if holdLots[j].hold == hold && Pending(holdLots[j]) != 0 {
        assert j in order;
        var x :| 0 <= x < |order| && order[x] == j;
      }
    }
    SumZero(PendingBelow(hold, holdLots[k].lot), holdLots);
    assert PartOk(holdLots[k]);
  }

  /** After the first part, the others are touched as before; its own lot is done with. */
  lemma OthersTouched(holdLots: seq<HoldLot>, hold: nat, order: seq<nat>, amount: int, commit: bool, lot: nat)
    requires InOrder(holdLots, hold, order) && order != [] && amount > 0 && order[0] < |holdLots|
    ensures var a := holdLots[order[0]];
            var use := Min(Pending(a), amount);
            var rest := holdLots[order[0] := SettlePart(a, use, commit)];
            Touches(rest, hold, amount - use, lot) <==> (lot != a.lot && Touches(holdLots, hold, amount, lot))
  {
    var k := order[0];
    assert k in order;
    var a := holdLots[k];
    var use := Min(Pending(a), amount);
    var b := SettlePart(a, use, commit);
    var rest := holdLots[k := b];
    assert forall j :: 0 <= j < |holdLots| ==> PartOk(holdLots[j]);
    forall j: nat | j < |holdLots| && j != k && holdLots[j].hold == hold && Pending(holdLots[j]) > 0
      ensures TouchesPart(rest, hold, amount - use, j) <==> TouchesPart(holdLots, hold, amount, j)
    {
      assert j in order && holdLots[j].lot != a.lot;
      var x :| 0 <= x < |order| && order[x] == j;
      assert holdLots[j].lot > a.lot;
      SumUpdate(PendingBelow(hold, holdLots[j].lot), holdLots, k, b);
      PendingBeforeAtLeast(holdLots, hold, holdLots[j].lot, k);
      PendingBeforeNonNegative(rest, hold, holdLots[j].lot);
    }
    assert !TouchesPart(rest, hold, amount - use, k) by {
      if use == amount { PendingBeforeNonNegative(rest, hold, a.lot); }
    }
    if j: nat :| j < |rest| && TouchesPart(rest, hold, amount - use, j) && rest[j].lot == lot {
      assert TouchesPart(holdLots, hold, amount, j);
    }
    if j: nat :| j < |holdLots| && TouchesPart(holdLots, hold, amount, j) && holdLots[j].lot == lot && lot != a.lot {
      assert TouchesPart(rest, hold, amount - use, j);
    }
  }

  lemma StaysInOrder(holdLots: seq<HoldLot>, hold: nat, order: seq<nat>, use: int, commit: bool)
    requires InOrder(holdLots, hold, order) && order != [] && order[0] < |holdLots|
             && 0 < use <= Pending(holdLots[order[0]])
    ensures var rest := holdLots[order[0] := SettlePart(holdLots[order[0]], use, commit)];
            use == Pending(holdLots[order[0]]) ==> InOrder(rest, hold, order[1..])
    ensures PartsOk(holdLots[order[0] := SettlePart(holdLots[order[0]], use, commit)])
  {
    var k := order[0];
    assert k in order && order == [k] + order[1..] && forall x: nat :: x in order[1..] ==> x in order && x != k;
    var rest := holdLots[k := SettlePart(holdLots[k], use, commit)];
    assert PartOk(holdLots[k]);
    SortedFrame(holdLots, rest, order[1..]);
  }

  /** A settlement changes exactly the lots it touches. */
  lemma {:induction false} SettleTouches(lots: seq<Lot>, holdLots: seq<HoldLot>, hold: nat, order: seq<nat>,
                                         remaining: int,
                                         commit: bool, now: Time, back: int, out: int, i: nat)
    requires InOrder(holdLots, hold, order) && remaining >= 0 && i < |lots|
    requires SettleParts(lots, holdLots, order, remaining, commit, now, back, out).Settled?
    ensures var r := SettleParts(lots, holdLots, order, remaining, commit, now, back, out);
            |r.lots| == |lots| && (r.lots[i] != lots[i] <==> Touches(holdLots, hold, remaining, i))
    decreases |order|
  {
    if remaining == 0 {
      NothingTouched(holdLots, hold, i);
    } else if order == [] {
      NothingOpen(holdLots, hold, remaining, i);
    } else {
      var k := order[0];
      FirstIsTouched(holdLots, hold, order, remaining);
      var a := holdLots[k];
      var use := Min(Pending(a), remaining);
      var lots1, rest :=
          lots[a.lot := SettleLot(lots[a.lot], use, commit, now)], holdLots[k := SettlePart(a, use, commit)];
      var goesBack := GoesBack(lots[a.lot], commit, now);
      var back1, out1 := if goesBack then back + use else back, if goesBack then out else out + use;
      OthersTouched(holdLots, hold, order, remaining, commit, i);
      StaysInOrder(holdLots, hold, order, use, commit);
      hide InOrder, Touches;
      if use == remaining {
        assert SettleParts(lots1, rest, order[1..], 0, commit, now, back1, out1).lots == lots1;
        NothingTouched(rest, hold, i);
      } else {
        SettleTouches(lots1, rest, hold, order[1..], remaining - use, commit, now, back1, out1, i);
      }
      assert Touches(holdLots, hold, remaining, a.lot) by { TouchedBy(holdLots, hold, remaining, k); }
    }
  }

  lemma TouchedBy(holdLots: seq<HoldLot>, hold: nat, amount: int, k: nat)
    requires k < |holdLots| && TouchesPart(holdLots, hold, amount, k)
    ensures Touches(holdLots, hold, amount, holdLots[k].lot)
  {
  }

  lemma NothingTouched(holdLots: seq<HoldLot>, hold: nat, lot: nat)
    requires PartsOk(holdLots)
    ensures !Touches(holdLots, hold, 0, lot)
  {
    forall k: nat | k < |holdLots| ensures !TouchesPart(holdLots, hold, 0, k) {
      PendingBeforeNonNegative(holdLots, hold, holdLots[k].lot);
    }
  }

  lemma NothingOpen(holdLots: seq<HoldLot>, hold: nat, amount: int, lot: nat)
    requires InOrder(holdLots, hold, [])
    ensures !Touches(holdLots, hold, amount, lot)
  {
    assert forall k: nat :: k < |holdLots| && holdLots[k].hold == hold ==> Pending(holdLots[k]) == 0;
  }

  /** No touched lot is past its expiry. */
  ghost predicate NothingDue(lots: seq<Lot>, holdLots: seq<HoldLot>, hold: nat, amount: int, now: Time) {
    forall i: nat :: i < |lots| && Touches(holdLots, hold, amount, i) ==> !PastDue(lots[i], now)
  }

  /** A release or the expiry of a hold sends nothing to the platform exactly when it touches no lot past its expiry. */
  lemma {:induction false} SettleOut(lots: seq<Lot>, holdLots: seq<HoldLot>, hold: nat, order: seq<nat>, remaining: int,
                                     now: Time, back: int, out: int)
    requires InOrder(holdLots, hold, order) && References(lots, holdLots) && remaining >= 0
    requires SettleParts(lots, holdLots, order, remaining, false, now, back, out).Settled?
    ensures var r := SettleParts(lots, holdLots, order, remaining, false, now, back, out);
            r.out >= out && (r.out == out <==> NothingDue(lots, holdLots, hold, remaining, now))
    decreases |order|
  {
    if remaining == 0 {
      forall i: nat ensures !Touches(holdLots, hold, 0, i) { NothingTouched(holdLots, hold, i); }
    } else if order == [] {
      forall i: nat ensures !Touches(holdLots, hold, remaining, i) { NothingOpen(holdLots, hold, remaining, i); }
    } else {
      var k := order[0];
      FirstIsTouched(holdLots, hold, order, remaining);
      var a := holdLots[k];
      var use := Min(Pending(a), remaining);
      var lots1, rest :=
          lots[a.lot := SettleLot(lots[a.lot], use, false, now)], holdLots[k := SettlePart(a, use, false)];
      var goesBack := GoesBack(lots[a.lot], false, now);
      var back1, out1 := if goesBack then back + use else back, if goesBack then out else out + use;
      StaysInOrder(holdLots, hold, order, use, false);
      OneLess(lots, holdLots, hold, order, remaining, now);
      hide InOrder, Touches, NothingDue;
      if use == remaining {
        assert SettleParts(lots1, rest, order[1..], 0, false, now, back1, out1).out == out1;
        NothingLeftDue(lots1, rest, hold, now);
      } else {
        SettleOut(lots1, rest, hold, order[1..], remaining - use, now, back1, out1);
      }
    }
  }

  lemma NothingLeftDue(lots: seq<Lot>, holdLots: seq<HoldLot>, hold: nat, now: Time)
    requires PartsOk(holdLots)
    ensures NothingDue(lots, holdLots, hold, 0, now)
  {
    forall i: nat ensures !Touches(holdLots, hold, 0, i) { NothingTouched(holdLots, hold, i); }
  }

  /** Settling the first part leaves the others due as they were. */
  lemma OneLess(lots: seq<Lot>, holdLots: seq<HoldLot>, hold: nat, order: seq<nat>, remaining: int, now: Time)
    requires InOrder(holdLots, hold, order) && References(lots, holdLots) && remaining > 0 && order != []
    requires order[0] < |holdLots| && Min(Pending(holdLots[order[0]]), remaining) > 0
    ensures var a := holdLots[order[0]];
            var use := Min(Pending(a), remaining);
            && a.lot < |lots|
            && (NothingDue(lots, holdLots, hold, remaining, now)
                <==> GoesBack(lots[a.lot], false, now)
                     && NothingDue(lots[a.lot := SettleLot(lots[a.lot], use, false, now)],
                                   holdLots[order[0] := SettlePart(a, use, false)], hold, remaining - use, now))
  {
    var k := order[0];
    FirstIsTouched(holdLots, hold, order, remaining);
    var a := holdLots[k];
    var use := Min(Pending(a), remaining);
    var rest := holdLots[k := SettlePart(a, use, false)];
    forall i: nat
      ensures Touches(rest, hold, remaining - use, i) <==> (i != a.lot && Touches(holdLots, hold, remaining, i))
    {
      OthersTouched(holdLots, hold, order, remaining, false, i);
    }
    TouchedBy(holdLots, hold, remaining, k);
    hide InOrder, Touches;
  }

  // ----- on the ledger

  lemma CoreInOrder(st: State, hold: nat)
    requires Core(st)
    ensures InOrder(st.holdLots, hold, OpenParts(st.holdLots, hold)) && References(st.lots, st.holdLots)
  {
    OpenPartsOrder(st.holdLots, hold);
    assert forall k :: 0 <= k < |st.holdLots| ==> PartOk(st.holdLots[k]);
  }

  /** What a posted settlement of a hold changes, from the state before it. */
  lemma SettlementTouches(st: State, cmd: HoldCommand, action: Action, now: Time)
    requires Core(st) && SettleHold(st, cmd, action, now).Posted?
    ensures cmd.hold < |st.holds|
    ensures var st', amount := SettleHold(st, cmd, action, now).state, ActionAmount(st.holds[cmd.hold], cmd.amount);
            && |st'.lots| == |st.lots|
            && forall i: nat :: i < |st.lots| ==>
                 (st'.lots[i] != st.lots[i] <==> Touches(st.holdLots, cmd.hold, amount, i))
  {
    CoreInOrder(st, cmd.hold);
    hide Core, InOrder, Touches, EnsureAccounts, FindTxn, StatusAfter, OpenParts, SettleMoves;
    var amount := ActionAmount(st.holds[cmd.hold], cmd.amount);
    SettledCount(st, cmd, action, now);
    forall i: nat | i < |st.lots|
      ensures i < |SettleHold(st, cmd, action, now).state.lots|
      ensures SettleHold(st, cmd, action, now).state.lots[i] != st.lots[i]
              <==> Touches(st.holdLots, cmd.hold, amount, i)
    {
      SettleTouches(st.lots, st.holdLots, cmd.hold, OpenParts(st.holdLots, cmd.hold), amount, action == Commit, now, 0,
                    0, i);
    }
  }

  lemma SettledCount(st: State, cmd: HoldCommand, action: Action, now: Time)
    requires Core(st) && SettleHold(st, cmd, action, now).Posted?
    ensures |SettleHold(st, cmd, action, now).state.lots| == |st.lots|
  {
    hide EnsureAccounts, FindTxn, SettleParts, OpenParts, StatusAfter, RowsOk, HoldsOk;
    SettleRows(st.lots, st.holds, st.holdLots, cmd.hold, ActionAmount(st.holds[cmd.hold], cmd.amount), action == Commit,
               now);
  }

  /** Settling all that is left of a hold touches exactly the lots with an open part of it. */
  lemma FullSettlementTouches(st: State, hold: nat, lot: nat)
    requires Core(st) && hold < |st.holds|
    ensures Touches(st.holdLots, hold, ActionAmount(st.holds[hold], 0), lot)
            <==> exists k: nat :: k < |st.holdLots| && IsOpenPart(st.holdLots, hold)(k) && st.holdLots[k].lot == lot
  {
    var amount := ActionAmount(st.holds[hold], 0);
    assert HoldTotals(st.holds[hold], hold, st.holdLots);
    PendingTotal(st.holdLots, hold);
    CoreInOrder(st, hold);
    assert forall k :: 0 <= k < |st.holdLots| ==> PartOk(st.holdLots[k]);
    forall k: nat | k < |st.holdLots| && IsOpenPart(st.holdLots, hold)(k)
      ensures TouchesPart(st.holdLots, hold, amount, k)
    {
      OpenPartCounts(st.holdLots, hold, k);
    }
  }

  /** What is unsettled before an open part is less than what is unsettled in all. */
  lemma OpenPartCounts(holdLots: seq<HoldLot>, hold: nat, k: nat)
    requires PartsOk(holdLots) && k < |holdLots| && IsOpenPart(holdLots, hold)(k)
    ensures PendingBefore(holdLots, hold, holdLots[k].lot) < Sum(PendingOf(hold), holdLots)
  {
    var lot := holdLots[k].lot;
    var f := (a: HoldLot) => PendingOf(hold)(a) - PendingBelow(hold, lot)(a);
    assert forall j :: 0 <= j < |holdLots| ==> PartOk(holdLots[j]);
    SumSplit(PendingOf(hold), f, PendingBelow(hold, lot), holdLots);
    SumAtLeast(f, holdLots, k);
  }
}
