/** What the two lot loops (consuming or freezing, and settling a hold) do to the lots and to the hold parts. */
module LedgerLots {
  import opened Sums
  import opened Ordering
  import opened Machine
  import opened LedgerModel

  // ----- measures

  function Outstanding(): Lot -> int { (l: Lot) => l.available + l.frozen }

  function PendingOn(lot: nat): HoldLot -> int { (a: HoldLot) => if a.lot == lot then Pending(a) else 0 }

  function AmountOf(hold: nat): HoldLot -> int { (a: HoldLot) => if a.hold == hold then a.amount else 0 }

  function CommittedOf(hold: nat): HoldLot -> int { (a: HoldLot) => if a.hold == hold then a.committed else 0 }

  function ReleasedOf(hold: nat): HoldLot -> int { (a: HoldLot) => if a.hold == hold then a.released else 0 }

  function PendingOf(hold: nat): HoldLot -> int { (a: HoldLot) => if a.hold == hold then Pending(a) else 0 }

  // ----- row constraints

  predicate LotOk(l: Lot) {
    && l.granted > 0 && l.available >= 0 && l.frozen >= 0 && l.consumed >= 0 && l.expired >= 0
    && l.granted == l.available + l.frozen + l.consumed + l.expired
  }

  predicate LotsOk(lots: seq<Lot>) { forall i :: 0 <= i < |lots| ==> LotOk(lots[i]) }

  predicate PartOk(a: HoldLot) {
    a.amount > 0 && a.committed >= 0 && a.released >= 0 && a.committed + a.released <= a.amount
  }

  predicate PartsOk(holdLots: seq<HoldLot>) { forall k :: 0 <= k < |holdLots| ==> PartOk(holdLots[k]) }

  /** Each lot's frozen amount is the unsettled amount of the hold parts on it. */
  ghost predicate FrozenMatches(lots: seq<Lot>, holdLots: seq<HoldLot>) {
    forall i: nat :: i < |lots| ==> lots[i].frozen == Sum(PendingOn(i), holdLots)
  }

  /** The columns no posting ever changes. */
  predicate SameGrant(l: Lot, m: Lot) {
    l.owner == m.owner && l.grant == m.grant && l.granted == m.granted && l.expiresAt == m.expiresAt
  }

  predicate SameShape(lots: seq<Lot>, lots': seq<Lot>) {
    |lots| == |lots'| && forall i :: 0 <= i < |lots| ==> SameGrant(lots[i], lots'[i])
  }

  predicate OrderOf(lots: seq<Lot>, owner: nat, order: seq<nat>) {
    forall x: nat :: x in order ==> x < |lots| && lots[x].owner == owner
  }

  // ----- consuming and freezing

  lemma {:induction false} TakeShape(lots: seq<Lot>, holdLots: seq<HoldLot>, hold: Option<nat>, owner: nat,
                                     order: seq<nat>, remaining: int)
    requires LotsOk(lots) && OrderOf(lots, owner, order) && remaining >= 0
    ensures var r := Take(lots, holdLots, hold, order, remaining);
            && LotsOk(r.lots) && SameShape(lots, r.lots) && 0 <= r.remaining <= remaining
            && (forall i :: 0 <= i < |lots| && lots[i].owner != owner ==> r.lots[i] == lots[i])
            && (forall i :: 0 <= i < |lots| ==>
                  r.lots[i].available <= lots[i].available && r.lots[i].expired == lots[i].expired)
            && (hold.None? ==> forall i :: 0 <= i < |lots| ==> r.lots[i].frozen == lots[i].frozen)
            && (hold.Some? ==> forall i :: 0 <= i < |lots| ==>
                r.lots[i].consumed == lots[i].consumed && r.lots[i].status == lots[i].status)
    decreases |order|
  {
    if order != [] && remaining != 0 {
      var i := order[0];
      assert i in order && forall x: nat :: x in order[1..] ==> x in order;
      var use := Min(remaining, lots[i].available);
      if use == 0 {
        TakeShape(lots, holdLots, hold, owner, order[1..], remaining);
      } else {
        TakeShape(lots[i := TakeOne(lots[i], use, hold.Some?)],
                  if hold.Some? then holdLots + [HoldLot(hold.value, i, use, 0, 0)] else holdLots,
                  hold, owner, order[1..], remaining - use);
      }
    }
  }

  /** The taken amount leaves the owner's available total, and when frozen enters its frozen total. */
  lemma {:induction false} TakeSums(lots: seq<Lot>, holdLots: seq<HoldLot>, hold: Option<nat>, owner: nat,
                                    order: seq<nat>, remaining: int, c: nat)
    requires OrderOf(lots, owner, order)
    ensures var r := Take(lots, holdLots, hold, order, remaining);
            var taken := remaining - r.remaining;
            && Sum(AvailableOf(c), r.lots) == Sum(AvailableOf(c), lots) - (if c == owner then taken else 0)
            && Sum(FrozenOf(c), r.lots) == Sum(FrozenOf(c), lots) + (if c == owner && hold.Some? then taken else 0)
            && Sum(Outstanding(), r.lots) == Sum(Outstanding(), lots) - (if hold.Some? then 0 else taken)
    decreases |order|
  {
    if order != [] && remaining != 0 {
      var i := order[0];
      assert i in order && forall x: nat :: x in order[1..] ==> x in order;
      var use := Min(remaining, lots[i].available);
      if use == 0 {
        TakeSums(lots, holdLots, hold, owner, order[1..], remaining, c);
      } else {
        var l := TakeOne(lots[i], use, hold.Some?);
        SumUpdate(AvailableOf(c), lots, i, l);
        SumUpdate(FrozenOf(c), lots, i, l);
        SumUpdate(Outstanding(), lots, i, l);
        TakeSums(lots[i := l],
                 if hold.Some? then holdLots + [HoldLot(hold.value, i, use, 0, 0)] else holdLots,
                 hold, owner, order[1..], remaining - use, c);
      }
    }
  }

  /** Freezing keeps each lot's frozen amount in step with the parts on it; consuming leaves both alone. */
  lemma {:induction false} TakePending(lots: seq<Lot>, holdLots: seq<HoldLot>, hold: Option<nat>, owner: nat,
                                       order: seq<nat>, remaining: int, lot: nat)
    requires OrderOf(lots, owner, order) && lot < |lots|
    ensures var r := Take(lots, holdLots, hold, order, remaining);
            && |r.lots| == |lots|
            && r.lots[lot].frozen - Sum(PendingOn(lot), r.holdLots) == lots[lot].frozen - Sum(PendingOn(lot), holdLots)
            && (hold.None? ==> r.holdLots == holdLots)
    decreases |order|
  {
    if order != [] && remaining != 0 {
      var i := order[0];
      assert i in order && forall x: nat :: x in order[1..] ==> x in order;
      var use := Min(remaining, lots[i].available);
      if use == 0 {
        TakePending(lots, holdLots, hold, owner, order[1..], remaining, lot);
      } else {
        if hold.Some? {
          SumSnoc(PendingOn(lot), holdLots, HoldLot(hold.value, i, use, 0, 0));
        }
        TakePending(lots[i := TakeOne(lots[i], use, hold.Some?)],
                    if hold.Some? then holdLots + [HoldLot(hold.value, i, use, 0, 0)] else holdLots,
                    hold, owner, order[1..], remaining - use, lot);
      }
    }
  }

  /** The parts added by a freeze: fresh, one per lot of the order, on the new hold only. */
  lemma {:induction false} TakeParts(lots: seq<Lot>, holdLots: seq<HoldLot>, hold: nat, owner: nat, order: seq<nat>,
                                     remaining: int)
    requires LotsOk(lots) && OrderOf(lots, owner, order) && Distinct(order) && remaining >= 0
    ensures var r := Take(lots, holdLots, Some(hold), order, remaining);
            && |holdLots| <= |r.holdLots| && r.holdLots[..|holdLots|] == holdLots
            && (forall k :: |holdLots| <= k < |r.holdLots| ==>
                  var a := r.holdLots[k];
                  a.hold == hold && a.lot in order && a.amount > 0 && a.committed == 0 && a.released == 0)
            && (forall j, k :: |holdLots| <= j < k < |r.holdLots| ==> r.holdLots[j].lot != r.holdLots[k].lot)
    decreases |order|
  {
    if order != [] && remaining != 0 {
      var i := order[0];
      assert i in order && forall x: nat :: x in order[1..] ==> x in order;
      assert Distinct(order[1..]) && i !in order[1..];
      var use := Min(remaining, lots[i].available);
      if use == 0 {
        TakeParts(lots, holdLots, hold, owner, order[1..], remaining);
      } else {
        var more := holdLots + [HoldLot(hold, i, use, 0, 0)];
        TakeParts(lots[i := TakeOne(lots[i], use, true)], more, hold, owner, order[1..], remaining - use);
        var r := Take(lots, holdLots, Some(hold), order, remaining);
        assert r.holdLots[..|more|] == more;
        assert r.holdLots[|holdLots|] == more[|holdLots|];
        assert r.holdLots[..|holdLots|] == more[..|holdLots|];
      }
    }
  }

  /** The new parts add up to the frozen amount. */
  lemma {:induction false} TakeTotals(lots: seq<Lot>, holdLots: seq<HoldLot>, hold: nat, owner: nat, order: seq<nat>,
                                      remaining: int, h: nat)
    requires OrderOf(lots, owner, order)
    ensures var r := Take(lots, holdLots, Some(hold), order, remaining);
            && Sum(AmountOf(h), r.holdLots) == Sum(AmountOf(h), holdLots)
               + (if h == hold then remaining - r.remaining else 0)
            && Sum(CommittedOf(h), r.holdLots) == Sum(CommittedOf(h), holdLots)
            && Sum(ReleasedOf(h), r.holdLots) == Sum(ReleasedOf(h), holdLots)
    decreases |order|
  {
    if order != [] && remaining != 0 {
      var i := order[0];
      assert i in order && forall x: nat :: x in order[1..] ==> x in order;
      var use := Min(remaining, lots[i].available);
      if use == 0 {
        TakeTotals(lots, holdLots, hold, owner, order[1..], remaining, h);
      } else {
        var a := HoldLot(hold, i, use, 0, 0);
        SumSnoc(AmountOf(h), holdLots, a);
        SumSnoc(CommittedOf(h), holdLots, a);
        SumSnoc(ReleasedOf(h), holdLots, a);
        TakeTotals(lots[i := TakeOne(lots[i], use, true)], holdLots + [a], hold, owner, order[1..], remaining - use, h);
      }
    }
  }

  /** Every lot of the owner with something available is still to come. */
  predicate Covers(lots: seq<Lot>, owner: nat, order: seq<nat>) {
    forall i: nat :: i < |lots| && lots[i].owner == owner && lots[i].available > 0 ==> i in order
  }

  /** Greedy taking stops short only when the owner has nothing available left. */
  lemma {:induction false} TakeExhausts(lots: seq<Lot>, holdLots: seq<HoldLot>, hold: Option<nat>, owner: nat,
                                        order: seq<nat>, remaining: int)
    requires LotsOk(lots) && OrderOf(lots, owner, order) && Covers(lots, owner, order) && remaining >= 0
    ensures var r := Take(lots, holdLots, hold, order, remaining);
            r.remaining > 0 ==> Sum(AvailableOf(owner), r.lots) == 0
    decreases |order|
  {
    if order == [] {
      SumZero(AvailableOf(owner), lots);
    } else if remaining != 0 {
      var i := order[0];
      assert i in order && order == [i] + order[1..] && forall x: nat :: x in order[1..] ==> x in order;
      var use := Min(remaining, lots[i].available);
      if use == 0 {
        TakeExhausts(lots, holdLots, hold, owner, order[1..], remaining);
      } else {
        var lots1 := lots[i := TakeOne(lots[i], use, hold.Some?)];
        var holdLots1 := if hold.Some? then holdLots + [HoldLot(hold.value, i, use, 0, 0)] else holdLots;
        if use == remaining {
          assert Take(lots1, holdLots1, hold, order[1..], 0).remaining == 0;
        } else {
          TakeExhausts(lots1, holdLots1, hold, owner, order[1..], remaining - use);
        }
      }
    }
  }

  /** The guard "asset lots do not match available balance" never fires when the lots hold the amount. */
  lemma TakeSucceeds(lots: seq<Lot>, holdLots: seq<HoldLot>, hold: Option<nat>, owner: nat, amount: int)
    requires LotsOk(lots) && 0 <= amount
    ensures OrderOf(lots, owner, FefoOrder(lots, owner)) && Covers(lots, owner, FefoOrder(lots, owner))
    ensures Take(lots, holdLots, hold, FefoOrder(lots, owner), amount).remaining == 0
            <==> amount <= Sum(AvailableOf(owner), lots)
  {
    var order := FefoOrder(lots, owner);
    TakeShape(lots, holdLots, hold, owner, order, amount);
    TakeSums(lots, holdLots, hold, owner, order, amount, owner);
    TakeExhausts(lots, holdLots, hold, owner, order, amount);
    SumNonNegative(AvailableOf(owner), Take(lots, holdLots, hold, order, amount).lots);
  }

  // ----- settling

  predicate References(lots: seq<Lot>, holdLots: seq<HoldLot>) {
    forall k :: 0 <= k < |holdLots| ==> holdLots[k].lot < |lots|
  }

  predicate PartsOf(holdLots: seq<HoldLot>, hold: nat, order: seq<nat>) {
    && Distinct(order)
    && forall x: nat :: x in order ==> x < |holdLots| && holdLots[x].hold == hold
  }

  /** Lots and parts satisfy their row constraints and agree on every frozen amount. */
  ghost predicate RowsOk(lots: seq<Lot>, holdLots: seq<HoldLot>) {
    LotsOk(lots) && PartsOk(holdLots) && References(lots, holdLots) && FrozenMatches(lots, holdLots)
  }

  /** One settlement step: its guard cannot fire, and lots and parts stay in agreement. */
  lemma SettleOne(lots: seq<Lot>, holdLots: seq<HoldLot>, k: nat, use: int, commit: bool, now: Time)
    requires RowsOk(lots, holdLots) && k < |holdLots| && 0 < use <= Pending(holdLots[k])
    ensures var a := holdLots[k];
            && use <= lots[a.lot].frozen
            && RowsOk(lots[a.lot := SettleLot(lots[a.lot], use, commit, now)],
                      holdLots[k := SettlePart(a, use, commit)])
  {
    var a := holdLots[k];
    SumAtLeast(PendingOn(a.lot), holdLots, k);
    var lots1 := lots[a.lot := SettleLot(lots[a.lot], use, commit, now)];
    var holdLots1 := holdLots[k := SettlePart(a, use, commit)];
    forall i: nat | i < |lots1| ensures lots1[i].frozen == Sum(PendingOn(i), holdLots1) {
      SumUpdate(PendingOn(i), holdLots, k, SettlePart(a, use, commit));
    }
  }

  /** With every frozen amount covered by its parts, settling runs through without a guard firing. */
  lemma {:induction false} SettleRuns(lots: seq<Lot>, holdLots: seq<HoldLot>, hold: nat, order: seq<nat>,
                                      remaining: int,
                                      commit: bool, now: Time, back: int, out: int)
    requires RowsOk(lots, holdLots) && PartsOf(holdLots, hold, order) && remaining >= 0
    ensures var r := SettleParts(lots, holdLots, order, remaining, commit, now, back, out);
            && r.Settled? && RowsOk(r.lots, r.holdLots)
            && 0 <= r.remaining <= remaining
            && r.back >= back && r.out >= out
            && r.back - back + (r.out - out) == remaining - r.remaining
            && (commit ==> r.back == back)
    decreases |order|
  {
    if order != [] && remaining != 0 {
      var k := order[0];
      assert k in order && order == [k] + order[1..] && forall x: nat :: x in order[1..] ==> x in order;
      var a := holdLots[k];
      var use := Min(Pending(a), remaining);
      if use == 0 {
        SettleRuns(lots, holdLots, hold, order[1..], remaining, commit, now, back, out);
      } else {
        SettleOne(lots, holdLots, k, use, commit, now);
        var goesBack := GoesBack(lots[a.lot], commit, now);
        SettleRuns(lots[a.lot := SettleLot(lots[a.lot], use, commit, now)], holdLots[k := SettlePart(a, use, commit)],
                   hold, order[1..], remaining - use, commit, now,
                   if goesBack then back + use else back, if goesBack then out else out + use);
      }
    }
  }

  predicate SamePart(a: HoldLot, b: HoldLot) {
    a.hold == b.hold && a.lot == b.lot && a.amount == b.amount && a.committed <= b.committed && a.released <= b.released
  }

  /** No part of the hold is on this lot. */
  predicate Unheld(holdLots: seq<HoldLot>, hold: nat, lot: nat) {
    forall k :: 0 <= k < |holdLots| && holdLots[k].hold == hold ==> holdLots[k].lot != lot
  }

  lemma {:induction false} SettlePartsShape(lots: seq<Lot>, holdLots: seq<HoldLot>, hold: nat, order: seq<nat>,
                                            remaining: int,
                                            commit: bool, now: Time, back: int, out: int)
    requires PartsOf(holdLots, hold, order) && PartsOk(holdLots) && References(lots, holdLots) && remaining >= 0
    requires SettleParts(lots, holdLots, order, remaining, commit, now, back, out).Settled?
    ensures var r := SettleParts(lots, holdLots, order, remaining, commit, now, back, out);
            && SameShape(lots, r.lots) && |r.holdLots| == |holdLots|
            && (forall k :: 0 <= k < |holdLots| ==> SamePart(holdLots[k], r.holdLots[k]))
            && (forall k: nat :: k < |holdLots| && k !in order ==> r.holdLots[k] == holdLots[k])
    decreases |order|
  {
    if order != [] && remaining != 0 {
      var k := order[0];
      assert k in order && order == [k] + order[1..] && forall x: nat :: x in order[1..] ==> x in order;
      var a := holdLots[k];
      var use := Min(Pending(a), remaining);
      if use == 0 {
        SettlePartsShape(lots, holdLots, hold, order[1..], remaining, commit, now, back, out);
      } else {
        var goesBack := GoesBack(lots[a.lot], commit, now);
        SettlePartsShape(lots[a.lot := SettleLot(lots[a.lot], use, commit, now)],
                         holdLots[k := SettlePart(a, use, commit)],
                         hold, order[1..], remaining - use, commit, now,
                         if goesBack then back + use else back, if goesBack then out else out + use);
      }
    }
  }

  lemma {:induction false} SettleUnheld(lots: seq<Lot>, holdLots: seq<HoldLot>, hold: nat, order: seq<nat>,
                                        remaining: int,
                                        commit: bool, now: Time, back: int, out: int, lot: nat)
    requires PartsOf(holdLots, hold, order) && Unheld(holdLots, hold, lot) && lot < |lots|
    requires SettleParts(lots, holdLots, order, remaining, commit, now, back, out).Settled?
    ensures var r := SettleParts(lots, holdLots, order, remaining, commit, now, back, out);
            lot < |r.lots| && r.lots[lot] == lots[lot]
    decreases |order|
  {
    if order != [] && remaining != 0 {
      var k := order[0];
      assert k in order && order == [k] + order[1..] && forall x: nat :: x in order[1..] ==> x in order;
      var a := holdLots[k];
      var use := Min(Pending(a), remaining);
      if use == 0 {
        SettleUnheld(lots, holdLots, hold, order[1..], remaining, commit, now, back, out, lot);
      } else {
        var goesBack := GoesBack(lots[a.lot], commit, now);
        SettleUnheld(lots[a.lot := SettleLot(lots[a.lot], use, commit, now)], holdLots[k := SettlePart(a, use, commit)],
                     hold, order[1..], remaining - use, commit, now,
                     if goesBack then back + use else back, if goesBack then out else out + use, lot);
      }
    }
  }

  /** What a settlement leaves alone: grants, other parts, and lots that carry none of the hold's parts. */
  lemma SettleShape(lots: seq<Lot>, holdLots: seq<HoldLot>, hold: nat, order: seq<nat>, remaining: int,
                    commit: bool, now: Time, back: int, out: int)
    requires PartsOf(holdLots, hold, order) && PartsOk(holdLots) && References(lots, holdLots) && remaining >= 0
    requires SettleParts(lots, holdLots, order, remaining, commit, now, back, out).Settled?
    ensures var r := SettleParts(lots, holdLots, order, remaining, commit, now, back, out);
            && SameShape(lots, r.lots) && |r.holdLots| == |holdLots|
            && (forall k :: 0 <= k < |holdLots| ==> SamePart(holdLots[k], r.holdLots[k]))
            && (forall k: nat :: k < |holdLots| && k !in order ==> r.holdLots[k] == holdLots[k])
            && (forall i: nat :: i < |lots| && Unheld(holdLots, hold, i) ==> r.lots[i] == lots[i])
  {
    hide SettleParts, PartsOf;
    SettlePartsShape(lots, holdLots, hold, order, remaining, commit, now, back, out);
    forall i: nat | i < |lots| && Unheld(holdLots, hold, i)
      ensures SettleParts(lots, holdLots, order, remaining, commit, now, back, out).lots[i] == lots[i]
    {
      SettleUnheld(lots, holdLots, hold, order, remaining, commit, now, back, out, i);
    }
  }

  lemma SettleLotSums(lots: seq<Lot>, i: nat, use: int, commit: bool, now: Time, c: nat)
    requires i < |lots|
    ensures var l := SettleLot(lots[i], use, commit, now);
            var back := if GoesBack(lots[i], commit, now) then use else 0;
            && Sum(AvailableOf(c), lots[i := l]) == Sum(AvailableOf(c), lots) + (if c == lots[i].owner then back else 0)
            && Sum(FrozenOf(c), lots[i := l]) == Sum(FrozenOf(c), lots) - (if c == lots[i].owner then use else 0)
            && Sum(Outstanding(), lots[i := l]) == Sum(Outstanding(), lots) - use + back
  {
    var l := SettleLot(lots[i], use, commit, now);
    SumUpdate(AvailableOf(c), lots, i, l);
    SumUpdate(FrozenOf(c), lots, i, l);
    SumUpdate(Outstanding(), lots, i, l);
  }

  /** The settled amount leaves the owner's frozen total; the part that goes back enters its available total. */
  lemma {:induction false} SettleSums(lots: seq<Lot>, holdLots: seq<HoldLot>, owner: nat, order: seq<nat>,
                                      remaining: int,
                                      commit: bool, now: Time, back: int, out: int, c: nat)
    requires References(lots, holdLots)
    requires forall x: nat :: x in order ==> x < |holdLots| && lots[holdLots[x].lot].owner == owner
    requires SettleParts(lots, holdLots, order, remaining, commit, now, back, out).Settled?
    ensures var r := SettleParts(lots, holdLots, order, remaining, commit, now, back, out);
            && Sum(AvailableOf(c), r.lots) == Sum(AvailableOf(c), lots) + (if c == owner then r.back - back else 0)
            && Sum(FrozenOf(c), r.lots) == Sum(FrozenOf(c), lots) - (if c == owner then remaining - r.remaining else 0)
            && Sum(Outstanding(), r.lots) == Sum(Outstanding(), lots) - (remaining - r.remaining) + (r.back - back)
    decreases |order|
  {
    hide Sum;
    if order != [] && remaining != 0 {
      var k := order[0];
      assert k in order && order == [k] + order[1..] && forall x: nat :: x in order[1..] ==> x in order;
      var a := holdLots[k];
      var use := Min(Pending(a), remaining);
      if use == 0 {
        SettleSums(lots, holdLots, owner, order[1..], remaining, commit, now, back, out, c);
      } else {
        var l := SettleLot(lots[a.lot], use, commit, now);
        SettleLotSums(lots, a.lot, use, commit, now, c);
        var goesBack := GoesBack(lots[a.lot], commit, now);
        SettleSums(lots[a.lot := l], holdLots[k := SettlePart(a, use, commit)], owner, order[1..], remaining - use,
                   commit, now,
                   if goesBack then back + use else back, if goesBack then out else out + use, c);
      }
    }
  }

  /** The settled amount is added to the committed or to the released total of the parts of this hold only. */
  lemma {:induction false} SettleTotals(lots: seq<Lot>, holdLots: seq<HoldLot>, hold: nat, order: seq<nat>,
                                        remaining: int,
                                        commit: bool, now: Time, back: int, out: int, h: nat)
    requires forall x: nat :: x in order ==> x < |holdLots| && holdLots[x].hold == hold
    requires SettleParts(lots, holdLots, order, remaining, commit, now, back, out).Settled?
    ensures var r := SettleParts(lots, holdLots, order, remaining, commit, now, back, out);
            var settled := if h == hold then remaining - r.remaining else 0;
            && Sum(AmountOf(h), r.holdLots) == Sum(AmountOf(h), holdLots)
            && Sum(CommittedOf(h), r.holdLots) == Sum(CommittedOf(h), holdLots) + (if commit then settled else 0)
            && Sum(ReleasedOf(h), r.holdLots) == Sum(ReleasedOf(h), holdLots) + (if commit then 0 else settled)
    decreases |order|
  {
    if order != [] && remaining != 0 {
      var k := order[0];
      assert k in order && order == [k] + order[1..] && forall x: nat :: x in order[1..] ==> x in order;
      var a := holdLots[k];
      var use := Min(Pending(a), remaining);
      if use == 0 {
        SettleTotals(lots, holdLots, hold, order[1..], remaining, commit, now, back, out, h);
      } else {
        var b := SettlePart(a, use, commit);
        SumUpdate(AmountOf(h), holdLots, k, b);
        SumUpdate(CommittedOf(h), holdLots, k, b);
        SumUpdate(ReleasedOf(h), holdLots, k, b);
        var goesBack := GoesBack(lots[a.lot], commit, now);
        SettleTotals(lots[a.lot := SettleLot(lots[a.lot], use, commit, now)], holdLots[k := b], hold, order[1..],
                     remaining - use, commit, now,
                     if goesBack then back + use else back, if goesBack then out else out + use, h);
      }
    }
  }

  /** Every unsettled part of the hold is still to come. */
  predicate CoversParts(holdLots: seq<HoldLot>, hold: nat, order: seq<nat>) {
    forall k: nat :: k < |holdLots| && holdLots[k].hold == hold && Pending(holdLots[k]) != 0 ==> k in order
  }

  /** Settling stops short only when the hold has no unsettled part left. */
  lemma {:induction false} SettleExhausts(lots: seq<Lot>, holdLots: seq<HoldLot>, hold: nat, order: seq<nat>,
                                          remaining: int,
                                          commit: bool, now: Time, back: int, out: int)
    requires PartsOk(holdLots) && CoversParts(holdLots, hold, order) && remaining >= 0
    requires SettleParts(lots, holdLots, order, remaining, commit, now, back, out).Settled?
    ensures var r := SettleParts(lots, holdLots, order, remaining, commit, now, back, out);
            r.remaining > 0 ==> Sum(PendingOf(hold), r.holdLots) == 0
    decreases |order|
  {
    if order == [] {
      SumZero(PendingOf(hold), holdLots);
    } else if remaining != 0 {
      var k := order[0];
      assert order == [k] + order[1..];
      var a := holdLots[k];
      var use := Min(Pending(a), remaining);
      if use == 0 {
        SettleExhausts(lots, holdLots, hold, order[1..], remaining, commit, now, back, out);
      } else {
        var goesBack := GoesBack(lots[a.lot], commit, now);
        var lots1 := lots[a.lot := SettleLot(lots[a.lot], use, commit, now)];
        var holdLots1 := holdLots[k := SettlePart(a, use, commit)];
        var back1, out1 := if goesBack then back + use else back, if goesBack then out else out + use;
        if use == remaining {
          assert SettleParts(lots1, holdLots1, order[1..], 0, commit, now, back1, out1).remaining == 0;
        } else {
          SettleExhausts(lots1, holdLots1, hold, order[1..], remaining - use, commit, now, back1, out1);
        }
      }
    }
  }

  lemma PendingTotal(holdLots: seq<HoldLot>, hold: nat)
    ensures Sum(PendingOf(hold), holdLots)
            == Sum(AmountOf(hold), holdLots) - Sum(CommittedOf(hold), holdLots) - Sum(ReleasedOf(hold), holdLots)
  {
    var f := (a: HoldLot) => AmountOf(hold)(a) - CommittedOf(hold)(a);
    SumSplit(AmountOf(hold), f, CommittedOf(hold), holdLots);
    SumSplit(f, PendingOf(hold), ReleasedOf(hold), holdLots);
  }
}
