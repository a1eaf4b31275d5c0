/** First expiry, first out: the greedy lot order is the best possible for every expiry date. */
module LedgerFefo {
  import opened Sums
  import opened Ordering
  import opened Machine
  import opened LedgerModel
  import opened LedgerLots

  function Max(a: int, b: int): int { if a < b then b else a }

  predicate ExpiresBy(l: Lot, t: Time) { l.expiresAt.Some? && l.expiresAt.value <= t }

  /** The customer's available amount in lots that expire by `t`. */
  function DueBy(owner: nat, t: Time): Lot -> int {
    (l: Lot) => if l.owner == owner && ExpiresBy(l, t) then l.available else 0
  }

  lemma FefoIsTotal(lots: seq<Lot>)
    ensures TotalOrder(FefoBefore(lots))
  {
  }

  /** Lots that expire by `t` come before lots that do not. */
  predicate DueFirst(lots: seq<Lot>, order: seq<nat>, t: Time)
    requires forall x: nat :: x in order ==> x < |lots|
    decreases |order|
  {
    if order == [] then true
    else
      assert order[0] in order && order == [order[0]] + order[1..] && forall x: nat :: x in order[1..] ==> x in order;
      && (ExpiresBy(lots[order[0]], t) || forall x: nat :: x in order ==> !ExpiresBy(lots[x], t))
      && DueFirst(lots, order[1..], t)
  }

  lemma {:induction false} DueFirstFromSorted(lots: seq<Lot>, order: seq<nat>, t: Time)
    requires forall x: nat :: x in order ==> x < |lots|
    requires Sorted(FefoBefore(lots), order)
    ensures DueFirst(lots, order, t)
    decreases |order|
  {
    if order != [] {
      assert order[0] in order && order == [order[0]] + order[1..] && forall x: nat :: x in order[1..] ==> x in order;
      forall x: nat | x in order && !ExpiresBy(lots[order[0]], t) ensures !ExpiresBy(lots[x], t) {
        var k :| 0 <= k < |order| && order[k] == x;
        assert k > 0 ==> FefoBefore(lots)(order[0], order[k]);
      }
      DueFirstFromSorted(lots, order[1..], t);
    }
  }

  lemma {:induction false} DueFirstFrame(lots: seq<Lot>, lots': seq<Lot>, order: seq<nat>, t: Time)
    requires SameShape(lots, lots') && forall x: nat :: x in order ==> x < |lots|
    requires DueFirst(lots, order, t)
    ensures DueFirst(lots', order, t)
    decreases |order|
  {
    if order != [] {
      assert order[0] in order && order == [order[0]] + order[1..] && forall x: nat :: x in order[1..] ==> x in order;
      DueFirstFrame(lots, lots', order[1..], t);
    }
  }

  lemma NothingDue(lots: seq<Lot>, owner: nat, order: seq<nat>, t: Time)
    requires LotsOk(lots) && Covers(lots, owner, order)
    requires forall x: nat :: x in order ==> x < |lots| && !ExpiresBy(lots[x], t)
    ensures Sum(DueBy(owner, t), lots) == 0
  {
    SumZero(DueBy(owner, t), lots);
  }

  lemma DueNonNegative(lots: seq<Lot>, owner: nat, t: Time)
    requires LotsOk(lots)
    ensures Sum(DueBy(owner, t), lots) >= 0
  {
    SumNonNegative(DueBy(owner, t), lots);
  }

  /** What stays true of the lots and the rest of the order after one greedy step. */
  lemma TakeShapeOne(lots: seq<Lot>, owner: nat, order: seq<nat>, remaining: int, freeze: bool, t: Time)
    requires LotsOk(lots) && OrderOf(lots, owner, order) && Covers(lots, owner, order)
    requires DueFirst(lots, order, t) && remaining > 0 && order != [] && order[0] in order
    ensures var i := order[0];
            var use := Min(remaining, lots[i].available);
            var lots1 := lots[i := TakeOne(lots[i], use, freeze)];
            && LotsOk(lots1) && OrderOf(lots1, owner, order[1..])
            && DueFirst(lots, order[1..], t) && DueFirst(lots1, order[1..], t)
               && (use < remaining ==> Covers(lots1, owner, order[1..]))
  {
    var i := order[0];
    assert order == [i] + order[1..] && forall x: nat :: x in order[1..] ==> x in order;
    var use := Min(remaining, lots[i].available);
    DueFirstFrame(lots, lots[i := TakeOne(lots[i], use, freeze)], order[1..], t);
  }

  /** One greedy step: the target max(0, due - remaining) does not change. */
  lemma TakeLeavesOne(lots: seq<Lot>, owner: nat, order: seq<nat>, remaining: int, freeze: bool, t: Time)
    requires LotsOk(lots) && OrderOf(lots, owner, order) && Covers(lots, owner, order)
    requires DueFirst(lots, order, t) && remaining > 0 && order != [] && order[0] in order
    ensures var i := order[0];
            var use := Min(remaining, lots[i].available);
            var lots1 := lots[i := TakeOne(lots[i], use, freeze)];
            && Max(0, Sum(DueBy(owner, t), lots1) - (remaining - use)) == Max(0, Sum(DueBy(owner, t), lots) - remaining)
            && Sum(DueBy(owner, t), lots1) >= 0
  {
    var i := order[0];
    var use := Min(remaining, lots[i].available);
    var lots1 := lots[i := TakeOne(lots[i], use, freeze)];
    SumUpdate(DueBy(owner, t), lots, i, TakeOne(lots[i], use, freeze));
    TakeShapeOne(lots, owner, order, remaining, freeze, t);
    DueNonNegative(lots1, owner, t);
    if !ExpiresBy(lots[i], t) {
      NothingDue(lots, owner, order, t);
    }
  }

  lemma {:induction false} TakeLeaves(lots: seq<Lot>, holdLots: seq<HoldLot>, hold: Option<nat>, owner: nat,
                                      order: seq<nat>, remaining: int, t: Time)
    requires LotsOk(lots) && OrderOf(lots, owner, order) && Covers(lots, owner, order)
    requires DueFirst(lots, order, t) && remaining >= 0
    ensures Sum(DueBy(owner, t), Take(lots, holdLots, hold, order, remaining).lots)
            == Max(0, Sum(DueBy(owner, t), lots) - remaining)
    decreases |order|
  {
    hide DueFirst, Sum, LotsOk, LotOk;
    DueNonNegative(lots, owner, t);
    if order == [] {
      NothingDue(lots, owner, order, t);
    } else if remaining != 0 {
      var i := order[0];
      assert i in order;
      TakeShapeOne(lots, owner, order, remaining, hold.Some?, t);
      TakeLeavesOne(lots, owner, order, remaining, hold.Some?, t);
      var use := Min(remaining, lots[i].available);
      var lots1 := lots[i := TakeOne(lots[i], use, hold.Some?)];
      var holdLots1 := if hold.Some? then holdLots + [HoldLot(hold.value, i, use, 0, 0)] else holdLots;
      if use == 0 {
        TakeLeaves(lots, holdLots, hold, owner, order[1..], remaining, t);
      } else if use == remaining {
        assert Take(lots1, holdLots1, hold, order[1..], 0).lots == lots1;
      } else {
        TakeLeaves(lots1, holdLots1, hold, owner, order[1..], remaining - use, t);
      }
    }
  }

  /** Consuming or freezing `amount` leaves, for every date, exactly what must be left in the lots expiring by it. */
  lemma FefoLeaves(lots: seq<Lot>, holdLots: seq<HoldLot>, hold: Option<nat>, owner: nat, amount: int, t: Time)
    requires LotsOk(lots) && amount >= 0
    ensures Sum(DueBy(owner, t), Take(lots, holdLots, hold, FefoOrder(lots, owner), amount).lots)
            == Max(0, Sum(DueBy(owner, t), lots) - amount)
  {
    FefoIsTotal(lots);
    QuerySorted(|lots|, HasAvailable(lots, owner), FefoBefore(lots));
    DueFirstFromSorted(lots, FefoOrder(lots, owner), t);
    TakeLeaves(lots, holdLots, hold, owner, FefoOrder(lots, owner), amount, t);
  }

  /** Any other way of taking the same amount from the customer's lots. */
  ghost predicate TakesInstead(lots: seq<Lot>, other: seq<Lot>, owner: nat, amount: int) {
    && SameShape(lots, other)
    && (forall i :: 0 <= i < |lots| ==> 0 <= other[i].available <= lots[i].available)
    && Sum(AvailableOf(owner), other) == Sum(AvailableOf(owner), lots) - amount
  }

  /** No other way of taking the amount leaves less in the lots expiring by any date. */
  lemma FefoIsOptimal(lots: seq<Lot>, other: seq<Lot>, holdLots: seq<HoldLot>, hold: Option<nat>, owner: nat,
                      amount: int, t: Time)
    requires LotsOk(lots) && amount >= 0 && TakesInstead(lots, other, owner, amount)
    ensures Sum(DueBy(owner, t), Take(lots, holdLots, hold, FefoOrder(lots, owner), amount).lots)
            <= Sum(DueBy(owner, t), other)
  {
    FefoLeaves(lots, holdLots, hold, owner, amount, t);
    SumDifference(DueBy(owner, t), AvailableOf(owner), lots, other);
    SumNonNegative(DueBy(owner, t), other);
  }

  /** So every debit and every freeze that posts takes from the lots that expire first, for every date at once. */
  lemma PostedLeaves(st: State, cmd: Command, t: Time)
    requires LotsOk(st.lots) && (cmd.DoDebit? || cmd.DoFreeze?) && Apply(st, cmd).Posted?
    ensures var owner := if cmd.DoDebit? then cmd.transfer.owner else cmd.freeze.owner;
            var amount := if cmd.DoDebit? then cmd.transfer.amount else cmd.freeze.amount;
            Sum(DueBy(owner, t), Next(st, cmd).lots) == Max(0, Sum(DueBy(owner, t), st.lots) - amount)
  {
    hide Take, FefoOrder, EnsureAccounts, FindTxn, FindHold, Sum, LotOk, LotsOk;
    match cmd
    case DoDebit(d) => FefoLeaves(st.lots, st.holdLots, None, d.owner, d.amount, t);
    case DoFreeze(f) => FefoLeaves(st.lots, st.holdLots, Some(|st.holds|), f.owner, f.amount, t);
  }
}
