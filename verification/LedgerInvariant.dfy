/** The ledger invariant and its preservation by every posting.
    `Core` relates lots, holds, hold parts, transactions and entries and never reads a balance amount;
    `Projected` says that every balance row equals the sum of its entries. */
module LedgerInvariant {
  import opened Sums
  import opened Ordering
  import opened Machine
  import opened LedgerModel
  import opened LedgerLots

  // ----- holds and their parts

  predicate HoldStatusOk(h: Hold) {
    && h.original > 0 && h.committed >= 0 && h.released >= 0 && h.committed + h.released <= h.original
    && (Terminal(h.status) <==> h.committed + h.released == h.original)
    && (h.status == Committed <==> h.committed == h.original)
    && (h.status == PartiallyCommitted <==> 0 < h.committed && h.committed + h.released < h.original)
  }

  ghost predicate HoldTotals(h: Hold, id: nat, holdLots: seq<HoldLot>) {
    && h.original == Sum(AmountOf(id), holdLots)
    && h.committed == Sum(CommittedOf(id), holdLots)
    && h.released == Sum(ReleasedOf(id), holdLots)
  }

  predicate HoldReferences(lots: seq<Lot>, holds: seq<Hold>, holdLots: seq<HoldLot>)
    requires References(lots, holdLots)
  {
    forall k :: 0 <= k < |holdLots| ==>
      holdLots[k].hold < |holds| && lots[holdLots[k].lot].owner == holds[holdLots[k].hold].owner
  }

  predicate OnePerLot(holdLots: seq<HoldLot>) {
    forall j, k :: 0 <= j < k < |holdLots| ==>
          !(holdLots[j].hold == holdLots[k].hold && holdLots[j].lot == holdLots[k].lot)
  }

  predicate Touched(a: HoldLot) { a.committed + a.released > 0 }

  /** Parts of a hold are settled in lot order: a part is touched only after all parts on earlier lots are settled. */
  predicate InLotOrder(holdLots: seq<HoldLot>) {
    forall j, k | 0 <= j < |holdLots| && 0 <= k < |holdLots| && holdLots[j].hold == holdLots[k].hold
                  && holdLots[j].lot < holdLots[k].lot && Touched(holdLots[k]) :: Pending(holdLots[j]) == 0
  }

  ghost predicate HoldsOk(lots: seq<Lot>, holds: seq<Hold>, holdLots: seq<HoldLot>) {
    && References(lots, holdLots) && HoldReferences(lots, holds, holdLots)
    && (forall h: nat :: h < |holds| ==> HoldStatusOk(holds[h]) && HoldTotals(holds[h], h, holdLots))
    && OnePerLot(holdLots) && InLotOrder(holdLots)
  }

  // ----- transactions and entries

  function TxnDelta(txn: nat): Entry -> int { (e: Entry) => if e.txn == txn then e.delta else 0 }

  /** Every transaction balances, except that transaction `open` is still `gap` away from zero. */
  ghost predicate BalancedUpTo(entries: seq<Entry>, count: nat, open: nat, gap: int) {
    && (forall k :: 0 <= k < |entries| ==> entries[k].txn < count)
    && (forall t: nat :: t < count ==> Sum(TxnDelta(t), entries) == if t == open then gap else 0)
  }

  ghost predicate Balanced(txns: seq<Transaction>, entries: seq<Entry>) {
    BalancedUpTo(entries, |txns|, |txns|, 0)
  }

  predicate UniqueTxns(txns: seq<Transaction>) {
    forall i, j :: 0 <= i < j < |txns| ==>
      !(txns[i].source == txns[j].source && txns[i].action == txns[j].action) && txns[i].key != txns[j].key
  }

  /** The entries of a customer add up to the customer's lots; the control account holds the opposite of all lots. */
  ghost predicate EntriesMatch(lots: seq<Lot>, entries: seq<Entry>) {
    && (forall c: nat :: Sum(AvailableOf(c), lots) == Sum(DeltaOn(AvailableRow(c)), entries))
    && (forall c: nat :: Sum(FrozenOf(c), lots) == Sum(DeltaOn(FrozenRow(c)), entries))
    && Sum(DeltaOn(CONTROL), entries) == -Sum(Outstanding(), lots)
    && Sum(DeltaOn(BalanceKey(Platform, Frozen)), entries) == 0
  }

  /** An account without a balance row has no entries to its name. */
  ghost predicate Covered(balances: map<BalanceKey, int>, entries: seq<Entry>) {
    forall row :: row !in balances ==> Sum(DeltaOn(row), entries) == 0
  }

  ghost predicate Core(st: State) {
    && RowsOk(st.lots, st.holdLots)
    && HoldsOk(st.lots, st.holds, st.holdLots)
    && Balanced(st.txns, st.entries)
    && UniqueTxns(st.txns)
    && EntriesMatch(st.lots, st.entries)
    && Covered(st.balances, st.entries)
  }

  /** How far a balance row is from the sum of its entries. */
  ghost function Drift(balances: map<BalanceKey, int>, entries: seq<Entry>, row: BalanceKey): int {
    Bal(balances, row) - Sum(DeltaOn(row), entries)
  }

  ghost predicate Projected(st: State) {
    forall row :: Drift(st.balances, st.entries, row) == 0
  }

  ghost predicate Inv(st: State) { Core(st) && Projected(st) }

  ghost predicate SameDrift(st: State, st': State) {
    forall row :: Drift(st'.balances, st'.entries, row) == Drift(st.balances, st.entries, row)
  }

  // ----- moves

  lemma MoveSums(st: State, id: nat, row: BalanceKey, delta: int, r: BalanceKey)
    ensures var st' := Move(st, id, row, delta);
            && Sum(DeltaOn(r), st'.entries) == Sum(DeltaOn(r), st.entries) + (if r == row then delta else 0)
            && Drift(st'.balances, st'.entries, r) == Drift(st.balances, st.entries, r)
  {
    SumSnoc(DeltaOn(r), st.entries, Entry(id, row, delta, Bal(st.balances, row) + delta));
  }

  lemma MoveKeeps(st: State, id: nat, row: BalanceKey, delta: int, gap: int)
    requires id < |st.txns| && BalancedUpTo(st.entries, |st.txns|, id, gap) && Covered(st.balances, st.entries)
    ensures var st' := Move(st, id, row, delta);
            && BalancedUpTo(st'.entries, |st.txns|, id, gap + delta)
            && Covered(st'.balances, st'.entries)
            && SameDrift(st, st')
  {
    var e := Entry(id, row, delta, Bal(st.balances, row) + delta);
    forall t: nat | t < |st.txns| ensures Sum(TxnDelta(t), st.entries + [e]) == if t == id then gap + delta else 0 {
      SumSnoc(TxnDelta(t), st.entries, e);
    }
    forall r ensures Drift(Move(st, id, row, delta).balances, st.entries + [e], r) == Drift(st.balances, st.entries, r)
              && Sum(DeltaOn(r), st.entries + [e]) == Sum(DeltaOn(r), st.entries) + (if r == row then delta else 0) {
      MoveSums(st, id, row, delta, r);
    }
  }

  lemma OpenTxn(st: State, t: Transaction)
    requires Balanced(st.txns, st.entries)
    ensures BalancedUpTo(st.entries, |st.txns| + 1, |st.txns|, 0)
  {
    SumZero(TxnDelta(|st.txns|), st.entries);
  }

  lemma EnsureKeeps(st: State, owner: nat)
    requires Covered(st.balances, st.entries)
    ensures var st1 := st.(balances := EnsureAccounts(st.balances, owner));
            && Covered(st1.balances, st1.entries) && SameDrift(st, st1)
            && forall row :: Bal(st1.balances, row) == Bal(st.balances, row)
  {
  }

  lemma UniqueAfter(txns: seq<Transaction>, t: Transaction)
    requires UniqueTxns(txns) && FindTxn(txns, t.source, t.action).None? && !KeyUsed(txns, t.key)
    ensures UniqueTxns(txns + [t])
  {
  }

  /** A new transaction with two opposite moves: it balances, no row drifts, and the two rows gain the deltas. */
  lemma TwoMoves(st: State, t: Transaction, r1: BalanceKey, r2: BalanceKey, delta: int)
    requires Balanced(st.txns, st.entries) && UniqueTxns(st.txns) && Covered(st.balances, st.entries)
    requires FindTxn(st.txns, t.source, t.action).None? && !KeyUsed(st.txns, t.key)
    requires r1 != r2
    ensures var id := |st.txns|;
            var st' := Move(Move(AddTxn(st, t), id, r1, delta), id, r2, -delta);
            && Balanced(st'.txns, st'.entries) && UniqueTxns(st'.txns) && Covered(st'.balances, st'.entries)
            && SameDrift(st, st')
            && (forall r :: Sum(DeltaOn(r), st'.entries)
                  == Sum(DeltaOn(r), st.entries) + (if r == r1 then delta else 0) - (if r == r2 then delta else 0))
  {
    hide BalancedUpTo, UniqueTxns, Covered, Drift, Sum;
    var id := |st.txns|;
    var st0 := AddTxn(st, t);
    var st1 := Move(st0, id, r1, delta);
    var st2 := Move(st1, id, r2, -delta);
    OpenTxn(st, t);
    UniqueAfter(st.txns, t);
    MoveKeeps(st0, id, r1, delta, 0);
    MoveKeeps(st1, id, r2, -delta, delta);
    forall r ensures Sum(DeltaOn(r), st2.entries)
                     == Sum(DeltaOn(r), st.entries) + (if r == r1 then delta else 0) - (if r == r2 then delta else 0)
              && Drift(st2.balances, st2.entries, r) == Drift(st.balances, st.entries, r) {
      MoveSums(st0, id, r1, delta, r);
      MoveSums(st1, id, r2, -delta, r);
    }
    BalancedClose(st2.entries, |st2.txns|, id);
  }

  lemma BalancedClose(entries: seq<Entry>, count: nat, id: nat)
    requires BalancedUpTo(entries, count, id, 0)
    ensures BalancedUpTo(entries, count, count, 0)
  {
  }

  // ----- direct postings

  /** Grants of other rows stay, so hold parts keep pointing at lots of the same owner. */
  lemma HoldsKeep(lots: seq<Lot>, lots': seq<Lot>, holds: seq<Hold>, holdLots: seq<HoldLot>)
    requires HoldsOk(lots, holds, holdLots)
    requires |lots| <= |lots'| && forall i :: 0 <= i < |lots| ==> lots'[i].owner == lots[i].owner
    ensures HoldsOk(lots', holds, holdLots)
  {
    forall k | 0 <= k < |holdLots|
      ensures holdLots[k].lot < |lots'| && holdLots[k].hold < |holds|
              && lots'[holdLots[k].lot].owner == holds[holdLots[k].hold].owner
    {
      assert holdLots[k].lot < |lots|;
    }
  }

  lemma GrantKeeps(lots: seq<Lot>, holdLots: seq<HoldLot>, l: Lot, c: nat)
    requires RowsOk(lots, holdLots) && LotOk(l) && l.frozen == 0
    ensures RowsOk(lots + [l], holdLots)
    ensures Sum(AvailableOf(c), lots + [l]) == Sum(AvailableOf(c), lots) + (if l.owner == c then l.available else 0)
    ensures Sum(FrozenOf(c), lots + [l]) == Sum(FrozenOf(c), lots)
    ensures Sum(Outstanding(), lots + [l]) == Sum(Outstanding(), lots) + l.available
  {
    SumZero(PendingOn(|lots|), holdLots);
    SumSnoc(AvailableOf(c), lots, l);
    SumSnoc(FrozenOf(c), lots, l);
    SumSnoc(Outstanding(), lots, l);
  }

  /** The entries follow the lots when both move by the same amounts. */
  lemma EntriesFollow(lots: seq<Lot>, lots': seq<Lot>, entries: seq<Entry>, entries': seq<Entry>,
                      owner: nat, available: int, frozen: int, control: int)
    requires EntriesMatch(lots, entries)
    requires forall c: nat ::
               Sum(AvailableOf(c), lots') == Sum(AvailableOf(c), lots) + (if c == owner then available else 0)
    requires forall c: nat :: Sum(FrozenOf(c), lots') == Sum(FrozenOf(c), lots) + (if c == owner then frozen else 0)
    requires Sum(Outstanding(), lots') == Sum(Outstanding(), lots) - control
    requires forall r :: Sum(DeltaOn(r), entries') == Sum(DeltaOn(r), entries)
               + (if r == AvailableRow(owner) then available else 0)
               + (if r == FrozenRow(owner) then frozen else 0)
               + (if r == CONTROL then control else 0)
    ensures EntriesMatch(lots', entries')
  {
  }

  /** A direct debit or credit keeps the core and no balance row drifts, whatever the balances are. */
  lemma PostTransferKeeps(st: State, t: Transaction, delta: int, expiresAt: Option<Time>)
    requires Core(st) && delta != 0
    requires FindTxn(st.txns, t.source, t.action).None? && !KeyUsed(st.txns, t.key)
    ensures var r := PostTransfer(st, t, delta, expiresAt);
            r.Posted? ==> Core(r.state) && SameDrift(st, r.state)
  {
    hide RowsOk, HoldsOk, BalancedUpTo, UniqueTxns, EntriesMatch, Covered, Drift, Sum;
    var r := PostTransfer(st, t, delta, expiresAt);
    if r.Posted? {
      var st' := r.state;
      TwoMoves(st, t, AvailableRow(t.owner), CONTROL, delta);
      if delta > 0 {
        CreditRows(st.lots, st.holdLots, GrantedLot(t.owner, |st.txns|, delta, expiresAt));
      } else {
        DebitRows(st.lots, st.holdLots, t.owner, -delta);
      }
      HoldsKeep(st.lots, st'.lots, st.holds, st.holdLots);
      EntriesFollow(st.lots, st'.lots, st.entries, st'.entries, t.owner, delta, 0, -delta);
    }
  }

  lemma CreditRows(lots: seq<Lot>, holdLots: seq<HoldLot>, l: Lot)
    requires RowsOk(lots, holdLots) && LotOk(l) && l.frozen == 0
    ensures RowsOk(lots + [l], holdLots)
    ensures forall c: nat ::
              Sum(AvailableOf(c), lots + [l]) == Sum(AvailableOf(c), lots) + (if c == l.owner then l.available else 0)
    ensures forall c: nat :: Sum(FrozenOf(c), lots + [l]) == Sum(FrozenOf(c), lots)
    ensures Sum(Outstanding(), lots + [l]) == Sum(Outstanding(), lots) + l.available
  {
    forall c: nat {
      GrantKeeps(lots, holdLots, l, c);
    }
    GrantKeeps(lots, holdLots, l, 0);
  }

  lemma DebitRows(lots: seq<Lot>, holdLots: seq<HoldLot>, owner: nat, amount: int)
    requires RowsOk(lots, holdLots) && amount >= 0
    requires Take(lots, holdLots, None, FefoOrder(lots, owner), amount).remaining == 0
    ensures var r := Take(lots, holdLots, None, FefoOrder(lots, owner), amount);
            && RowsOk(r.lots, holdLots) && SameShape(lots, r.lots)
            && (forall c: nat ::
                  Sum(AvailableOf(c), r.lots) == Sum(AvailableOf(c), lots) - (if c == owner then amount else 0))
            && (forall c: nat :: Sum(FrozenOf(c), r.lots) == Sum(FrozenOf(c), lots))
            && Sum(Outstanding(), r.lots) == Sum(Outstanding(), lots) - amount
  {
    var order := FefoOrder(lots, owner);
    var r := Take(lots, holdLots, None, order, amount);
    TakeShape(lots, holdLots, None, owner, order, amount);
    forall i: nat | i < |lots| ensures r.lots[i].frozen == Sum(PendingOn(i), holdLots) {
      TakePending(lots, holdLots, None, owner, order, amount, i);
    }
    forall c: nat {
      TakeSums(lots, holdLots, None, owner, order, amount, c);
    }
    TakeSums(lots, holdLots, None, owner, order, amount, 0);
  }

  lemma TransferKeeps(st: State, cmd: TransferCommand, credit: bool)
    requires Core(st)
    ensures var r := Transfer(st, cmd, credit);
            r.Posted? ==> Core(r.state) && SameDrift(st, r.state)
  {
    hide RowsOk, HoldsOk, BalancedUpTo, UniqueTxns, EntriesMatch, Covered, Drift, Sum;
    if Transfer(st, cmd, credit).Posted? {
      EnsureKeeps(st, cmd.owner);
      var action := if credit then Credit else Debit;
      PostTransferKeeps(st.(balances := EnsureAccounts(st.balances, cmd.owner)),
                        Transaction(cmd.source, action, cmd.owner, cmd.amount, None, cmd.key, RequestOf(cmd)),
                        if credit then cmd.amount else -cmd.amount, cmd.expiresAt);
    }
  }

  lemma ReverseKeeps(st: State, cmd: ReverseCommand)
    requires Core(st)
    ensures var r := ReverseTransfer(st, cmd);
            r.Posted? ==> Core(r.state) && SameDrift(st, r.state)
  {
    hide RowsOk, HoldsOk, BalancedUpTo, UniqueTxns, EntriesMatch, Covered, Drift, Sum;
    if ReverseTransfer(st, cmd).Posted? {
      var original := st.txns[cmd.original];
      var amount := if cmd.amount == 0 then original.amount else cmd.amount;
      EnsureKeeps(st, original.owner);
      PostTransferKeeps(st.(balances := EnsureAccounts(st.balances, original.owner)),
                        Transaction(cmd.source, Reverse, original.owner, amount, Some(cmd.original), cmd.key,
                                    OtherRequest),
                        if original.action == Debit then amount else -amount, None);
    }
  }

  // ----- freezing

  predicate NewParts(holdLots: seq<HoldLot>, holdLots': seq<HoldLot>, hold: nat) {
    && |holdLots| <= |holdLots'|
    && (forall k :: 0 <= k < |holdLots| ==> holdLots'[k] == holdLots[k])
    && (forall k :: |holdLots| <= k < |holdLots'| ==> holdLots'[k].hold == hold && !Touched(holdLots'[k]))
    && (forall j, k :: |holdLots| <= j < k < |holdLots'| ==> holdLots'[j].lot != holdLots'[k].lot)
  }

  /** Lots and parts after a freeze of `amount`. */
  lemma FreezeRows(lots: seq<Lot>, holdLots: seq<HoldLot>, hold: nat, owner: nat, amount: int)
    requires RowsOk(lots, holdLots) && amount >= 0
    requires Take(lots, holdLots, Some(hold), FefoOrder(lots, owner), amount).remaining == 0
    ensures var r := Take(lots, holdLots, Some(hold), FefoOrder(lots, owner), amount);
            && RowsOk(r.lots, r.holdLots) && SameShape(lots, r.lots) && NewParts(holdLots, r.holdLots, hold)
            && (forall k :: |holdLots| <= k < |r.holdLots| ==> lots[r.holdLots[k].lot].owner == owner)
            && (forall c: nat ::
                  Sum(AvailableOf(c), r.lots) == Sum(AvailableOf(c), lots) - (if c == owner then amount else 0))
            && (forall c: nat ::
                  Sum(FrozenOf(c), r.lots) == Sum(FrozenOf(c), lots) + (if c == owner then amount else 0))
            && Sum(Outstanding(), r.lots) == Sum(Outstanding(), lots)
  {
    var order := FefoOrder(lots, owner);
    var r := Take(lots, holdLots, Some(hold), order, amount);
    TakeShape(lots, holdLots, Some(hold), owner, order, amount);
    TakeParts(lots, holdLots, hold, owner, order, amount);
    assert forall k :: 0 <= k < |holdLots| ==> r.holdLots[k] == r.holdLots[..|holdLots|][k];
    forall i: nat | i < |lots| ensures r.lots[i].frozen == Sum(PendingOn(i), r.holdLots) {
      TakePending(lots, holdLots, Some(hold), owner, order, amount, i);
    }
    forall c: nat {
      TakeSums(lots, holdLots, Some(hold), owner, order, amount, c);
    }
    TakeSums(lots, holdLots, Some(hold), owner, order, amount, 0);
  }

  lemma FreezeHolds(lots: seq<Lot>, lots': seq<Lot>, holds: seq<Hold>, holdLots: seq<HoldLot>, holdLots': seq<HoldLot>,
                    hold: Hold)
    requires HoldsOk(lots, holds, holdLots) && PartsOk(holdLots') && References(lots', holdLots')
    requires SameShape(lots, lots') && NewParts(holdLots, holdLots', |holds|)
    requires forall k :: |holdLots| <= k < |holdLots'| ==> lots'[holdLots'[k].lot].owner == hold.owner
    requires HoldStatusOk(hold)
    requires forall h: nat :: h < |holds + [hold]| ==> HoldTotals((holds + [hold])[h], h, holdLots')
    ensures HoldsOk(lots', holds + [hold], holdLots')
  {
    forall k | 0 <= k < |holdLots'|
      ensures holdLots'[k].hold < |holds| + 1 && lots'[holdLots'[k].lot].owner
              == (holds + [hold])[holdLots'[k].hold].owner
    {
      if k < |holdLots| {
        assert holdLots'[k] == holdLots[k];
      }
    }
  }

  lemma FreezeTotals(lots: seq<Lot>, holds: seq<Hold>, holdLots: seq<HoldLot>, hold: Hold, h: nat)
    requires RowsOk(lots, holdLots) && HoldsOk(lots, holds, holdLots) && h <= |holds|
    requires hold.committed == 0 && hold.released == 0
    requires Take(lots, holdLots, Some(|holds|), FefoOrder(lots, hold.owner), hold.original).remaining == 0
    ensures HoldTotals((holds + [hold])[h], h,
                       Take(lots, holdLots, Some(|holds|), FefoOrder(lots, hold.owner), hold.original).holdLots)
  {
    TakeTotals(lots, holdLots, |holds|, hold.owner, FefoOrder(lots, hold.owner), hold.original, h);
    if h == |holds| {
      SumZero(AmountOf(h), holdLots);
      SumZero(CommittedOf(h), holdLots);
      SumZero(ReleasedOf(h), holdLots);
    } else {
      assert HoldTotals(holds[h], h, holdLots);
    }
  }

  lemma FreezeKeeps(st: State, cmd: FreezeCommand)
    requires Core(st)
    ensures var r := FreezeAmount(st, cmd);
            r.Posted? ==> Core(r.state) && SameDrift(st, r.state)
  {
    hide RowsOk, HoldsOk, BalancedUpTo, UniqueTxns, EntriesMatch, Covered, Drift, Sum;
    var r := FreezeAmount(st, cmd);
    if r.Posted? {
      var st' := r.state;
      EnsureKeeps(st, cmd.owner);
      TwoMoves(st.(balances := EnsureAccounts(st.balances, cmd.owner)),
               Transaction(cmd.source, Freeze, cmd.owner, cmd.amount, None, cmd.key, OtherRequest),
               AvailableRow(cmd.owner), FrozenRow(cmd.owner), -cmd.amount);
      var hold := Hold(cmd.reservation, cmd.owner, cmd.amount, 0, 0, HoldActive, cmd.source, cmd.holdExpiresAt);
      FreezeRows(st.lots, st.holdLots, |st.holds|, cmd.owner, cmd.amount);
      forall h: nat | h < |st.holds + [hold]| ensures HoldTotals((st.holds + [hold])[h], h, st'.holdLots) {
        FreezeTotals(st.lots, st.holds, st.holdLots, hold, h);
      }
      FreezeHolds(st.lots, st'.lots, st.holds, st.holdLots, st'.holdLots, hold);
      EntriesFollow(st.lots, st'.lots, st.entries, st'.entries, cmd.owner, -cmd.amount, cmd.amount, 0);
    }
  }

  // ----- settling a hold

  /** Each part comes before the parts on later lots. */
  predicate SortedByLot(holdLots: seq<HoldLot>, order: seq<nat>)
    requires forall x: nat :: x in order ==> x < |holdLots|
    decreases |order|
  {
    if order == [] then true
    else
      assert order[0] in order && order == [order[0]] + order[1..];
      assert forall x: nat :: x in order[1..] ==> x in order;
      (forall x: nat :: x in order ==> holdLots[order[0]].lot <= holdLots[x].lot) && SortedByLot(holdLots, order[1..])
  }

  lemma {:induction false} SortedSuffix(holdLots: seq<HoldLot>, order: seq<nat>)
    requires forall x: nat :: x in order ==> x < |holdLots|
    requires Sorted(LotIdBefore(holdLots), order)
    ensures SortedByLot(holdLots, order)
    decreases |order|
  {
    if order != [] {
      assert order[0] in order && order == [order[0]] + order[1..] && forall x: nat :: x in order[1..] ==> x in order;
      forall x: nat | x in order ensures holdLots[order[0]].lot <= holdLots[x].lot {
        var i :| 0 <= i < |order| && order[i] == x;
        assert i > 0 ==> LotIdBefore(holdLots)(order[0], order[i]);
      }
      SortedSuffix(holdLots, order[1..]);
    }
  }

  lemma OpenPartsOrder(holdLots: seq<HoldLot>, hold: nat)
    requires PartsOk(holdLots)
    ensures var order := OpenParts(holdLots, hold);
            PartsOf(holdLots, hold, order) && CoversParts(holdLots, hold, order) && SortedByLot(holdLots, order)
  {
    QuerySorted(|holdLots|, IsOpenPart(holdLots, hold), LotIdBefore(holdLots));
    SortedSuffix(holdLots, OpenParts(holdLots, hold));
  }

  predicate SameLots(holdLots: seq<HoldLot>, holdLots': seq<HoldLot>) {
    |holdLots| == |holdLots'| && forall k :: 0 <= k < |holdLots| ==> holdLots[k].lot == holdLots'[k].lot
  }

  lemma {:induction false} SortedFrame(holdLots: seq<HoldLot>, holdLots': seq<HoldLot>, order: seq<nat>)
    requires SameLots(holdLots, holdLots')
    requires forall x: nat :: x in order ==> x < |holdLots|
    requires SortedByLot(holdLots, order)
    ensures SortedByLot(holdLots', order)
    decreases |order|
  {
    if order != [] {
      assert order[0] in order && order == [order[0]] + order[1..] && forall x: nat :: x in order[1..] ==> x in order;
      SortedFrame(holdLots, holdLots', order[1..]);
    }
  }

  /** Settling some of the first open part of a hold keeps its parts settled in lot order. */
  lemma FirstOpenPart(holdLots: seq<HoldLot>, hold: nat, order: seq<nat>, use: int, commit: bool)
    requires PartsOk(holdLots) && InLotOrder(holdLots) && order != []
    requires PartsOf(holdLots, hold, order) && CoversParts(holdLots, hold, order) && SortedByLot(holdLots, order)
    requires order[0] in order && 0 < use <= Pending(holdLots[order[0]])
    ensures InLotOrder(holdLots[order[0] := SettlePart(holdLots[order[0]], use, commit)])
  {
    var k := order[0];
    var after := holdLots[k := SettlePart(holdLots[k], use, commit)];
    forall i, j | 0 <= i < |after| && 0 <= j < |after| && after[i].hold == after[j].hold
                  && after[i].lot < after[j].lot && Touched(after[j])
      ensures Pending(after[i]) == 0
    {
      if j == k {
        assert i !in order;
      } else {
        assert Touched(holdLots[j]) && Pending(holdLots[i]) == 0;
      }
    }
  }

  /** Settling in lot order keeps parts settled in lot order. */
  lemma {:induction false} SettleInOrder(lots: seq<Lot>, holdLots: seq<HoldLot>, hold: nat, order: seq<nat>,
                                         remaining: int,
                                         commit: bool, now: Time, back: int, out: int)
    requires PartsOk(holdLots) && InLotOrder(holdLots) && remaining >= 0
    requires PartsOf(holdLots, hold, order) && CoversParts(holdLots, hold, order) && SortedByLot(holdLots, order)
    requires SettleParts(lots, holdLots, order, remaining, commit, now, back, out).Settled?
    ensures InLotOrder(SettleParts(lots, holdLots, order, remaining, commit, now, back, out).holdLots)
    decreases |order|
  {
    if order != [] && remaining != 0 {
      var k := order[0];
      assert k in order && order == [k] + order[1..] && forall x: nat :: x in order[1..] ==> x in order;
      var a := holdLots[k];
      var use := Min(Pending(a), remaining);
      if use == 0 {
        SettleInOrder(lots, holdLots, hold, order[1..], remaining, commit, now, back, out);
      } else {
        var holdLots1 := holdLots[k := SettlePart(a, use, commit)];
        FirstOpenPart(holdLots, hold, order, use, commit);
        SortedFrame(holdLots, holdLots1, order[1..]);
        var goesBack := GoesBack(lots[a.lot], commit, now);
        var lots1 := lots[a.lot := SettleLot(lots[a.lot], use, commit, now)];
        var back1, out1 := if goesBack then back + use else back, if goesBack then out else out + use;
        if use == remaining {
          assert SettleParts(lots1, holdLots1, order[1..], 0, commit, now, back1, out1).holdLots == holdLots1;
        } else {
          SettleInOrder(lots1, holdLots1, hold, order[1..], remaining - use, commit, now, back1, out1);
        }
      }
    }
  }

  /** Moves of a settlement: balanced, no drift, the three rows gain exactly -amount, back and out. */
  lemma SettleMovesKeep(st: State, t: Transaction, owner: nat, amount: int, back: int, out: int)
    requires Balanced(st.txns, st.entries) && UniqueTxns(st.txns) && Covered(st.balances, st.entries)
    requires FindTxn(st.txns, t.source, t.action).None? && !KeyUsed(st.txns, t.key)
    requires back >= 0 && out >= 0 && back + out == amount
    ensures var st' := SettleMoves(AddTxn(st, t), |st.txns|, owner, amount, back, out);
            && Balanced(st'.txns, st'.entries) && UniqueTxns(st'.txns) && Covered(st'.balances, st'.entries)
            && SameDrift(st, st') && st'.txns == st.txns + [t]
            && (forall r :: Sum(DeltaOn(r), st'.entries) == Sum(DeltaOn(r), st.entries)
                  - (if r == FrozenRow(owner) then amount else 0)
                  + (if r == AvailableRow(owner) then back else 0)
                  + (if r == CONTROL then out else 0))
  {
    hide BalancedUpTo, UniqueTxns, Covered, Drift, Sum;
    var id := |st.txns|;
    var st0 := AddTxn(st, t);
    var st1 := Move(st0, id, FrozenRow(owner), -amount);
    var st2 := if back > 0 then Move(st1, id, AvailableRow(owner), back) else st1;
    var st3 := SettleMoves(st0, id, owner, amount, back, out);
    OpenTxn(st, t);
    UniqueAfter(st.txns, t);
    MoveKeeps(st0, id, FrozenRow(owner), -amount, 0);
    if back > 0 { MoveKeeps(st1, id, AvailableRow(owner), back, -amount); }
    if out > 0 { MoveKeeps(st2, id, CONTROL, out, back - amount); }
    forall r ensures Sum(DeltaOn(r), st3.entries) == Sum(DeltaOn(r), st.entries)
                     - (if r == FrozenRow(owner) then amount else 0)
                     + (if r == AvailableRow(owner) then back else 0)
                     + (if r == CONTROL then out else 0)
              && Drift(st3.balances, st3.entries, r) == Drift(st.balances, st.entries, r) {
      MoveSums(st0, id, FrozenRow(owner), -amount, r);
      MoveSums(st1, id, AvailableRow(owner), back, r);
      MoveSums(st2, id, CONTROL, out, r);
    }
    BalancedClose(st3.entries, |st3.txns|, id);
  }

  /** Lots and parts after settling `amount` of a hold: no guard fires and everything is allocated. */
  lemma SettleRows(lots: seq<Lot>, holds: seq<Hold>, holdLots: seq<HoldLot>, hold: nat, amount: int, commit: bool,
                   now: Time)
    requires RowsOk(lots, holdLots) && HoldsOk(lots, holds, holdLots) && hold < |holds|
    requires 0 < amount <= holds[hold].original - holds[hold].committed - holds[hold].released
    ensures var r := SettleParts(lots, holdLots, OpenParts(holdLots, hold), amount, commit, now, 0, 0);
            && r.Settled? && r.remaining == 0 && r.back >= 0 && r.out >= 0 && r.back + r.out == amount
               && (commit ==> r.back == 0)
            && RowsOk(r.lots, r.holdLots) && SameShape(lots, r.lots) && InLotOrder(r.holdLots)
            && |r.holdLots| == |holdLots| && (forall k :: 0 <= k < |holdLots| ==> SamePart(holdLots[k], r.holdLots[k]))
  {
    hide RowsOk, SamePart, SameShape, InLotOrder, PartOk, SettleParts, OpenParts, StatusAfter;
    var order := OpenParts(holdLots, hold);
    assert PartsOk(holdLots) && References(lots, holdLots) by { SettlePre(lots, holdLots); }
    OpenPartsOrder(holdLots, hold);
    SettleRuns(lots, holdLots, hold, order, amount, commit, now, 0, 0);
    SettleShape(lots, holdLots, hold, order, amount, commit, now, 0, 0);
    SettleExhausts(lots, holdLots, hold, order, amount, commit, now, 0, 0);
    SettleInOrder(lots, holdLots, hold, order, amount, commit, now, 0, 0);
    SettleTotals(lots, holdLots, hold, order, amount, commit, now, 0, 0, hold);
    PendingTotal(SettleParts(lots, holdLots, order, amount, commit, now, 0, 0).holdLots, hold);
    assert HoldTotals(holds[hold], hold, holdLots);
  }

  lemma SettlePre(lots: seq<Lot>, holdLots: seq<HoldLot>)
    requires RowsOk(lots, holdLots)
    ensures LotsOk(lots) && PartsOk(holdLots) && References(lots, holdLots)
  {
  }

  /** The owner's totals after settling, for every customer. */
  lemma SettleOwner(lots: seq<Lot>, holds: seq<Hold>, holdLots: seq<HoldLot>, hold: nat, amount: int, commit: bool,
                    now: Time)
    requires RowsOk(lots, holdLots) && HoldsOk(lots, holds, holdLots) && hold < |holds|
    requires SettleParts(lots, holdLots, OpenParts(holdLots, hold), amount, commit, now, 0, 0).Settled?
    requires SettleParts(lots, holdLots, OpenParts(holdLots, hold), amount, commit, now, 0, 0).remaining == 0
    ensures var r := SettleParts(lots, holdLots, OpenParts(holdLots, hold), amount, commit, now, 0, 0);
            var owner := holds[hold].owner;
            && (forall c: nat ::
                  Sum(AvailableOf(c), r.lots) == Sum(AvailableOf(c), lots) + (if c == owner then r.back else 0))
            && (forall c: nat ::
                  Sum(FrozenOf(c), r.lots) == Sum(FrozenOf(c), lots) - (if c == owner then amount else 0))
            && Sum(Outstanding(), r.lots) == Sum(Outstanding(), lots) - amount + r.back
  {
    hide SettleParts, Sum;
    var owner, order := holds[hold].owner, OpenParts(holdLots, hold);
    forall c: nat {
      SettleSums(lots, holdLots, owner, order, amount, commit, now, 0, 0, c);
    }
    SettleSums(lots, holdLots, owner, order, amount, commit, now, 0, 0, 0);
  }

  function HoldAfter(h: Hold, action: Action, amount: int): Hold {
    var committed := if action == Commit then h.committed + amount else h.committed;
    var released := if action == Commit then h.released else h.released + amount;
    h.(committed := committed, released := released, status := StatusAfter(action, h.original, committed, released))
  }

  /** The hold row after settling: totals agree with the parts, the status with the totals. */
  lemma SettleHolds(lots: seq<Lot>, holds: seq<Hold>, holdLots: seq<HoldLot>, hold: nat, amount: int, action: Action,
                    now: Time)
    requires RowsOk(lots, holdLots) && HoldsOk(lots, holds, holdLots) && hold < |holds|
    requires 0 < amount <= holds[hold].original - holds[hold].committed - holds[hold].released
    ensures var r := SettleParts(lots, holdLots, OpenParts(holdLots, hold), amount, action == Commit, now, 0, 0);
            r.Settled? && HoldsOk(r.lots, holds[hold := HoldAfter(holds[hold], action, amount)], r.holdLots)
  {
    var order, commit := OpenParts(holdLots, hold), action == Commit;
    SettleRows(lots, holds, holdLots, hold, amount, commit, now);
    var r := SettleParts(lots, holdLots, order, amount, commit, now, 0, 0);
    var holds' := holds[hold := HoldAfter(holds[hold], action, amount)];
    hide SettleParts, Sum, OpenParts, InLotOrder, RowsOk;
    forall x: nat | x < |holds'| ensures HoldStatusOk(holds'[x]) && HoldTotals(holds'[x], x, r.holdLots) {
      assert HoldStatusOk(holds[x]) && HoldTotals(holds[x], x, holdLots);
      HoldTotalsFollow(lots, holds[x], holdLots, hold, amount, action, now, x);
    }
    HoldRowsFollow(lots, r.lots, holds, holds', holdLots, r.holdLots);
    assert References(r.lots, r.holdLots) by { SettlePre(r.lots, r.holdLots); }
  }

  lemma HoldTotalsFollow(lots: seq<Lot>, h: Hold, holdLots: seq<HoldLot>, hold: nat, amount: int, action: Action,
                         now: Time, x: nat)
    requires HoldStatusOk(h) && HoldTotals(h, x, holdLots)
    requires SettleParts(lots, holdLots, OpenParts(holdLots, hold), amount, action == Commit, now, 0, 0).Settled?
    requires SettleParts(lots, holdLots, OpenParts(holdLots, hold), amount, action == Commit, now, 0, 0).remaining == 0
    requires x == hold ==> 0 < amount <= h.original - h.committed - h.released
    ensures var h' := if x == hold then HoldAfter(h, action, amount) else h;
            HoldStatusOk(h')
                && HoldTotals(h', x,
                              SettleParts(lots, holdLots, OpenParts(holdLots, hold), amount, action == Commit, now, 0,
                                          0).holdLots)
  {
    hide SettleParts, Sum;
    SettleTotals(lots, holdLots, hold, OpenParts(holdLots, hold), amount, action == Commit, now, 0, 0, x);
  }

  lemma HoldRowsFollow(lots: seq<Lot>, lots': seq<Lot>, holds: seq<Hold>, holds': seq<Hold>, holdLots: seq<HoldLot>,
                       holdLots': seq<HoldLot>)
    requires HoldsOk(lots, holds, holdLots) && SameShape(lots, lots')
    requires |holds| == |holds'| && forall h :: 0 <= h < |holds| ==> holds[h].owner == holds'[h].owner
    requires |holdLots'| == |holdLots| && forall k :: 0 <= k < |holdLots| ==> SamePart(holdLots[k], holdLots'[k])
    ensures References(lots', holdLots') && HoldReferences(lots', holds', holdLots') && OnePerLot(holdLots')
  {
  }

  lemma SettleKeeps(st: State, cmd: HoldCommand, action: Action, now: Time)
    requires Core(st)
    ensures var r := SettleHold(st, cmd, action, now);
            r.Posted? ==> Core(r.state) && SameDrift(st, r.state)
  {
    hide RowsOk, HoldsOk, BalancedUpTo, UniqueTxns, EntriesMatch, Covered, Drift, Sum;
    var r := SettleHold(st, cmd, action, now);
    if r.Posted? {
      var st' := r.state;
      var hold := st.holds[cmd.hold];
      var amount, commit := ActionAmount(hold, cmd.amount), action == Commit;
      EnsureKeeps(st, hold.owner);
      SettleRows(st.lots, st.holds, st.holdLots, cmd.hold, amount, commit, now);
      SettleOwner(st.lots, st.holds, st.holdLots, cmd.hold, amount, commit, now);
      SettleHolds(st.lots, st.holds, st.holdLots, cmd.hold, amount, action, now);
      var settled := SettleParts(st.lots, st.holdLots, OpenParts(st.holdLots, cmd.hold), amount, commit, now, 0, 0);
      var t := Transaction(cmd.source, action, hold.owner, amount, None, cmd.key, OtherRequest);
      SettleMovesKeep(st.(balances := EnsureAccounts(st.balances, hold.owner)), t, hold.owner, amount, settled.back,
                      settled.out);
      EntriesFollow(st.lots, st'.lots, st.entries, st'.entries, hold.owner, settled.back, -amount, settled.out);
    }
  }

  // ----- expiring a lot

  function ExpiredLot(l: Lot): Lot {
    l.(available := 0, expired := l.expired + l.available, status := LotExpired)
  }

  lemma ExpireRows(lots: seq<Lot>, holdLots: seq<HoldLot>, lot: nat)
    requires RowsOk(lots, holdLots) && lot < |lots|
    ensures var lots' := lots[lot := ExpiredLot(lots[lot])];
            && RowsOk(lots', holdLots)
            && (forall c: nat ::
                  Sum(AvailableOf(c), lots')
                  == Sum(AvailableOf(c), lots) - (if c == lots[lot].owner then lots[lot].available else 0))
            && (forall c: nat :: Sum(FrozenOf(c), lots') == Sum(FrozenOf(c), lots))
            && Sum(Outstanding(), lots') == Sum(Outstanding(), lots) - lots[lot].available
  {
    var l := ExpiredLot(lots[lot]);
    forall c: nat
      ensures Sum(AvailableOf(c), lots[lot := l])
              == Sum(AvailableOf(c), lots) - (if c == lots[lot].owner then lots[lot].available else 0)
      ensures Sum(FrozenOf(c), lots[lot := l]) == Sum(FrozenOf(c), lots)
    {
      SumUpdate(AvailableOf(c), lots, lot, l);
      SumUpdate(FrozenOf(c), lots, lot, l);
    }
    SumUpdate(Outstanding(), lots, lot, l);
  }

  lemma ExpireKeeps(st: State, lot: nat, now: Time)
    requires Core(st)
    ensures var r := ExpireLot(st, lot, now);
            r.Posted? ==> Core(r.state) && SameDrift(st, r.state)
  {
    hide RowsOk, HoldsOk, BalancedUpTo, UniqueTxns, EntriesMatch, Covered, Drift, Sum;
    var r := ExpireLot(st, lot, now);
    if r.Posted? {
      var st', l := r.state, st.lots[lot];
      EnsureKeeps(st, l.owner);
      var t := Transaction(Source(Expiry, Id(lot)), Expire, l.owner, l.available, None,
                           IdempotencyKey(SYSTEM, LotToken(lot)), OtherRequest);
      TwoMoves(st.(balances := EnsureAccounts(st.balances, l.owner)), t, AvailableRow(l.owner), CONTROL, -l.available);
      ExpireRows(st.lots, st.holdLots, lot);
      HoldsKeep(st.lots, st'.lots, st.holds, st.holdLots);
      EntriesFollow(st.lots, st'.lots, st.entries, st'.entries, l.owner, -l.available, 0, l.available);
    }
  }

  // ----- every step, every run

  lemma StepKeepsCore(st: State, cmd: Command)
    requires Core(st)
    ensures Core(Next(st, cmd)) && SameDrift(st, Next(st, cmd))
  {
    match cmd
    case DoCredit(t) => TransferKeeps(st, t, true);
    case DoDebit(t) => TransferKeeps(st, t, false);
    case DoReverse(r) => ReverseKeeps(st, r);
    case DoFreeze(f) => FreezeKeeps(st, f);
    case DoCommit(h, now) => SettleKeeps(st, h, Commit, now);
    case DoRelease(h, now) => SettleKeeps(st, h, Release, now);
    case DoExpireHold(h, now) => SettleKeeps(st, ExpiryOf(h), Expire, now);
    case DoExpireLot(l, now) => ExpireKeeps(st, l, now);
  }

  lemma {:induction false} RunKeepsCore(st: State, cmds: seq<Command>)
    requires Core(st)
    ensures Core(Run(st, cmds)) && SameDrift(st, Run(st, cmds))
  {
    if cmds != [] {
      RunKeepsCore(st, cmds[..|cmds| - 1]);
      StepKeepsCore(Run(st, cmds[..|cmds| - 1]), cmds[|cmds| - 1]);
    }
  }

  lemma EmptyHolds(asset: AssetType)
    ensures Inv(Empty(asset))
  {
  }

  /** Whatever is posted, in any order and with any rejections, the whole invariant holds after every step. */
  lemma RunKeepsInv(asset: AssetType, cmds: seq<Command>)
    ensures Inv(Run(Empty(asset), cmds))
  {
    EmptyHolds(asset);
    RunKeepsCore(Empty(asset), cmds);
    var st := Run(Empty(asset), cmds);
    assert forall row :: Drift(st.balances, st.entries, row) == Drift(map[], [], row);
  }
}
