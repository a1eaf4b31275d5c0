/** What the invariant buys: the "cannot happen" guards are dead, money is conserved within 64 bits,
    and holds follow their life cycle. */
module LedgerSafety {
  import opened Sums
  import opened Ordering
  import opened Machine
  import opened LedgerModel
  import opened LedgerLots
  import opened LedgerInvariant

  // ----- dead guards

  /** The unsettled amount of a part, counted for the owner of its lot, over the first `n` lots. */
  function PendingIn(lots: seq<Lot>, owner: nat, n: nat): HoldLot -> int {
    (a: HoldLot) => if a.lot < n && a.lot < |lots| && lots[a.lot].owner == owner then Pending(a) else 0
  }

  lemma {:induction false} FrozenByPart(lots: seq<Lot>, holdLots: seq<HoldLot>, owner: nat, n: nat)
    requires FrozenMatches(lots, holdLots) && n <= |lots|
    ensures Sum(FrozenOf(owner), lots[..n]) == Sum(PendingIn(lots, owner, n), holdLots)
  {
    if n == 0 {
      SumZero(PendingIn(lots, owner, 0), holdLots);
    } else {
      FrozenByPart(lots, holdLots, owner, n - 1);
      assert lots[..n][..n - 1] == lots[..n - 1];
      if lots[n - 1].owner == owner {
        SumSplit(PendingIn(lots, owner, n), PendingIn(lots, owner, n - 1), PendingOn(n - 1), holdLots);
      } else {
        SumSame(PendingIn(lots, owner, n), PendingIn(lots, owner, n - 1), holdLots);
      }
    }
  }

  /** A hold never has more to settle than its owner has frozen. */
  lemma RemainderIsFrozen(lots: seq<Lot>, holds: seq<Hold>, holdLots: seq<HoldLot>, hold: nat)
    requires RowsOk(lots, holdLots) && HoldsOk(lots, holds, holdLots) && hold < |holds|
    ensures holds[hold].original - holds[hold].committed - holds[hold].released
            <= Sum(FrozenOf(holds[hold].owner), lots)
  {
    var owner := holds[hold].owner;
    assert HoldTotals(holds[hold], hold, holdLots);
    PendingTotal(holdLots, hold);
    FrozenByPart(lots, holdLots, owner, |lots|);
    assert lots[..|lots|] == lots;
    forall k | 0 <= k < |holdLots| ensures PendingOf(hold)(holdLots[k]) <= PendingIn(lots, owner, |lots|)(holdLots[k]) {
      assert PartOk(holdLots[k]);
    }
    SumMono(PendingOf(hold), PendingIn(lots, owner, |lots|), holdLots);
  }

  lemma BalancesAreLots(st: State, c: nat)
    requires Inv(st)
    ensures Bal(st.balances, AvailableRow(c)) == Sum(AvailableOf(c), st.lots) >= 0
    ensures Bal(st.balances, FrozenRow(c)) == Sum(FrozenOf(c), st.lots) >= 0
    ensures Bal(st.balances, CONTROL) == -Sum(Outstanding(), st.lots)
  {
    assert Drift(st.balances, st.entries, AvailableRow(c)) == 0;
    assert Drift(st.balances, st.entries, FrozenRow(c)) == 0;
    assert Drift(st.balances, st.entries, CONTROL) == 0;
    SumNonNegative(AvailableOf(c), st.lots);
    SumNonNegative(FrozenOf(c), st.lots);
  }

  lemma DebitNeverFails(st: State, t: Transaction, delta: int, expiresAt: Option<Time>)
    requires RowsOk(st.lots, st.holdLots)
    requires delta < 0 ==> -delta <= Sum(AvailableOf(t.owner), st.lots)
    ensures PostTransfer(st, t, delta, expiresAt).Posted?
  {
    if delta <= 0 {
      TakeSucceeds(st.lots, st.holdLots, None, t.owner, -delta);
      SumNonNegative(AvailableOf(t.owner), st.lots);
    }
  }

  lemma EnsureBalances(st: State, owner: nat)
    ensures forall row :: Bal(EnsureAccounts(st.balances, owner), row) == Bal(st.balances, row)
  {
  }

  /** In every state the invariant allows, none of the internal-error guards can fire. */
  lemma InternalErrorsUnreachable(st: State, cmd: Command)
    requires Inv(st)
    ensures Apply(st, cmd).Rejected? ==> !Apply(st, cmd).error.Internal()
  {
    hide RowsOk, HoldsOk, BalancedUpTo, UniqueTxns, EntriesMatch, Covered, Drift, Sum, Take, SettleParts;
    match cmd
    case DoCredit(t) => TransferNotInternal(st, t, true);
    case DoDebit(t) => TransferNotInternal(st, t, false);
    case DoReverse(r) => ReverseNotInternal(st, r);
    case DoFreeze(f) =>
      BalancesAreLots(st, f.owner);
      EnsureBalances(st, f.owner);
      if f.amount > 0 {
        assert LotsOk(st.lots) by { SettlePre(st.lots, st.holdLots); }
        TakeSucceeds(st.lots, st.holdLots, Some(|st.holds|), f.owner, f.amount);
      }
    case DoCommit(h, now) => SettleNotInternal(st, h, Commit, now);
    case DoRelease(h, now) => SettleNotInternal(st, h, Release, now);
    case DoExpireHold(h, now) => SettleNotInternal(st, ExpiryOf(h), Expire, now);
    case DoExpireLot(l, now) =>
      if l < |st.lots| {
        BalancesAreLots(st, st.lots[l].owner);
        EnsureBalances(st, st.lots[l].owner);
        assert LotsOk(st.lots) by { SettlePre(st.lots, st.holdLots); }
        SumAtLeast(AvailableOf(st.lots[l].owner), st.lots, l);
      }
  }

  lemma TransferNotInternal(st: State, cmd: TransferCommand, credit: bool)
    requires Inv(st)
    ensures Transfer(st, cmd, credit).Rejected? ==> !Transfer(st, cmd, credit).error.Internal()
  {
    hide RowsOk, HoldsOk, BalancedUpTo, UniqueTxns, EntriesMatch, Covered, Drift, Sum, Take;
    BalancesAreLots(st, cmd.owner);
    EnsureBalances(st, cmd.owner);
    var st1 := st.(balances := EnsureAccounts(st.balances, cmd.owner));
    var action, delta := if credit then Credit else Debit, if credit then cmd.amount else -cmd.amount;
    if TransferBlocked(st1.balances, cmd.owner, delta).None? {
      DebitNeverFails(st1, Transaction(cmd.source, action, cmd.owner, cmd.amount, None, cmd.key, RequestOf(cmd)), delta,
                      cmd.expiresAt);
    }
  }

  lemma ReverseNotInternal(st: State, cmd: ReverseCommand)
    requires Inv(st)
    ensures ReverseTransfer(st, cmd).Rejected? ==> !ReverseTransfer(st, cmd).error.Internal()
  {
    hide RowsOk, HoldsOk, BalancedUpTo, UniqueTxns, EntriesMatch, Covered, Drift, Sum, Take;
    if cmd.original < |st.txns| {
      var original := st.txns[cmd.original];
      BalancesAreLots(st, original.owner);
      EnsureBalances(st, original.owner);
      var st1 := st.(balances := EnsureAccounts(st.balances, original.owner));
      var amount := if cmd.amount == 0 then original.amount else cmd.amount;
      var delta := if original.action == Debit then amount else -amount;
      if TransferBlocked(st1.balances, original.owner, delta).None? {
        DebitNeverFails(st1,
                        Transaction(cmd.source, Reverse, original.owner, amount, Some(cmd.original), cmd.key,
                                    OtherRequest), delta, None);
      }
    }
  }

  lemma SettleNotInternal(st: State, cmd: HoldCommand, action: Action, now: Time)
    requires Inv(st)
    ensures SettleHold(st, cmd, action, now).Rejected? ==> !SettleHold(st, cmd, action, now).error.Internal()
  {
    hide RowsOk, HoldsOk, BalancedUpTo, UniqueTxns, EntriesMatch, Covered, Drift, Sum, SettleParts;
    if cmd.hold < |st.holds| {
      var hold := st.holds[cmd.hold];
      var amount := ActionAmount(hold, cmd.amount);
      BalancesAreLots(st, hold.owner);
      EnsureBalances(st, hold.owner);
      RemainderIsFrozen(st.lots, st.holds, st.holdLots, cmd.hold);
      if 0 < amount <= hold.original - hold.committed - hold.released {
        SettleRows(st.lots, st.holds, st.holdLots, cmd.hold, amount, action == Commit, now);
      }
    }
  }

  // ----- conservation and the machine bound

  /** What one customer holds, over all lots. */
  function HeldBy(c: nat): Lot -> int { (l: Lot) => if l.owner == c then l.available + l.frozen else 0 }

  function HeldByOthers(c: nat): Lot -> int { (l: Lot) => if l.owner == c then 0 else l.available + l.frozen }

  ghost function Held(st: State, c: nat): int {
    Bal(st.balances, AvailableRow(c)) + Bal(st.balances, FrozenRow(c))
  }

  /** The control account is minus everything customers hold; one customer never holds more than that. */
  lemma ControlIsMinusCustomers(st: State, c: nat)
    requires Inv(st)
    ensures Held(st, c) == Sum(HeldBy(c), st.lots)
    ensures Bal(st.balances, CONTROL) == -(Held(st, c) + Sum(HeldByOthers(c), st.lots))
    ensures Sum(HeldByOthers(c), st.lots) >= 0 && 0 <= Held(st, c) <= -Bal(st.balances, CONTROL)
  {
    BalancesAreLots(st, c);
    SumSplit(HeldBy(c), AvailableOf(c), FrozenOf(c), st.lots);
    SumSplit(Outstanding(), HeldBy(c), HeldByOthers(c), st.lots);
    SumNonNegative(HeldByOthers(c), st.lots);
  }

  ghost function HeldByAll(st: State, owners: seq<nat>): int {
    if owners == [] then 0 else HeldByAll(st, owners[..|owners| - 1]) + Held(st, owners[|owners| - 1])
  }

  function HeldByAny(owners: seq<nat>): Lot -> int {
    (l: Lot) => if l.owner in owners then l.available + l.frozen else 0
  }

  lemma {:induction false} HeldByList(st: State, owners: seq<nat>)
    requires Inv(st) && Distinct(owners)
    ensures HeldByAll(st, owners) == Sum(HeldByAny(owners), st.lots)
  {
    if owners == [] {
      SumZero(HeldByAny([]), st.lots);
    } else {
      var n := |owners| - 1;
      var c := owners[n];
      assert owners == owners[..n] + [c];
      HeldByList(st, owners[..n]);
      ControlIsMinusCustomers(st, c);
      SumSplit(HeldByAny(owners), HeldByAny(owners[..n]), HeldBy(c), st.lots);
    }
  }

  /** Conservation: over any list of all lot owners, the customers and the control account sum to zero. */
  lemma AllBalancesSumToZero(st: State, owners: seq<nat>)
    requires Inv(st) && Distinct(owners)
    requires forall i :: 0 <= i < |st.lots| ==> st.lots[i].owner in owners
    ensures HeldByAll(st, owners) + Bal(st.balances, CONTROL) + Bal(st.balances, BalanceKey(Platform, Frozen)) == 0
  {
    HeldByList(st, owners);
    SumSame(HeldByAny(owners), Outstanding(), st.lots);
    BalancesAreLots(st, 0);
    assert Drift(st.balances, st.entries, BalanceKey(Platform, Frozen)) == 0;
  }

  /** Every balance row fits 64 bits. */
  ghost predicate Fits(st: State) {
    forall row :: InInt64(Bal(st.balances, row))
  }

  lemma RowCases(row: BalanceKey)
    ensures row.account.Customer? ==> row == AvailableRow(row.account.id) || row == FrozenRow(row.account.id)
    ensures row.account.Platform? ==> row == CONTROL || row == BalanceKey(Platform, Frozen)
  {
    match row
    case BalanceKey(Customer(_), Available) =>
    case BalanceKey(Customer(_), Frozen) =>
    case BalanceKey(Platform, Available) =>
    case BalanceKey(Platform, Frozen) =>
  }

  lemma RowBounds(st: State, row: BalanceKey)
    requires Inv(st)
    ensures row.account.Customer? ==> 0 <= Bal(st.balances, row) <= -Bal(st.balances, CONTROL)
    ensures row.account.Platform? ==> Bal(st.balances, CONTROL) <= Bal(st.balances, row) <= 0
  {
    var c := if row.account.Customer? then row.account.id else 0;
    ControlIsMinusCustomers(st, c);
    BalancesAreLots(st, c);
    assert Drift(st.balances, st.entries, BalanceKey(Platform, Frozen)) == 0;
    RowCases(row);
  }

  /** As long as the control balance is above the smallest 64-bit integer, every balance fits,
      although freezing, settling and expiring check nothing. */
  lemma FitsFromControl(st: State)
    requires Inv(st) && MIN_INT64 < Bal(st.balances, CONTROL)
    ensures Fits(st)
  {
    forall row ensures InInt64(Bal(st.balances, row)) {
      RowBounds(st, row);
    }
  }

  ghost predicate ControlOk(st: State, st': State) {
    Bal(st'.balances, CONTROL) >= Bal(st.balances, CONTROL) || Bal(st'.balances, CONTROL) >= MIN_INT64
  }

  lemma PostTransferControl(st: State, t: Transaction, delta: int, expiresAt: Option<Time>)
    requires TransferBlocked(st.balances, t.owner, delta).None?
    requires PostTransfer(st, t, delta, expiresAt).Posted?
    ensures ControlOk(st, PostTransfer(st, t, delta, expiresAt).state)
  {
  }

  /** A step lowers the control balance only through a transfer that passed the overflow check. */
  lemma StepControl(st: State, cmd: Command)
    ensures ControlOk(st, Next(st, cmd))
  {
    hide PostTransfer, TransferBlocked, Take, SettleParts, FefoOrder, OpenParts, Sum, EnsureAccounts, Validate, Wrap64;
    match cmd
    case DoCredit(t) =>
      EnsureBalances(st, t.owner);
      if Transfer(st, t, true).Posted? {
        PostTransferControl(st.(balances := EnsureAccounts(st.balances, t.owner)),
                            Transaction(t.source, Credit, t.owner, t.amount, None, t.key, RequestOf(t)), t.amount,
                            t.expiresAt);
      }
    case DoDebit(t) =>
      EnsureBalances(st, t.owner);
      if Transfer(st, t, false).Posted? {
        PostTransferControl(st.(balances := EnsureAccounts(st.balances, t.owner)),
                            Transaction(t.source, Debit, t.owner, t.amount, None, t.key, RequestOf(t)), -t.amount,
                            t.expiresAt);
      }
    case DoReverse(r) =>
      if ReverseTransfer(st, r).Posted? {
        var original := st.txns[r.original];
        var amount := if r.amount == 0 then original.amount else r.amount;
        EnsureBalances(st, original.owner);
        PostTransferControl(st.(balances := EnsureAccounts(st.balances, original.owner)),
                            Transaction(r.source, Reverse, original.owner, amount, Some(r.original), r.key,
                                        OtherRequest),
                            if original.action == Debit then amount else -amount, None);
      }
    case DoFreeze(f) => EnsureBalances(st, f.owner);
    case DoCommit(h, now) => SettleControl(st, h, Commit, now);
    case DoRelease(h, now) => SettleControl(st, h, Release, now);
    case DoExpireHold(h, now) => SettleControl(st, ExpiryOf(h), Expire, now);
    case DoExpireLot(l, now) => if l < |st.lots| { EnsureBalances(st, st.lots[l].owner); }
  }

  lemma SettleControl(st: State, cmd: HoldCommand, action: Action, now: Time)
    ensures SettleHold(st, cmd, action, now).Posted? ==> ControlOk(st, SettleHold(st, cmd, action, now).state)
  {
    hide SettleParts, OpenParts, EnsureAccounts;
    if cmd.hold < |st.holds| { EnsureBalances(st, st.holds[cmd.hold].owner); }
  }

  lemma StepKeepsInv(st: State, cmd: Command)
    requires Inv(st)
    ensures Inv(Next(st, cmd))
  {
    hide RowsOk, HoldsOk, BalancedUpTo, UniqueTxns, EntriesMatch, Covered, Drift, Next;
    StepKeepsCore(st, cmd);
    assert SameDrift(st, Next(st, cmd));
  }

  /** In every run the control balance is representable, so every balance is, up to that one corner. */
  lemma {:induction false} RunFits(asset: AssetType, cmds: seq<Command>)
    ensures var st := Run(Empty(asset), cmds);
            MIN_INT64 <= Bal(st.balances, CONTROL) <= 0 && (MIN_INT64 < Bal(st.balances, CONTROL) ==> Fits(st))
  {
    var st := Run(Empty(asset), cmds);
    RunKeepsInv(asset, cmds);
    ControlIsMinusCustomers(st, 0);
    if cmds != [] {
      RunFits(asset, cmds[..|cmds| - 1]);
      StepControl(Run(Empty(asset), cmds[..|cmds| - 1]), cmds[|cmds| - 1]);
    }
    if MIN_INT64 < Bal(st.balances, CONTROL) {
      FitsFromControl(st);
    }
  }
}
