/** What the append-only rows record: running balances on the entries, and the origin of every lot. */
module LedgerEntries {
  import opened Machine
  import opened Sums
  import opened LedgerModel
  import opened LedgerLots
  import opened LedgerInvariant
  import opened LedgerSafety
  import opened LedgerFrame

  // ----- running balances

  /** The entry records the sum of its row's movements up to and including itself. */
  predicate RunsOn(entries: seq<Entry>, k: nat)
    requires k < |entries|
  {
    entries[k].after == Sum(DeltaOn(entries[k].row), entries[..k + 1])
  }

  ghost predicate RunningBalances(st: State) {
    Projected(st) && forall k: nat :: k < |st.entries| ==> RunsOn(st.entries, k)
  }

  lemma MoveRunsOn(st: State, txn: nat, row: BalanceKey, delta: int)
    requires RunningBalances(st)
    ensures RunningBalances(Move(st, txn, row, delta))
  {
    var st' := Move(st, txn, row, delta);
    var e := st'.entries[|st.entries|];
    forall r ensures Drift(st'.balances, st'.entries, r) == 0 {
      assert Drift(st.balances, st.entries, r) == 0;
      MoveSums(st, txn, row, delta, r);
    }
    forall k: nat | k < |st'.entries| ensures RunsOn(st'.entries, k) {
      if k < |st.entries| {
        assert RunsOn(st.entries, k) && st'.entries[..k + 1] == st.entries[..k + 1];
      } else {
        assert st'.entries[..k + 1] == st'.entries;
        assert Drift(st'.balances, st'.entries, row) == 0;
      }
    }
  }

  /** Other tables do not matter, nor do balance rows created at zero. */
  lemma SameMoney(st: State, st': State)
    requires RunningBalances(st) && st'.entries == st.entries
             && forall row :: Bal(st'.balances, row) == Bal(st.balances, row)
    ensures RunningBalances(st')
  {
    forall row ensures Drift(st'.balances, st'.entries, row) == 0 {
      assert Drift(st.balances, st.entries, row) == 0;
    }
  }

  lemma PostTransferRunsOn(st: State, t: Transaction, delta: int, expiresAt: Option<Time>)
    requires RunningBalances(st) && PostTransfer(st, t, delta, expiresAt).Posted?
    ensures RunningBalances(PostTransfer(st, t, delta, expiresAt).state)
  {
    hide RunningBalances, Take, FefoOrder;
    var st0 := AddTxn(st, t);
    SameMoney(st, st0);
    MoveRunsOn(st0, |st.txns|, AvailableRow(t.owner), delta);
    var st1 := Move(st0, |st.txns|, AvailableRow(t.owner), delta);
    MoveRunsOn(st1, |st.txns|, CONTROL, -delta);
    SameMoney(Move(st1, |st.txns|, CONTROL, -delta), PostTransfer(st, t, delta, expiresAt).state);
  }

  lemma SettlementRunsOn(st: State, cmd: HoldCommand, hold: Hold, amount: int, action: Action, now: Time)
    requires RunningBalances(st) && cmd.hold < |st.holds| && PostSettlement(st, cmd, hold, amount, action, now).Posted?
    ensures RunningBalances(PostSettlement(st, cmd, hold, amount, action, now).state)
  {
    hide RunningBalances, SettleParts, OpenParts, StatusAfter;
    var settled :=
        SettleParts(st.lots, st.holdLots, OpenParts(st.holdLots, cmd.hold), amount, action == Commit, now, 0, 0);
    var t := Transaction(cmd.source, action, hold.owner, amount, None, cmd.key, OtherRequest);
    var id := |st.txns|;
    var st0 := AddTxn(st, t);
    SameMoney(st, st0);
    MoveRunsOn(st0, id, FrozenRow(hold.owner), -amount);
    var st1 := Move(st0, id, FrozenRow(hold.owner), -amount);
    var st2 := if settled.back > 0 then Move(st1, id, AvailableRow(hold.owner), settled.back) else st1;
    if settled.back > 0 { MoveRunsOn(st1, id, AvailableRow(hold.owner), settled.back); }
    if settled.out > 0 { MoveRunsOn(st2, id, CONTROL, settled.out); }
    SameMoney(SettleMoves(st0, id, hold.owner, amount, settled.back, settled.out),
              PostSettlement(st, cmd, hold, amount, action, now).state);
  }

  lemma EnsuredRunsOn(st: State, owner: nat)
    requires RunningBalances(st)
    ensures RunningBalances(st.(balances := EnsureAccounts(st.balances, owner)))
  {
    hide RunningBalances, EnsureAccounts;
    EnsureBalances(st, owner);
    SameMoney(st, st.(balances := EnsureAccounts(st.balances, owner)));
  }

  lemma TransferRunsOn(st: State, cmd: TransferCommand, credit: bool)
    requires RunningBalances(st) && Transfer(st, cmd, credit).Posted?
    ensures RunningBalances(Transfer(st, cmd, credit).state)
  {
    hide RunningBalances, PostTransfer, EnsureAccounts, FindTxn;
    EnsuredRunsOn(st, cmd.owner);
    PostTransferRunsOn(st.(balances := EnsureAccounts(st.balances, cmd.owner)),
                       Transaction(cmd.source, if credit then Credit else Debit, cmd.owner, cmd.amount, None, cmd.key,
                                   RequestOf(cmd)),
                       if credit then cmd.amount else -cmd.amount, cmd.expiresAt);
  }

  lemma ReverseRunsOn(st: State, cmd: ReverseCommand)
    requires RunningBalances(st) && ReverseTransfer(st, cmd).Posted?
    ensures RunningBalances(ReverseTransfer(st, cmd).state)
  {
    hide RunningBalances, PostTransfer, EnsureAccounts, FindTxn, Sum, Wrap64;
    var original := st.txns[cmd.original];
    var amount := if cmd.amount == 0 then original.amount else cmd.amount;
    EnsuredRunsOn(st, original.owner);
    PostTransferRunsOn(st.(balances := EnsureAccounts(st.balances, original.owner)),
                       Transaction(cmd.source, Reverse, original.owner, amount, Some(cmd.original), cmd.key,
                                   OtherRequest),
                       if original.action == Debit then amount else -amount, None);
  }

  /** The two movements of a freeze or a lot expiry. */
  lemma TwoMovesRunOn(st: State, owner: nat, t: Transaction, a: BalanceKey, b: BalanceKey, amount: int, st': State)
    requires RunningBalances(st)
    requires var st1 := AddTxn(st.(balances := EnsureAccounts(st.balances, owner)), t);
             var st2 := Move(Move(st1, |st.txns|, a, -amount), |st.txns|, b, amount);
             st'.balances == st2.balances && st'.entries == st2.entries
    ensures RunningBalances(st')
  {
    hide RunningBalances, EnsureAccounts;
    var st0 := st.(balances := EnsureAccounts(st.balances, owner));
    EnsuredRunsOn(st, owner);
    SameMoney(st0, AddTxn(st0, t));
    MoveRunsOn(AddTxn(st0, t), |st.txns|, a, -amount);
    var st1 := Move(AddTxn(st0, t), |st.txns|, a, -amount);
    MoveRunsOn(st1, |st.txns|, b, amount);
    SameMoney(Move(st1, |st.txns|, b, amount), st');
  }

  lemma SettleRunsOn(st: State, cmd: HoldCommand, action: Action, now: Time)
    requires RunningBalances(st) && SettleHold(st, cmd, action, now).Posted?
    ensures RunningBalances(SettleHold(st, cmd, action, now).state)
  {
    hide RunningBalances, PostSettlement, EnsureAccounts, FindTxn;
    var hold := st.holds[cmd.hold];
    EnsuredRunsOn(st, hold.owner);
    SettlementRunsOn(st.(balances := EnsureAccounts(st.balances, hold.owner)), cmd, hold,
                     ActionAmount(hold, cmd.amount), action, now);
  }

  lemma StepRunsOn(st: State, cmd: Command)
    requires RunningBalances(st)
    ensures RunningBalances(Next(st, cmd))
  {
    hide RunningBalances, Transfer, ReverseTransfer, SettleHold, EnsureAccounts, Take, FefoOrder, FindTxn, FindHold;
    if Apply(st, cmd).Posted? {
      match cmd
      case DoCredit(t) => TransferRunsOn(st, t, true);
      case DoDebit(t) => TransferRunsOn(st, t, false);
      case DoReverse(r) => ReverseRunsOn(st, r);
      case DoFreeze(f) =>
        TwoMovesRunOn(st, f.owner, Transaction(f.source, Freeze, f.owner, f.amount, None, f.key, OtherRequest),
                      AvailableRow(f.owner), FrozenRow(f.owner), f.amount, Next(st, cmd));
      case DoCommit(h, now) => SettleRunsOn(st, h, Commit, now);
      case DoRelease(h, now) => SettleRunsOn(st, h, Release, now);
      case DoExpireHold(h, now) => SettleRunsOn(st, ExpiryOf(h), Expire, now);
      case DoExpireLot(l, now) =>
        var lot := st.lots[l];
        TwoMovesRunOn(st, lot.owner,
                      Transaction(Source(Expiry, Id(l)), Expire, lot.owner, lot.available, None,
                                  IdempotencyKey(SYSTEM, LotToken(l)), OtherRequest),
                      AvailableRow(lot.owner), CONTROL, lot.available, Next(st, cmd));
    }
  }

  // ----- origins

  /** The lot came from one transaction that gave its owner exactly the granted amount. */
  predicate Granted(txns: seq<Transaction>, l: Lot) {
    l.grant < |txns| && txns[l.grant].owner == l.owner && txns[l.grant].amount == l.granted
    && (txns[l.grant].action == Credit || txns[l.grant].action == Reverse)
  }

  ghost predicate AllGranted(st: State) {
    && (forall i: nat :: i < |st.lots| ==> Granted(st.txns, st.lots[i]))
    && (forall i: nat, j: nat :: i < j < |st.lots| ==> st.lots[i].grant < st.lots[j].grant)
  }

  /** A step adds at most one lot, granted by the transaction it adds. */
  ghost predicate AddsLot(st: State, st': State) {
    && |st'.lots| <= |st.lots| + 1
    && (|st'.lots| > |st.lots| ==> Granted(st'.txns, st'.lots[|st.lots|]) && st'.lots[|st.lots|].grant == |st.txns|)
  }

  /** Only a transfer in the customer's favour adds a lot. */
  lemma CommandLots(st: State, cmd: Command)
    requires Core(st) && Apply(st, cmd).Posted?
    ensures AddsLot(st, Next(st, cmd))
  {
    match cmd
    case DoCredit(t) => TransferLots(st, t, true);
    case DoDebit(t) => TransferLots(st, t, false);
    case DoReverse(r) => ReverseLots(st, r);
    case DoFreeze(f) =>
      hide Core, EnsureAccounts, FindTxn, FindHold, Take;
      TakeOnlyOrder(st.lots, st.holdLots, Some(|st.holds|), FefoOrder(st.lots, f.owner), f.amount);
    case DoCommit(h, now) => SettleAddsNoLot(st, h, Commit, now);
    case DoRelease(h, now) => SettleAddsNoLot(st, h, Release, now);
    case DoExpireHold(h, now) => SettleAddsNoLot(st, ExpiryOf(h), Expire, now);
    case DoExpireLot(_, _) => hide Core, EnsureAccounts, FindTxn;
  }

  lemma PostTransferLots(st: State, t: Transaction, delta: int, expiresAt: Option<Time>)
    requires PostTransfer(st, t, delta, expiresAt).Posted?
    requires delta > 0 ==> delta == t.amount && (t.action == Credit || t.action == Reverse)
    ensures AddsLot(st, PostTransfer(st, t, delta, expiresAt).state)
  {
    if delta <= 0 { TakeOnlyOrder(st.lots, st.holdLots, None, FefoOrder(st.lots, t.owner), -delta); }
    hide Take, FefoOrder;
  }

  lemma TransferLots(st: State, cmd: TransferCommand, credit: bool)
    requires Transfer(st, cmd, credit).Posted?
    ensures AddsLot(st, Transfer(st, cmd, credit).state)
  {
    hide PostTransfer, EnsureAccounts, FindTxn;
    PostTransferLots(st.(balances := EnsureAccounts(st.balances, cmd.owner)),
                     Transaction(cmd.source, if credit then Credit else Debit, cmd.owner, cmd.amount, None, cmd.key,
                                 RequestOf(cmd)),
                     if credit then cmd.amount else -cmd.amount, cmd.expiresAt);
  }

  lemma ReverseLots(st: State, cmd: ReverseCommand)
    requires ReverseTransfer(st, cmd).Posted?
    ensures AddsLot(st, ReverseTransfer(st, cmd).state)
  {
    hide PostTransfer, EnsureAccounts, FindTxn, Sum, Wrap64;
    var original := st.txns[cmd.original];
    var amount := if cmd.amount == 0 then original.amount else cmd.amount;
    PostTransferLots(st.(balances := EnsureAccounts(st.balances, original.owner)),
                     Transaction(cmd.source, Reverse, original.owner, amount, Some(cmd.original), cmd.key,
                                 OtherRequest),
                     if original.action == Debit then amount else -amount, None);
  }

  lemma SettleAddsNoLot(st: State, cmd: HoldCommand, action: Action, now: Time)
    requires Core(st) && SettleHold(st, cmd, action, now).Posted?
    ensures |SettleHold(st, cmd, action, now).state.lots| == |st.lots|
  {
    hide EnsureAccounts, FindTxn, SettleParts, OpenParts, StatusAfter, RowsOk, HoldsOk;
    SettleRows(st.lots, st.holds, st.holdLots, cmd.hold, ActionAmount(st.holds[cmd.hold], cmd.amount), action == Commit,
               now);
  }

  lemma StepKeepsGranted(st: State, cmd: Command)
    requires Core(st) && AllGranted(st)
    ensures AllGranted(Next(st, cmd))
  {
    hide Core, Apply;
    if Apply(st, cmd).Posted? {
      CommandFrame(st, cmd);
      CommandLots(st, cmd);
      var st' := Next(st, cmd);
      hide Next;
      forall i: nat | i < |st'.lots| ensures Granted(st'.txns, st'.lots[i]) {
        if i < |st.lots| { assert Granted(st.txns, st.lots[i]) && SameGrant(st.lots[i], st'.lots[i]); }
      }
      forall i: nat, j: nat | i < j < |st'.lots| ensures st'.lots[i].grant < st'.lots[j].grant {
        assert Granted(st.txns, st.lots[i]) && SameGrant(st.lots[i], st'.lots[i]);
        if j < |st.lots| { assert SameGrant(st.lots[j], st'.lots[j]); }
      }
    }
  }

  /** In every run each entry carries its row's running balance, and each lot was granted by one credit or reversal,
      no two lots by the same, for exactly its granted amount. */
  lemma {:induction false} RunRecords(asset: AssetType, cmds: seq<Command>)
    ensures RunningBalances(Run(Empty(asset), cmds)) && AllGranted(Run(Empty(asset), cmds))
  {
    if cmds == [] {
      EmptyHolds(asset);
    } else {
      hide Next, RunningBalances, AllGranted, Inv;
      var n := |cmds| - 1;
      RunRecords(asset, cmds[..n]);
      StepRunsOn(Run(Empty(asset), cmds[..n]), cmds[n]);
      RunHasCore(asset, cmds[..n]);
      StepKeepsGranted(Run(Empty(asset), cmds[..n]), cmds[n]);
    }
  }

  lemma RunHasCore(asset: AssetType, cmds: seq<Command>)
    ensures Core(Run(Empty(asset), cmds))
  {
    RunKeepsInv(asset, cmds);
  }
}
