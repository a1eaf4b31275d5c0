/** Reconciliation and repair of the balance projection. */
module LedgerRepair {
  import opened Sums
  import opened Machine
  import opened LedgerModel
  import opened LedgerLots
  import opened LedgerInvariant
  import opened LedgerSafety

  /** Scopes "all" and "transaction" scan every balance row, the other two one account or one customer. */
  datatype Scope = WholeLedger | OneAccount(account: Account) | OneCustomer(owner: nat)

  predicate InScope(scope: Scope, row: BalanceKey) {
    match scope
    case WholeLedger => true
    case OneAccount(account) => row.account == account
    case OneCustomer(owner) => row.account == Customer(owner)
  }

  function EntrySum(entries: seq<Entry>, row: BalanceKey): int { Sum(DeltaOn(row), entries) }

  /** The open items of a reconciliation job. */
  function Mismatches(st: State, scope: Scope): set<BalanceKey> {
    set row | row in st.balances && InScope(scope, row) && st.balances[row] != EntrySum(st.entries, row)
  }

  function UnbalancedTxns(st: State): set<nat> {
    set t: nat | t < |st.txns| && Sum(TxnDelta(t), st.entries) != 0
  }

  /** The balance rows of `items` set to the sums of the entries in `seen`. */
  function WithSums(st: State, items: seq<BalanceKey>, seen: seq<Entry>): State {
    st.(balances := map row | row in st.balances :: if row in items then EntrySum(seen, row) else st.balances[row])
  }

  /** A repair in one step: every open item is set to the current entry sum. */
  function Repair(st: State, items: set<BalanceKey>): State {
    st.(balances := map row | row in st.balances :: if row in items then EntrySum(st.entries, row)
        else st.balances[row])
  }

  /** Corruption of balance amounts alone: every other table and the set of balance rows are intact. */
  ghost predicate OnlyAmountsDiffer(st: State, corrupted: State) {
    corrupted == st.(balances := corrupted.balances) && corrupted.balances.Keys == st.balances.Keys
  }

  lemma CorruptionKeepsCore(st: State, corrupted: State)
    requires Core(st) && OnlyAmountsDiffer(st, corrupted)
    ensures Core(corrupted)
  {
  }

  /** Whatever happened to the balance rows after a run, no transaction is unbalanced: a repair is never refused. */
  lemma NothingUnbalanced(asset: AssetType, cmds: seq<Command>, corrupted: State)
    requires OnlyAmountsDiffer(Run(Empty(asset), cmds), corrupted)
    ensures UnbalancedTxns(corrupted) == {}
  {
    RunKeepsInv(asset, cmds);
    CorruptionKeepsCore(Run(Empty(asset), cmds), corrupted);
  }

  lemma EnsureKeepsRows(st: State, owner: nat)
    ensures st.balances.Keys <= EnsureAccounts(st.balances, owner).Keys
  {
  }

  lemma PostTransferKeepsRows(st: State, t: Transaction, delta: int, expiresAt: Option<Time>)
    requires PostTransfer(st, t, delta, expiresAt).Posted?
    ensures st.balances.Keys <= PostTransfer(st, t, delta, expiresAt).state.balances.Keys
  {
    hide Take, FefoOrder;
  }

  lemma PostSettlementKeepsRows(st: State, cmd: HoldCommand, hold: Hold, amount: int, action: Action, now: Time)
    requires cmd.hold < |st.holds| && PostSettlement(st, cmd, hold, amount, action, now).Posted?
    ensures st.balances.Keys <= PostSettlement(st, cmd, hold, amount, action, now).state.balances.Keys
  {
    hide SettleParts, OpenParts, StatusAfter;
  }

  lemma TransferKeepsRows(st: State, cmd: TransferCommand, credit: bool)
    requires Transfer(st, cmd, credit).Posted?
    ensures st.balances.Keys <= Transfer(st, cmd, credit).state.balances.Keys
  {
    hide EnsureAccounts, PostTransfer, FindTxn, TransferBlocked;
    EnsureKeepsRows(st, cmd.owner);
    var action := if credit then Credit else Debit;
    PostTransferKeepsRows(st.(balances := EnsureAccounts(st.balances, cmd.owner)),
                          Transaction(cmd.source, action, cmd.owner, cmd.amount, None, cmd.key, RequestOf(cmd)),
                          if credit then cmd.amount else -cmd.amount, cmd.expiresAt);
  }

  lemma ReverseKeepsRows(st: State, cmd: ReverseCommand)
    requires ReverseTransfer(st, cmd).Posted?
    ensures st.balances.Keys <= ReverseTransfer(st, cmd).state.balances.Keys
  {
    hide EnsureAccounts, PostTransfer, FindTxn, TransferBlocked, Sum, Wrap64;
    var original := st.txns[cmd.original];
    EnsureKeepsRows(st, original.owner);
    var amount := if cmd.amount == 0 then original.amount else cmd.amount;
    PostTransferKeepsRows(st.(balances := EnsureAccounts(st.balances, original.owner)),
                          Transaction(cmd.source, Reverse, original.owner, amount, Some(cmd.original), cmd.key,
                                      OtherRequest),
                          if original.action == Debit then amount else -amount, None);
  }

  lemma SettleKeepsRows(st: State, cmd: HoldCommand, action: Action, now: Time)
    requires SettleHold(st, cmd, action, now).Posted?
    ensures st.balances.Keys <= SettleHold(st, cmd, action, now).state.balances.Keys
  {
    hide EnsureAccounts, PostSettlement, FindTxn;
    var hold := st.holds[cmd.hold];
    EnsureKeepsRows(st, hold.owner);
    PostSettlementKeepsRows(st.(balances := EnsureAccounts(st.balances, hold.owner)), cmd, hold,
                            ActionAmount(hold, cmd.amount), action, now);
  }

  lemma FreezeKeepsRows(st: State, cmd: FreezeCommand)
    requires FreezeAmount(st, cmd).Posted?
    ensures st.balances.Keys <= FreezeAmount(st, cmd).state.balances.Keys
  {
    hide EnsureAccounts, Take, FefoOrder, FindTxn, FindHold;
    EnsureKeepsRows(st, cmd.owner);
  }

  lemma ExpireKeepsRows(st: State, lot: nat, now: Time)
    requires ExpireLot(st, lot, now).Posted?
    ensures st.balances.Keys <= ExpireLot(st, lot, now).state.balances.Keys
  {
    hide EnsureAccounts, FindTxn;
    EnsureKeepsRows(st, st.lots[lot].owner);
  }

  lemma StepKeepsRows(st: State, cmd: Command)
    ensures st.balances.Keys <= Next(st, cmd).balances.Keys
  {
    hide Transfer, ReverseTransfer, FreezeAmount, SettleHold, ExpireLot;
    if Apply(st, cmd).Posted? {
      match cmd
      case DoCredit(t) => TransferKeepsRows(st, t, true);
      case DoDebit(t) => TransferKeepsRows(st, t, false);
      case DoReverse(r) => ReverseKeepsRows(st, r);
      case DoFreeze(f) => FreezeKeepsRows(st, f);
      case DoCommit(h, now) => SettleKeepsRows(st, h, Commit, now);
      case DoRelease(h, now) => SettleKeepsRows(st, h, Release, now);
      case DoExpireHold(h, now) => SettleKeepsRows(st, ExpiryOf(h), Expire, now);
      case DoExpireLot(l, now) => ExpireKeepsRows(st, l, now);
    }
  }

  lemma {:induction false} RunKeepsRows(st: State, cmds: seq<Command>)
    ensures st.balances.Keys <= Run(st, cmds).balances.Keys
  {
    if cmds != [] {
      RunKeepsRows(st, cmds[..|cmds| - 1]);
      StepKeepsRows(Run(st, cmds[..|cmds| - 1]), cmds[|cmds| - 1]);
    }
  }

  lemma MissingRowsAgree(st: State, row: BalanceKey)
    requires Core(st) && row !in st.balances
    ensures Drift(st.balances, st.entries, row) == 0
  {
  }
}
