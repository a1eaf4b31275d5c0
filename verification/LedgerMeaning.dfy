/** What a posted transaction says and does, told by its action and read from its own entries. */
module LedgerMeaning {
  import opened Machine
  import opened Sums
  import opened LedgerModel
  import opened LedgerLots
  import opened LedgerInvariant
  import opened LedgerSafety
  import opened LedgerFrame
  import opened LedgerEntries
  import opened LedgerOverflow

  // ----- the transaction a command asks for

  function ActionOf(cmd: Command): Action {
    match cmd
    case DoCredit(_) => Credit
    case DoDebit(_) => Debit
    case DoReverse(_) => Reverse
    case DoFreeze(_) => Freeze
    case DoCommit(_, _) => Commit
    case DoRelease(_, _) => Release
    case DoExpireHold(_, _) => Expire
    case DoExpireLot(_, _) => Expire
  }

  /** Zero stands for all of it, where a command may ask for a part. */
  function AmountAsked(st: State, cmd: Command): int {
    match cmd
    case DoCredit(t) => t.amount
    case DoDebit(t) => t.amount
    case DoReverse(r) => if r.amount != 0 || r.original >= |st.txns| then r.amount else st.txns[r.original].amount
    case DoFreeze(f) => f.amount
    case DoCommit(h, _) => PartOrRest(st, h.hold, h.amount)
    case DoRelease(h, _) => PartOrRest(st, h.hold, h.amount)
    case DoExpireHold(h, _) => PartOrRest(st, h, 0)
    case DoExpireLot(l, _) => if l < |st.lots| then st.lots[l].available else 0
  }

  function PartOrRest(st: State, hold: nat, amount: int): int {
    if amount != 0 || hold >= |st.holds| then amount
    else st.holds[hold].original - (st.holds[hold].committed + st.holds[hold].released)
  }

  function SourceAsked(cmd: Command): Source {
    match cmd
    case DoCredit(t) => t.source
    case DoDebit(t) => t.source
    case DoReverse(r) => r.source
    case DoFreeze(f) => f.source
    case DoCommit(h, _) => h.source
    case DoRelease(h, _) => h.source
    case DoExpireHold(h, _) => Source(Expiry, HoldId(h))
    case DoExpireLot(l, _) => Source(Expiry, Id(l))
  }

  function KeyAsked(cmd: Command): IdempotencyKey {
    match cmd
    case DoCredit(t) => t.key
    case DoDebit(t) => t.key
    case DoReverse(r) => r.key
    case DoFreeze(f) => f.key
    case DoCommit(h, _) => h.key
    case DoRelease(h, _) => h.key
    case DoExpireHold(h, _) => IdempotencyKey(SYSTEM, HoldToken(h))
    case DoExpireLot(l, _) => IdempotencyKey(SYSTEM, LotToken(l))
  }

  /** The one transaction a posted command adds carries its action, owner, amount, source and key. */
  ghost predicate Records(st: State, cmd: Command, st': State) {
    && |st'.txns| == |st.txns| + 1 && st'.txns[..|st.txns|] == st.txns
    && var t := st'.txns[|st.txns|];
       && t.action == ActionOf(cmd) && Some(t.owner) == OwnerOf(st, cmd) && t.amount == AmountAsked(st, cmd) > 0
       && t.source == SourceAsked(cmd) && t.key == KeyAsked(cmd)
       && t.reversalOf == (if cmd.DoReverse? then Some(cmd.reverse.original) else None)
  }

  lemma CommandRecords(st: State, cmd: Command)
    requires Apply(st, cmd).Posted?
    ensures Records(st, cmd, Next(st, cmd))
  {
    hide Transfer, ReverseTransfer, FreezeAmount, SettleHold, ExpireLot;
    match cmd
    case DoCredit(t) => TransferRecorded(st, t, true);
    case DoDebit(t) => TransferRecorded(st, t, false);
    case DoReverse(r) => ReverseRecorded(st, r);
    case DoFreeze(f) => FreezeRecorded(st, f);
    case DoCommit(h, now) => SettleRecorded(st, h, Commit, now);
    case DoRelease(h, now) => SettleRecorded(st, h, Release, now);
    case DoExpireHold(h, now) => SettleRecorded(st, ExpiryOf(h), Expire, now);
    case DoExpireLot(l, now) => ExpiryRecorded(st, l, now);
  }

  /** Exactly one transaction was added. */
  predicate Adds(st: State, st': State, action: Action, owner: nat, amount: int, source: Source, key: IdempotencyKey,
                 reversalOf: Option<nat>) {
    && |st'.txns| == |st.txns| + 1 && st'.txns[..|st.txns|] == st.txns
    && var t := st'.txns[|st.txns|];
       && t.action == action && t.owner == owner && t.amount == amount > 0 && t.source == source && t.key == key
       && t.reversalOf == reversalOf
  }

  lemma TransferRecorded(st: State, t: TransferCommand, credit: bool)
    requires Transfer(st, t, credit).Posted?
    ensures Adds(st, Transfer(st, t, credit).state, if credit then Credit else Debit, t.owner, t.amount, t.source,
                 t.key, None)
  {
    hide Take, FefoOrder, EnsureAccounts, FindTxn, KeyUsed;
  }

  lemma ReverseRecorded(st: State, r: ReverseCommand)
    requires ReverseTransfer(st, r).Posted?
    ensures r.original < |st.txns|
    ensures Adds(st, ReverseTransfer(st, r).state, Reverse, st.txns[r.original].owner, AmountAsked(st, DoReverse(r)),
                 r.source,
                 r.key, Some(r.original))
  {
    hide Take, FefoOrder, EnsureAccounts, FindTxn, KeyUsed, Sum, Wrap64;
  }

  lemma FreezeRecorded(st: State, f: FreezeCommand)
    requires FreezeAmount(st, f).Posted?
    ensures Adds(st, FreezeAmount(st, f).state, Freeze, f.owner, f.amount, f.source, f.key, None)
  {
    hide Take, FefoOrder, EnsureAccounts, FindTxn, FindHold, KeyUsed;
  }

  lemma SettleRecorded(st: State, h: HoldCommand, action: Action, now: Time)
    requires SettleHold(st, h, action, now).Posted?
    ensures h.hold < |st.holds|
    ensures Adds(st, SettleHold(st, h, action, now).state, action, st.holds[h.hold].owner,
                 PartOrRest(st, h.hold, h.amount),
                 h.source, h.key, None)
  {
    hide SettleParts, OpenParts, EnsureAccounts, FindTxn, StatusAfter, KeyUsed;
  }

  lemma ExpiryRecorded(st: State, l: nat, now: Time)
    requires ExpireLot(st, l, now).Posted?
    ensures l < |st.lots|
    ensures Adds(st, ExpireLot(st, l, now).state, Expire, st.lots[l].owner, st.lots[l].available, Source(Expiry, Id(l)),
                 IdempotencyKey(SYSTEM, LotToken(l)), None)
  {
    hide EnsureAccounts, FindTxn, KeyUsed;
  }

  // ----- its entries

  function On(txn: nat, row: BalanceKey): Entry -> int {
    (e: Entry) => if e.txn == txn && e.row == row then e.delta else 0
  }

  /** What transaction `txn` moved on a balance row, summed over its entries. */
  function Moved(entries: seq<Entry>, txn: nat, row: BalanceKey): int { Sum(On(txn, row), entries) }

  predicate IsHoldExpiry(t: Transaction) { t.source.id.HoldId? }

  /** What each action means for its customer's two balances and, as the opposite of both, for the control account. */
  ghost predicate Means(txns: seq<Transaction>, entries: seq<Entry>, k: nat)
    requires k < |txns|
  {
    var t := txns[k];
    var available, frozen := Moved(entries, k, AvailableRow(t.owner)), Moved(entries, k, FrozenRow(t.owner));
    && t.amount > 0 && Moved(entries, k, CONTROL) == -(available + frozen)
    && (forall row :: row != AvailableRow(t.owner) && row != FrozenRow(t.owner) && row != CONTROL ==>
        Moved(entries, k, row) == 0)
    && match t.action
       case Credit => available == t.amount && frozen == 0
       case Debit => available == -t.amount && frozen == 0
       case Reverse =>
         && t.reversalOf.Some? && t.reversalOf.value < k && txns[t.reversalOf.value].owner == t.owner && frozen == 0
         && (txns[t.reversalOf.value].action == Credit || txns[t.reversalOf.value].action == Debit)
         && available == if txns[t.reversalOf.value].action == Credit then -t.amount else t.amount
       case Freeze => available == -t.amount && frozen == t.amount
       case Commit => available == 0 && frozen == -t.amount
       case Release => 0 <= available <= t.amount && frozen == -t.amount
       case Expire =>
         if IsHoldExpiry(t) then 0 <= available <= t.amount && frozen == -t.amount
         else available == -t.amount && frozen == 0
  }

  ghost predicate AllMean(st: State) {
    && (forall e :: e in st.entries ==> e.txn < |st.txns|)
    && forall k: nat :: k < |st.txns| ==> Means(st.txns, st.entries, k)
  }

  lemma MoveMoves(st: State, txn: nat, row: BalanceKey, delta: int, k: nat, r: BalanceKey)
    ensures Moved(Move(st, txn, row, delta).entries, k, r)
            == Moved(st.entries, k, r) + (if k == txn && r == row then delta else 0)
  {
    SumSnoc(On(k, r), st.entries, Entry(txn, row, delta, Bal(st.balances, row) + delta));
  }

  lemma NothingYet(entries: seq<Entry>, k: nat, row: BalanceKey)
    requires forall e :: e in entries ==> e.txn < k
    ensures Moved(entries, k, row) == 0
  {
    SumZero(On(k, row), entries);
  }

  /** A step adds the entries of its own transaction: older ones stay as they were. */
  ghost predicate AddsEntries(st: State, st': State, owner: nat, available: int, frozen: int, control: int) {
    && (forall e :: e in st'.entries ==> e in st.entries || e.txn == |st.txns|)
    && (forall k: nat, row :: k < |st.txns| ==> Moved(st'.entries, k, row) == Moved(st.entries, k, row))
    && (forall row :: Moved(st'.entries, |st.txns|, row)
          == (if row == AvailableRow(owner) then available else 0) + (if row == FrozenRow(owner) then frozen else 0)
             + (if row == CONTROL then control else 0))
  }

  lemma TransferEntries(st: State, t: Transaction, delta: int, expiresAt: Option<Time>)
    requires forall e :: e in st.entries ==> e.txn < |st.txns|
    requires PostTransfer(st, t, delta, expiresAt).Posted?
    ensures AddsEntries(st, PostTransfer(st, t, delta, expiresAt).state, t.owner, delta, 0, -delta)
  {
    var id := |st.txns|;
    var st0 := AddTxn(st, t);
    var st1 := Move(st0, id, AvailableRow(t.owner), delta);
    var st2 := Move(st1, id, CONTROL, -delta);
    assert PostTransfer(st, t, delta, expiresAt).state.entries == st2.entries by { hide Take, FefoOrder; }
    hide PostTransfer, Moved;
    forall k: nat, row | k <= id
      ensures Moved(st2.entries, k, row) == Moved(st.entries, k, row)
              + (if k == id && row == AvailableRow(t.owner) then delta else 0)
                  + (if k == id && row == CONTROL then -delta else 0)
    {
      MoveMoves(st0, id, AvailableRow(t.owner), delta, k, row);
      MoveMoves(st1, id, CONTROL, -delta, k, row);
    }
    forall row ensures Moved(st.entries, id, row) == 0 { NothingYet(st.entries, id, row); }
  }

  /** A freeze or a lot expiry: two opposite moves. */
  lemma TwoEntries(st: State, st0: State, owner: nat, second: BalanceKey, amount: int, st': State)
    requires forall e :: e in st.entries ==> e.txn < |st.txns|
    requires st0.entries == st.entries && (second == FrozenRow(owner) || second == CONTROL)
    requires st'.entries == Move(Move(st0, |st.txns|, AvailableRow(owner), -amount), |st.txns|, second, amount).entries
    ensures AddsEntries(st, st', owner, -amount, if second == CONTROL then 0 else amount,
                        if second == CONTROL then amount else 0)
  {
    var id := |st.txns|;
    var st1 := Move(st0, id, AvailableRow(owner), -amount);
    hide Moved;
    forall k: nat, row | k <= id
      ensures Moved(st'.entries, k, row) == Moved(st.entries, k, row)
              + (if k == id && row == AvailableRow(owner) then -amount else 0)
                  + (if k == id && row == second then amount else 0)
    {
      MoveMoves(st0, id, AvailableRow(owner), -amount, k, row);
      MoveMoves(st1, id, second, amount, k, row);
    }
    forall row ensures Moved(st.entries, id, row) == 0 { NothingYet(st.entries, id, row); }
  }

  lemma SettleMovesOn(st: State, id: nat, owner: nat, amount: int, back: int, out: int, k: nat, row: BalanceKey)
    requires back >= 0 && out >= 0
    ensures Moved(SettleMoves(st, id, owner, amount, back, out).entries, k, row)
            == Moved(st.entries, k, row)
               + (if k != id then 0
                  else (if row == FrozenRow(owner) then -amount else 0)
                       + (if row == AvailableRow(owner) then back else 0) + (if row == CONTROL then out else 0))
  {
    hide Moved, Move;
    var st1 := Move(st, id, FrozenRow(owner), -amount);
    var st2 := if back > 0 then Move(st1, id, AvailableRow(owner), back) else st1;
    MoveMoves(st, id, FrozenRow(owner), -amount, k, row);
    MoveMoves(st1, id, AvailableRow(owner), back, k, row);
    MoveMoves(st2, id, CONTROL, out, k, row);
  }

  lemma SettleEntries(st: State, st0: State, owner: nat, amount: int, back: int, out: int)
    requires forall e :: e in st.entries ==> e.txn < |st.txns|
    requires st0.entries == st.entries && back >= 0 && out >= 0
    ensures AddsEntries(st, SettleMoves(st0, |st.txns|, owner, amount, back, out), owner, back, -amount, out)
  {
    var id, st' := |st.txns|, SettleMoves(st0, |st.txns|, owner, amount, back, out);
    assert forall e :: e in st'.entries ==> e in st.entries || e.txn == id;
    hide Moved, SettleMoves, Move;
    forall k: nat, row | k < id ensures Moved(st'.entries, k, row) == Moved(st.entries, k, row) {
      SettleMovesOn(st0, id, owner, amount, back, out, k, row);
    }
    forall row
      ensures Moved(st'.entries, id, row)
              == (if row == AvailableRow(owner) then back else 0) + (if row == FrozenRow(owner) then -amount else 0)
                 + (if row == CONTROL then out else 0)
    {
      NothingYet(st.entries, id, row);
      SettleMovesOn(st0, id, owner, amount, back, out, id, row);
    }
  }

  // ----- every step

  lemma TransferAdds(st: State, cmd: TransferCommand, credit: bool)
    requires forall e :: e in st.entries ==> e.txn < |st.txns|
    requires Transfer(st, cmd, credit).Posted?
    ensures var delta := if credit then cmd.amount else -cmd.amount;
            AddsEntries(st, Transfer(st, cmd, credit).state, cmd.owner, delta, 0, -delta)
  {
    hide PostTransfer, EnsureAccounts, FindTxn, KeyUsed, TransferBlocked, AddsEntries;
    var action := if credit then Credit else Debit;
    var t := Transaction(cmd.source, action, cmd.owner, cmd.amount, None, cmd.key, RequestOf(cmd));
    var st0 := st.(balances := EnsureAccounts(st.balances, cmd.owner));
    TransferEntries(st0, t, if credit then cmd.amount else -cmd.amount, cmd.expiresAt);
    SameStart(st, st0, Transfer(st, cmd, credit).state, cmd.owner, if credit then cmd.amount else -cmd.amount, 0,
              if credit then -cmd.amount else cmd.amount);
  }

  lemma SameStart(st: State, st0: State, st': State, owner: nat, available: int, frozen: int, control: int)
    requires st0.entries == st.entries && st0.txns == st.txns
             && AddsEntries(st0, st', owner, available, frozen, control)
    ensures AddsEntries(st, st', owner, available, frozen, control)
  {
    hide Moved;
  }

  /** A reversal moves the opposite of what its original moved. */
  lemma ReverseAdds(st: State, cmd: ReverseCommand)
    requires forall e :: e in st.entries ==> e.txn < |st.txns|
    requires ReverseTransfer(st, cmd).Posted?
    ensures cmd.original < |st.txns|
            && (st.txns[cmd.original].action == Credit || st.txns[cmd.original].action == Debit)
    ensures var delta := if st.txns[cmd.original].action == Credit then -AmountAsked(st, DoReverse(cmd))
            else AmountAsked(st, DoReverse(cmd));
            AddsEntries(st, ReverseTransfer(st, cmd).state, st.txns[cmd.original].owner, delta, 0, -delta)
  {
    hide PostTransfer, EnsureAccounts, FindTxn, KeyUsed, TransferBlocked, AddsEntries, Sum, Wrap64;
    var original := st.txns[cmd.original];
    var amount := if cmd.amount == 0 then original.amount else cmd.amount;
    var t := Transaction(cmd.source, Reverse, original.owner, amount, Some(cmd.original), cmd.key, OtherRequest);
    var delta := if original.action == Debit then amount else -amount;
    var st0 := st.(balances := EnsureAccounts(st.balances, original.owner));
    TransferEntries(st0, t, delta, None);
    SameStart(st, st0, ReverseTransfer(st, cmd).state, original.owner, delta, 0, -delta);
  }

  function SettledParts(st: State, cmd: HoldCommand, action: Action, now: Time): Settled
    requires cmd.hold < |st.holds|
  {
    SettleParts(st.lots, st.holdLots, OpenParts(st.holdLots, cmd.hold), ActionAmount(st.holds[cmd.hold], cmd.amount),
                action == Commit, now, 0, 0)
  }

  lemma SettledEntries(st: State, cmd: HoldCommand, action: Action, now: Time)
    requires SettleHold(st, cmd, action, now).Posted?
    ensures cmd.hold < |st.holds| && SettledParts(st, cmd, action, now).Settled?
    ensures var hold, settled := st.holds[cmd.hold], SettledParts(st, cmd, action, now);
            var amount := ActionAmount(hold, cmd.amount);
            var t := Transaction(cmd.source, action, hold.owner, amount, None, cmd.key, OtherRequest);
            SettleHold(st, cmd, action, now).state.entries
            == SettleMoves(AddTxn(st.(balances := EnsureAccounts(st.balances, hold.owner)), t), |st.txns|, hold.owner,
                           amount,
                           settled.back, settled.out).entries
  {
    hide SettleParts, OpenParts, EnsureAccounts, FindTxn, StatusAfter, SettleMoves, KeyUsed;
  }

  lemma SettleAdds(st: State, cmd: HoldCommand, action: Action, now: Time) returns (back: int, out: int)
    requires Core(st) && SettleHold(st, cmd, action, now).Posted?
    requires forall e :: e in st.entries ==> e.txn < |st.txns|
    ensures cmd.hold < |st.holds| && back >= 0 && out >= 0 && back + out == ActionAmount(st.holds[cmd.hold], cmd.amount)
    ensures action == Commit ==> back == 0
    ensures AddsEntries(st, SettleHold(st, cmd, action, now).state, st.holds[cmd.hold].owner, back,
                        -ActionAmount(st.holds[cmd.hold], cmd.amount), out)
  {
    hide Core, SettleParts, OpenParts, EnsureAccounts, AddsEntries, SettleMoves, FindTxn, KeyUsed, StatusAfter,
      PostSettlement;
    SettledEntries(st, cmd, action, now);
    SettledSums(st, cmd, action, now);
    hide SettleHold;
    var hold, settled := st.holds[cmd.hold], SettledParts(st, cmd, action, now);
    var amount := ActionAmount(hold, cmd.amount);
    back, out := settled.back, settled.out;
    var t := Transaction(cmd.source, action, hold.owner, amount, None, cmd.key, OtherRequest);
    var st0 := AddTxn(st.(balances := EnsureAccounts(st.balances, hold.owner)), t);
    SettleEntries(st, st0, hold.owner, amount, back, out);
    SameEnd(st, SettleMoves(st0, |st.txns|, hold.owner, amount, back, out), SettleHold(st, cmd, action, now).state,
            hold.owner, back, -amount, out);
  }

  lemma SameEnd(st: State, st1: State, st': State, owner: nat, available: int, frozen: int, control: int)
    requires st'.entries == st1.entries && AddsEntries(st, st1, owner, available, frozen, control)
    ensures AddsEntries(st, st', owner, available, frozen, control)
  {
    hide Moved;
  }

  lemma FreezeAdds(st: State, f: FreezeCommand)
    requires forall e :: e in st.entries ==> e.txn < |st.txns|
    requires FreezeAmount(st, f).Posted?
    ensures AddsEntries(st, FreezeAmount(st, f).state, f.owner, -f.amount, f.amount, 0)
  {
    hide EnsureAccounts, Take, FefoOrder, FindTxn, FindHold, AddsEntries, KeyUsed;
    var t := Transaction(f.source, Freeze, f.owner, f.amount, None, f.key, OtherRequest);
    var st0 := AddTxn(st.(balances := EnsureAccounts(st.balances, f.owner)), t);
    TwoEntries(st, st0, f.owner, FrozenRow(f.owner), f.amount, FreezeAmount(st, f).state);
  }

  lemma ExpiryAdds(st: State, lot: nat, now: Time)
    requires forall e :: e in st.entries ==> e.txn < |st.txns|
    requires ExpireLot(st, lot, now).Posted?
    ensures lot < |st.lots|
    ensures AddsEntries(st, ExpireLot(st, lot, now).state, st.lots[lot].owner, -st.lots[lot].available, 0,
                        st.lots[lot].available)
  {
    hide EnsureAccounts, FindTxn, AddsEntries, KeyUsed;
    var l := st.lots[lot];
    var t := Transaction(Source(Expiry, Id(lot)), Expire, l.owner, l.available, None,
                         IdempotencyKey(SYSTEM, LotToken(lot)), OtherRequest);
    var st0 := AddTxn(st.(balances := EnsureAccounts(st.balances, l.owner)), t);
    TwoEntries(st, st0, l.owner, CONTROL, l.available, ExpireLot(st, lot, now).state);
  }

  /** What a posted command moves on its owner's two balances and on the control account. */
  ghost predicate MovesRight(st: State, cmd: Command, available: int, frozen: int, control: int) {
    var amount := AmountAsked(st, cmd);
    && control == -(available + frozen)
    && match cmd
       case DoCredit(_) => available == amount && frozen == 0
       case DoDebit(_) => available == -amount && frozen == 0
       case DoReverse(r) =>
         && r.original < |st.txns| && frozen == 0
         && (st.txns[r.original].action == Credit || st.txns[r.original].action == Debit)
         && available == if st.txns[r.original].action == Credit then -amount else amount
       case DoFreeze(_) => available == -amount && frozen == amount
       case DoCommit(_, _) => available == 0 && frozen == -amount
       case DoRelease(_, _) => 0 <= available <= amount && frozen == -amount
       case DoExpireHold(_, _) => 0 <= available <= amount && frozen == -amount
       case DoExpireLot(_, _) => available == -amount && frozen == 0
  }

  lemma CommandAdds(st: State, cmd: Command) returns (available: int, frozen: int, control: int)
    requires Core(st) && Apply(st, cmd).Posted? && forall e :: e in st.entries ==> e.txn < |st.txns|
    ensures OwnerOf(st, cmd).Some? && MovesRight(st, cmd, available, frozen, control)
    ensures AddsEntries(st, Next(st, cmd), OwnerOf(st, cmd).value, available, frozen, control)
  {
    hide Core, AddsEntries, Transfer, ReverseTransfer, FreezeAmount, SettleHold, ExpireLot;
    match cmd {
      case DoCredit(t) =>
        TransferAdds(st, t, true);
        available, frozen, control := t.amount, 0, -t.amount;
      case DoDebit(t) =>
        TransferAdds(st, t, false);
        available, frozen, control := -t.amount, 0, t.amount;
      case DoReverse(r) =>
        ReverseAdds(st, r);
        available := if st.txns[r.original].action == Credit then -AmountAsked(st, cmd) else AmountAsked(st, cmd);
        frozen, control := 0, -available;
      case DoFreeze(f) =>
        FreezeAdds(st, f);
        available, frozen, control := -f.amount, f.amount, 0;
      case DoCommit(h, now) =>
        var back, out := SettleAdds(st, h, Commit, now);
        available, frozen, control := back, -AmountAsked(st, cmd), out;
      case DoRelease(h, now) =>
        var back, out := SettleAdds(st, h, Release, now);
        available, frozen, control := back, -AmountAsked(st, cmd), out;
      case DoExpireHold(h, now) =>
        var back, out := SettleAdds(st, ExpiryOf(h), Expire, now);
        available, frozen, control := back, -AmountAsked(st, cmd), out;
      case DoExpireLot(l, now) =>
        ExpiryAdds(st, l, now);
        available, frozen, control := -st.lots[l].available, 0, st.lots[l].available;
    }
  }

  lemma StepKeepsMeaning(st: State, cmd: Command)
    requires Core(st) && AllMean(st)
    ensures AllMean(Next(st, cmd))
  {
    if Apply(st, cmd).Posted? {
      CommandRecords(st, cmd);
      var available, frozen, control := CommandAdds(st, cmd);
      var st', n := Next(st, cmd), |st.txns|;
      hide Core, Next, Apply, Moved;
      assert forall e :: e in st'.entries ==> e.txn < |st'.txns|;
      forall k: nat | k < |st'.txns| ensures Means(st'.txns, st'.entries, k) {
        if k < n {
          OlderMeans(st.txns, st.entries, st'.txns, st'.entries, k);
        } else {
          NewerMeans(st, cmd, st', available, frozen, control);
        }
      }
    }
  }

  lemma OlderMeans(txns: seq<Transaction>, entries: seq<Entry>, txns': seq<Transaction>, entries': seq<Entry>, k: nat)
    requires k < |txns| && Means(txns, entries, k) && |txns| <= |txns'| && txns'[..|txns|] == txns
    requires forall row :: Moved(entries', k, row) == Moved(entries, k, row)
    ensures Means(txns', entries', k)
  {
    hide Moved;
    assert forall j :: 0 <= j < |txns| ==> txns'[j] == txns'[..|txns|][j];
  }

  lemma NewerMeans(st: State, cmd: Command, st': State, available: int, frozen: int, control: int)
    requires Records(st, cmd, st') && MovesRight(st, cmd, available, frozen, control)
    requires OwnerOf(st, cmd).Some? && AddsEntries(st, st', OwnerOf(st, cmd).value, available, frozen, control)
    ensures Means(st'.txns, st'.entries, |st.txns|)
  {
    hide Moved;
    assert forall j :: 0 <= j < |st.txns| ==> st'.txns[j] == st'.txns[..|st.txns|][j];
  }

  /** In every run each transaction's entries say what its action means: a credit gives, a debit takes, a reversal does
      the opposite of its original, a freeze moves to frozen, a settlement moves out of it. */
  lemma {:induction false} RunMeans(asset: AssetType, cmds: seq<Command>)
    ensures AllMean(Run(Empty(asset), cmds))
  {
    if cmds != [] {
      hide Next, AllMean, Core;
      RunMeans(asset, cmds[..|cmds| - 1]);
      RunHasCore(asset, cmds[..|cmds| - 1]);
      StepKeepsMeaning(Run(Empty(asset), cmds[..|cmds| - 1]), cmds[|cmds| - 1]);
    } else {
      NothingMeans(asset);
    }
  }

  lemma NothingMeans(asset: AssetType)
    ensures AllMean(Empty(asset))
  {
  }

  // ----- reversals

  /** In every run a reversal's entry on the customer's available balance has the opposite sign of its original's, and
      is
      its own amount; one of the whole amount cancels its original on every balance row. */
  lemma ReversalOpposes(asset: AssetType, cmds: seq<Command>, t: nat)
    requires var txns := Run(Empty(asset), cmds).txns; t < |txns| && txns[t].action == Reverse
    ensures var st := Run(Empty(asset), cmds);
            var reversal := st.txns[t];
            && reversal.reversalOf.Some? && reversal.reversalOf.value < t
            && var k := reversal.reversalOf.value;
               var row := AvailableRow(st.txns[k].owner);
               && reversal.owner == st.txns[k].owner
               && Moved(st.entries, t, row)
                  == (if Moved(st.entries, k, row) > 0 then -reversal.amount else reversal.amount)
               && Moved(st.entries, k, row) != 0
               && (reversal.amount == st.txns[k].amount ==>
                     forall r :: Moved(st.entries, t, r) == -Moved(st.entries, k, r))
  {
    RunMeans(asset, cmds);
    var st := Run(Empty(asset), cmds);
    hide Run, Moved;
    assert Means(st.txns, st.entries, t);
    assert Means(st.txns, st.entries, st.txns[t].reversalOf.value);
  }

  // ----- balances

  /** What the first `n` transactions moved on a row. */
  function MovedUpTo(entries: seq<Entry>, n: nat, row: BalanceKey): int {
    if n == 0 then 0 else MovedUpTo(entries, n - 1, row) + Moved(entries, n - 1, row)
  }

  function Below(n: nat, row: BalanceKey): Entry -> int {
    (e: Entry) => if e.row == row && e.txn < n then e.delta else 0
  }

  lemma {:induction false} BelowIsMoved(entries: seq<Entry>, n: nat, row: BalanceKey)
    ensures Sum(Below(n, row), entries) == MovedUpTo(entries, n, row)
  {
    if n == 0 {
      SumZero(Below(0, row), entries);
    } else {
      BelowIsMoved(entries, n - 1, row);
      SumSplit(Below(n, row), Below(n - 1, row), On(n - 1, row), entries);
    }
  }

  lemma RowIsMoved(entries: seq<Entry>, n: nat, row: BalanceKey)
    requires forall e :: e in entries ==> e.txn < n
    ensures Sum(DeltaOn(row), entries) == MovedUpTo(entries, n, row)
  {
    BelowIsMoved(entries, n, row);
    SumSame(DeltaOn(row), Below(n, row), entries);
  }

  /** In every run each balance is what its transactions moved, one after another. */
  lemma BalanceIsMoved(asset: AssetType, cmds: seq<Command>, row: BalanceKey)
    ensures var st := Run(Empty(asset), cmds); Bal(st.balances, row) == MovedUpTo(st.entries, |st.txns|, row)
  {
    RunMeans(asset, cmds);
    RunKeepsInv(asset, cmds);
    var st := Run(Empty(asset), cmds);
    assert Drift(st.balances, st.entries, row) == 0;
    RowIsMoved(st.entries, |st.txns|, row);
  }

  lemma {:induction false} OlderMoves(entries: seq<Entry>, entries': seq<Entry>, n: nat, row: BalanceKey)
    requires forall k: nat :: k < n ==> Moved(entries', k, row) == Moved(entries, k, row)
    ensures MovedUpTo(entries', n, row) == MovedUpTo(entries, n, row)
  {
    hide Moved;
    if n > 0 { OlderMoves(entries, entries', n - 1, row); }
  }

  /** A posted command changes every balance by what its own transaction moved on it. */
  lemma BalanceStep(st: State, cmd: Command, row: BalanceKey)
    requires Inv(st) && AllMean(st) && Apply(st, cmd).Posted?
    ensures var st' := Next(st, cmd);
            && Bal(st'.balances, row) == Bal(st.balances, row) + Moved(st'.entries, |st.txns|, row)
            && forall k: nat :: k < |st.txns| ==> Moved(st'.entries, k, row) == Moved(st.entries, k, row)
  {
    var st' := Next(st, cmd);
    StepKeepsInv(st, cmd);
    StepKeepsMeaning(st, cmd);
    CommandRecords(st, cmd);
    var available, frozen, control := CommandAdds(st, cmd);
    hide Core, Next, Apply, Moved;
    assert Drift(st.balances, st.entries, row) == 0 && Drift(st'.balances, st'.entries, row) == 0;
    RowIsMoved(st.entries, |st.txns|, row);
    RowIsMoved(st'.entries, |st'.txns|, row);
    OlderMoves(st.entries, st'.entries, |st.txns|, row);
  }

  /** After any run a credit or debit followed by its full reversal leaves every balance row as it was. */
  lemma FullReversalRestores(asset: AssetType, cmds: seq<Command>, transfer: Command, reverse: ReverseCommand,
                             row: BalanceKey)
    requires transfer.DoCredit? || transfer.DoDebit?
    requires var st := Run(Empty(asset), cmds);
             && Apply(st, transfer).Posted? && reverse.original == |st.txns|
             && (reverse.amount == 0 || reverse.amount == transfer.transfer.amount)
             && Apply(Next(st, transfer), DoReverse(reverse)).Posted?
    ensures var st := Run(Empty(asset), cmds);
            Bal(Next(Next(st, transfer), DoReverse(reverse)).balances, row) == Bal(st.balances, row)
  {
    var st := Run(Empty(asset), cmds);
    var mid := Next(st, transfer);
    var end := Next(mid, DoReverse(reverse));
    RunMeans(asset, cmds);
    RunKeepsInv(asset, cmds);
    StepKeepsInv(st, transfer);
    StepKeepsMeaning(st, transfer);
    StepKeepsMeaning(mid, DoReverse(reverse));
    CommandRecords(st, transfer);
    CommandRecords(mid, DoReverse(reverse));
    BalanceStep(st, transfer, row);
    BalanceStep(mid, DoReverse(reverse), row);
    hide Run, Inv, Next, Apply, Moved;
    var k := |st.txns|;
    assert Means(mid.txns, mid.entries, k);
    assert Means(end.txns, end.entries, k + 1);
    assert end.txns[k] == end.txns[..|mid.txns|][k];
    OppositeRows(mid, end, k, row);
  }

  lemma OppositeRows(mid: State, end: State, k: nat, row: BalanceKey)
    requires k + 1 == |mid.txns| && k + 2 == |end.txns| && end.txns[k] == mid.txns[k]
    requires Means(mid.txns, mid.entries, k) && Means(end.txns, end.entries, k + 1)
    requires (mid.txns[k].action == Credit || mid.txns[k].action == Debit) && end.txns[k + 1].action == Reverse
    requires end.txns[k + 1].reversalOf == Some(k) && end.txns[k + 1].amount == mid.txns[k].amount
    ensures Moved(end.entries, k + 1, row) == -Moved(mid.entries, k, row)
  {
    hide Moved;
  }
}
