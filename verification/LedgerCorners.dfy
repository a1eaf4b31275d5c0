/** Concrete runs that show where the ledger's promises end. */
module LedgerCorners {
  import opened Sums
  import opened Ordering
  import opened Machine
  import opened LedgerModel
  import opened LedgerInvariant
  import opened LedgerSafety
  import opened LedgerReversal
  import opened LedgerExpiry
  import opened LedgerBatch

  function Request(amount: int, source: nat, expiresAt: Option<Time>): TransferCommand {
    TransferCommand(1, amount, Source(ReconciliationTest, Id(source)), IdempotencyKey(source, Given("")), true,
                    expiresAt, "")
  }

  function FreezeOf(amount: int, source: nat): FreezeCommand {
    FreezeCommand(1, amount, Source(ReconciliationTest, Id(source)), IdempotencyKey(source, Given("")), true, "r", None)
  }

  function OnHold(amount: int, source: nat): HoldCommand {
    HoldCommand(0, amount, Source(ReconciliationTest, Id(source)), IdempotencyKey(source, Given("")))
  }

  lemma RunAt(st: State, cmds: seq<Command>, n: nat)
    requires n < |cmds|
    ensures Run(st, cmds[..n + 1]) == Next(Run(st, cmds[..n]), cmds[n])
    ensures Run(st, cmds[..0]) == st && cmds[..|cmds|] == cmds
  {
    assert cmds[..n + 1][..n] == cmds[..n];
  }

  // ----- a lot nobody expires any more

  const STRAND: seq<Command> := [DoCredit(Request(10, 1, Some(5))), DoFreeze(FreezeOf(4, 2)), DoExpireHold(0, 6)]

  predicate Keyed(st: State, n: nat) {
    forall k :: 0 <= k < |st.txns| ==>
      st.txns[k].source.id.Id? && st.txns[k].source.id.n <= n && !st.txns[k].key.token.HoldToken?
          && (st.txns[k].key.token.Given? ==> st.txns[k].key.actor <= n)
  }

  lemma KeyedMore(st: State, st': State, n: nat, m: nat)
    requires Keyed(st, n) && n <= m && |st'.txns| == |st.txns| + 1
             && forall k :: 0 <= k < |st.txns| ==> st'.txns[k] == st.txns[k]
    requires var t := st'.txns[|st.txns|];
             t.source.id.Id? && t.source.id.n <= m && !t.key.token.HoldToken?
                 && (t.key.token.Given? ==> t.key.actor <= m)
    ensures Keyed(st', m)
  {
  }

  lemma FreshKeys(st: State, n: nat, source: Source, action: Action, key: IdempotencyKey)
    requires Keyed(st, n) && source.id != Id(0)
    requires source.id.Id? ==> source.id.n > n
    requires if key.token.Given? then key.actor > n else key.token.HoldToken?
    ensures FindTxn(st.txns, source, action).None? && !KeyUsed(st.txns, key)
  {
  }

  /** An accepted credit in a ledger whose keys so far are at most `n`. */
  lemma Credits(st: State, amount: int, n: nat, expiresAt: Option<Time>)
    requires st.asset == Balance && 0 < amount <= MAX_INT64 / 2 && Keyed(st, n)
    requires TransferBlocked(EnsureAccounts(st.balances, 1), 1, amount).None?
    ensures var st' := Next(st, DoCredit(Request(amount, n + 1, expiresAt)));
            && Keyed(st', n + 1) && st'.lots == st.lots
               + [Lot(1, |st.txns|, amount, amount, 0, 0, 0, expiresAt, LotActive)]
            && st'.holds == st.holds && st'.holdLots == st.holdLots && st'.asset == Balance
            && Bal(st'.balances, AvailableRow(1)) == Bal(st.balances, AvailableRow(1)) + amount
            && Bal(st'.balances, CONTROL) == Bal(st.balances, CONTROL) - amount
            && Bal(st'.balances, FrozenRow(1)) == Bal(st.balances, FrozenRow(1))
            && st'.txns == st.txns + [Transaction(Request(amount, n + 1, expiresAt).source, Credit, 1, amount, None,
                                                  Request(amount, n + 1, expiresAt).key,
                                                  RequestOf(Request(amount, n + 1, expiresAt)))]
  {
    var t := Request(amount, n + 1, expiresAt);
    FreshKeys(st, n, t.source, Credit, t.key);
    EnsureBalances(st, 1);
    hide EnsureAccounts, FindTxn, KeyUsed, TransferBlocked;
  }

  /** Freezing part of the only lot. */
  lemma FreezesOne(st: State, amount: int, n: nat)
    requires st.asset == Balance && Keyed(st, n) && st.holds == [] && st.holdLots == []
    requires |st.lots| == 1 && st.lots[0].owner == 1 && 0 < amount < st.lots[0].available && amount <= MAX_INT64 / 2
    requires amount <= Bal(st.balances, AvailableRow(1))
    ensures var st' := Next(st, DoFreeze(FreezeOf(amount, n + 1)));
            && Keyed(st', n + 1) && st'.asset == Balance
            && st'.lots == [st.lots[0].(available := st.lots[0].available - amount,
                                        frozen := st.lots[0].frozen + amount)]
            && st'.holdLots == [HoldLot(0, 0, amount, 0, 0)]
            && st'.holds == [Hold("r", 1, amount, 0, 0, HoldActive, FreezeOf(amount, n + 1).source, None)]
            && Bal(st'.balances, FrozenRow(1)) == Bal(st.balances, FrozenRow(1)) + amount
            && Bal(st'.balances, AvailableRow(1)) == Bal(st.balances, AvailableRow(1)) - amount
            && Bal(st'.balances, CONTROL) == Bal(st.balances, CONTROL)
  {
    var f := FreezeOf(amount, n + 1);
    FreshKeys(st, n, f.source, Freeze, f.key);
    EnsureBalances(st, 1);
    assert FefoOrder(st.lots, 1) == [0];
    TakesFirst(st.lots, amount);
    hide EnsureAccounts, FindTxn, KeyUsed, Take, FefoOrder;
  }

  lemma TakesFirst(lots: seq<Lot>, amount: int)
    requires |lots| == 1 && 0 < amount < lots[0].available
    ensures Take(lots, [], Some(0), [0], amount)
         == Taken([TakeOne(lots[0], amount, true)], [HoldLot(0, 0, amount, 0, 0)], 0)
  {
    assert [0][1..] == [];
    assert lots[0 := TakeOne(lots[0], amount, true)] == [TakeOne(lots[0], amount, true)];
    assert [] + [HoldLot(0, 0, amount, 0, 0)] == [HoldLot(0, 0, amount, 0, 0)];
  }

  /** Settling all of the only hold, on the first lot. */
  lemma SettlesOne(st: State, amount: int, c: Command, cmd: HoldCommand, action: Action, now: Time, n: nat)
    requires st.asset == Balance && Keyed(st, n) && |st.lots| >= 1 && |st.holds| == 1 && cmd.hold == 0
             && cmd.amount == 0 && action != Commit
    requires st.holds[0].owner == 1 && st.holds[0].original == amount > 0
             && st.holds[0].committed == st.holds[0].released == 0
    requires st.holds[0].status == HoldActive && st.holdLots == [HoldLot(0, 0, amount, 0, 0)]
    requires st.lots[0].frozen >= amount && amount <= Bal(st.balances, FrozenRow(1))
    requires (c == DoRelease(cmd, now) && action == Release && cmd == OnHold(0, n + 1))
             || (c == DoExpireHold(0, now) && action == Expire && cmd == ExpiryOf(0))
    ensures var st' := Next(st, c);
            && st'.lots == st.lots[0 := SettleLot(st.lots[0], amount, false, now)]
            && Bal(st'.balances, AvailableRow(1)) == Bal(st.balances, AvailableRow(1))
               + (if PastDue(st.lots[0], now) then 0 else amount)
            && (cmd == OnHold(0, n + 1) ==> Keyed(st', n + 1)) && st'.asset == Balance
            && |st'.txns| == |st.txns| + 1 && (forall k :: 0 <= k < |st.txns| ==> st'.txns[k] == st.txns[k])
  {
    hide EnsureAccounts, FindTxn, KeyUsed, PostSettlement, Keyed;
    FreshKeys(st, n, cmd.source, action, cmd.key);
    EnsureBalances(st, 1);
    var st1 := st.(balances := EnsureAccounts(st.balances, 1));
    PostsSettlement(st1, amount, cmd, action, now);
    assert SettleHold(st, cmd, action, now) == PostSettlement(st1, cmd, st.holds[0], amount, action, now);
    if cmd == OnHold(0, n + 1) {
      KeyedMore(st, Next(st, c), n, n + 1);
    }
  }

  lemma PostsSettlement(st: State, amount: int, cmd: HoldCommand, action: Action, now: Time)
    requires |st.lots| >= 1 && |st.holds| == 1 && cmd.hold == 0 && action != Commit && !KeyUsed(st.txns, cmd.key)
    requires st.holds[0].owner == 1 && st.holdLots == [HoldLot(0, 0, amount, 0, 0)] && st.lots[0].frozen >= amount > 0
    ensures var o := PostSettlement(st, cmd, st.holds[0], amount, action, now);
            && o.Posted? && o.state.asset == st.asset
               && o.state.lots == st.lots[0 := SettleLot(st.lots[0], amount, false, now)]
            && Bal(o.state.balances, AvailableRow(1))
               == Bal(st.balances, AvailableRow(1)) + (if PastDue(st.lots[0], now) then 0 else amount)
            && |o.state.txns| == |st.txns| + 1 && (forall k :: 0 <= k < |st.txns| ==> o.state.txns[k] == st.txns[k])
            && o.state.txns[|st.txns|].source == cmd.source && o.state.txns[|st.txns|].key == cmd.key
  {
    assert OpenParts(st.holdLots, 0) == [0];
    SettlesFirst(st.lots, amount, now);
    hide SettleParts, OpenParts, KeyUsed;
  }

  lemma SettlesFirst(lots: seq<Lot>, amount: int, now: Time)
    requires |lots| >= 1 && lots[0].frozen >= amount > 0
    ensures var back := if PastDue(lots[0], now) then 0 else amount;
            SettleParts(lots, [HoldLot(0, 0, amount, 0, 0)], [0], amount, false, now, 0, 0)
            == Settled(lots[0 := SettleLot(lots[0], amount, false, now)], [HoldLot(0, 0, amount, 0, amount)], 0, back,
                       amount - back)
  {
    assert [0][1..] == [];
    assert [HoldLot(0, 0, amount, 0, 0)][0 := HoldLot(0, 0, amount, 0, amount)] == [HoldLot(0, 0, amount, 0, amount)];
  }

  lemma PicksSomeOrNone(lots: seq<Lot>, now: Time)
    ensures DueLots(lots, now) == [] || exists i: nat :: i < |lots| && IsDueLot(lots, now)(i)
  {
    assert DueLots(lots, now) == [] || DueLots(lots, now)[0] in DueLots(lots, now);
  }

  /** In the worker's own order, expiring a hold first hides what its lot still has available from the lot expiry. */
  lemma WorkerStrandsLot()
    ensures var st := Run(Empty(Balance), STRAND);
            |st.lots| == 1 && st.lots[0].available == 6 && Stranded(st.lots[0], 6) && DueLots(st.lots, 6) == []
  {
    hide Run, Next;
    RunAt(Empty(Balance), STRAND, 0);
    RunAt(Empty(Balance), STRAND, 1);
    RunAt(Empty(Balance), STRAND, 2);
    var s1, s2 := Run(Empty(Balance), STRAND[..1]), Run(Empty(Balance), STRAND[..2]);
    Credits(Empty(Balance), 10, 0, Some(5));
    FreezesOne(s1, 4, 1);
    SettlesOne(s2, 4, STRAND[2], ExpiryOf(0), Expire, 6, 2);
    PicksSomeOrNone(Run(Empty(Balance), STRAND).lots, 6);
  }

  // ----- a balance past 64 bits

  const CORNER: seq<Command> := [
    DoCredit(Request(3, 1, None)), DoFreeze(FreezeOf(2, 2)),
    DoCredit(Request(0x3FFF_FFFF_FFFF_FFFF, 3, None)), DoCredit(Request(0x3FFF_FFFF_FFFF_FFFE, 4, None)),
    DoRelease(OnHold(0, 5), 0)]

  /** The credits take the control balance to the smallest 64-bit integer, which the overflow check admits;
      the unchecked release then lifts the available balance past the largest one, where the code's own integers
      wrap. */
  lemma ReleaseOverflows()
    ensures Bal(Run(Empty(Balance), CORNER[..4]).balances, CONTROL) == MIN_INT64
    ensures Bal(Run(Empty(Balance), CORNER).balances, AvailableRow(1)) == MAX_INT64 + 1
    ensures Wrap64(Bal(Run(Empty(Balance), CORNER).balances, AvailableRow(1))) == MIN_INT64
  {
    hide Run, Next;
    RunAt(Empty(Balance), CORNER, 0);
    RunAt(Empty(Balance), CORNER, 1);
    RunAt(Empty(Balance), CORNER, 2);
    RunAt(Empty(Balance), CORNER, 3);
    RunAt(Empty(Balance), CORNER, 4);
    var s1, s2 := Run(Empty(Balance), CORNER[..1]), Run(Empty(Balance), CORNER[..2]);
    var s3, s4 := Run(Empty(Balance), CORNER[..3]), Run(Empty(Balance), CORNER[..4]);
    Credits(Empty(Balance), 3, 0, None);
    FreezesOne(s1, 2, 1);
    EnsureBalances(s2, 1);
    Credits(s2, 0x3FFF_FFFF_FFFF_FFFF, 2, None);
    EnsureBalances(s3, 1);
    Credits(s3, 0x3FFF_FFFF_FFFF_FFFE, 3, None);
    SettlesOne(s4, 2, CORNER[4], OnHold(0, 5), Release, 0, 4);
  }

  // ----- a reversal past its cap

  function ReversalRequest(amount: int, source: nat): ReverseCommand {
    ReverseCommand(1, amount, Source(ReconciliationTest, Id(source)), IdempotencyKey(source, Given("")))
  }

  lemma PostEffects(st: State, t: Transaction, delta: int, expiresAt: Option<Time>)
    requires PostTransfer(st, t, delta, expiresAt).Posted?
    ensures var st' := PostTransfer(st, t, delta, expiresAt).state;
            && st'.txns == st.txns + [t] && st'.asset == st.asset
            && Bal(st'.balances, AvailableRow(t.owner)) == Bal(st.balances, AvailableRow(t.owner)) + delta
            && Bal(st'.balances, CONTROL) == Bal(st.balances, CONTROL) - delta
  {
    hide Take, FefoOrder;
  }

  /** Without a rejection for a caller's reason, a transfer posts. */
  lemma DebitPosts(st: State, t: Transaction, delta: int)
    requires PostTransfer(st, t, delta, None).Rejected? ==> !PostTransfer(st, t, delta, None).error.Internal()
    ensures PostTransfer(st, t, delta, None).Posted?
  {
    hide Take, FefoOrder;
  }

  lemma CreditPosts(st: State, t: Transaction, delta: int)
    requires delta > 0
    ensures PostTransfer(st, t, delta, None).Posted?
  {
  }

  lemma DebitIs(st: State, amount: int, n: nat)
    requires st.asset == Balance && Keyed(st, n) && 0 < amount <= MAX_INT64 / 2
    requires amount <= Bal(st.balances, AvailableRow(1)) <= MAX_INT64 && MIN_INT64 <= Bal(st.balances, CONTROL) <= 0
    ensures var t := Request(amount, n + 1, None);
            Apply(st, DoDebit(t)) == PostTransfer(st.(balances := EnsureAccounts(st.balances, 1)),
                                                  Transaction(t.source, Debit, 1, amount, None, t.key, RequestOf(t)),
                                                  -amount, None)
  {
    var t := Request(amount, n + 1, None);
    FreshKeys(st, n, t.source, Debit, t.key);
    EnsureBalances(st, 1);
    hide EnsureAccounts, FindTxn, KeyUsed, PostTransfer;
  }

  lemma Debits(st: State, amount: int, n: nat)
    requires st.asset == Balance && Inv(st) && Keyed(st, n) && 0 < amount <= MAX_INT64 / 2
    requires amount <= Bal(st.balances, AvailableRow(1)) <= MAX_INT64 && MIN_INT64 <= Bal(st.balances, CONTROL) <= 0
    ensures var st' := Next(st, DoDebit(Request(amount, n + 1, None)));
            && st'.asset == Balance && Inv(st') && Keyed(st', n + 1) && |st'.txns| == |st.txns| + 1
            && st'.txns == st.txns + [st'.txns[|st.txns|]]
            && st'.txns[|st.txns|].action == Debit && st'.txns[|st.txns|].owner == 1
            && st'.txns[|st.txns|].amount == amount && st'.txns[|st.txns|].reversalOf == None
            && Bal(st'.balances, AvailableRow(1)) == Bal(st.balances, AvailableRow(1)) - amount
            && Bal(st'.balances, CONTROL) == Bal(st.balances, CONTROL) + amount
  {
    hide Inv, EnsureAccounts, Transfer, PostTransfer, Keyed;
    var t := Request(amount, n + 1, None);
    EnsureBalances(st, 1);
    StepKeepsInv(st, DoDebit(t));
    InternalErrorsUnreachable(st, DoDebit(t));
    DebitIs(st, amount, n);
    var st1 := st.(balances := EnsureAccounts(st.balances, 1));
    var row := Transaction(t.source, Debit, 1, amount, None, t.key, RequestOf(t));
    DebitPosts(st1, row, -amount);
    PostEffects(st1, row, -amount, None);
    KeyedMore(st, Next(st, DoDebit(t)), n, n + 1);
  }

  lemma ReverseIs(st: State, amount: int, n: nat)
    requires st.asset == Balance && Keyed(st, n) && 0 < amount <= MAX_INT64
    requires |st.txns| > 1 && st.txns[1].action == Debit && st.txns[1].owner == 1
    requires Wrap64(Sum(ReversalOf(1), st.txns) + amount) <= st.txns[1].amount
    requires Bal(st.balances, AvailableRow(1)) == 0 && Bal(st.balances, CONTROL) == 0
    ensures var r := ReversalRequest(amount, n + 1);
            Apply(st, DoReverse(r)) == PostTransfer(st.(balances := EnsureAccounts(st.balances, 1)),
                                                    Transaction(r.source, Reverse, 1, amount, Some(1), r.key,
                                                                OtherRequest), amount, None)
  {
    var r := ReversalRequest(amount, n + 1);
    FreshKeys(st, n, r.source, Reverse, r.key);
    EnsureBalances(st, 1);
    hide EnsureAccounts, FindTxn, KeyUsed, PostTransfer, Wrap64, Sum;
  }

  lemma Reverses(st: State, amount: int, n: nat)
    requires st.asset == Balance && Inv(st) && Keyed(st, n) && 0 < amount <= MAX_INT64
    requires |st.txns| > 1 && st.txns[1].action == Debit && st.txns[1].owner == 1
    requires Wrap64(Sum(ReversalOf(1), st.txns) + amount) <= st.txns[1].amount
    requires Bal(st.balances, AvailableRow(1)) == 0 && Bal(st.balances, CONTROL) == 0
    ensures var st' := Next(st, DoReverse(ReversalRequest(amount, n + 1)));
            && st'.asset == Balance && Inv(st') && Keyed(st', n + 1) && |st'.txns| == |st.txns| + 1
            && st'.txns == st.txns + [st'.txns[|st.txns|]] && st'.txns[1] == st.txns[1]
            && Sum(ReversalOf(1), st'.txns) == Sum(ReversalOf(1), st.txns) + amount
            && Bal(st'.balances, AvailableRow(1)) == amount && Bal(st'.balances, CONTROL) == -amount
  {
    hide Inv, EnsureAccounts, ReverseTransfer, PostTransfer, Keyed, Wrap64, Sum;
    var r := ReversalRequest(amount, n + 1);
    EnsureBalances(st, 1);
    StepKeepsInv(st, DoReverse(r));
    ReverseIs(st, amount, n);
    var st1 := st.(balances := EnsureAccounts(st.balances, 1));
    var row := Transaction(r.source, Reverse, 1, amount, Some(1), r.key, OtherRequest);
    CreditPosts(st1, row, amount);
    PostEffects(st1, row, amount, None);
    SumSnoc(ReversalOf(1), st.txns, row);
    KeyedMore(st, Next(st, DoReverse(r)), n, n + 1);
  }

  const WRAP: seq<Command> := [
    DoCredit(Request(10, 1, None)), DoDebit(Request(10, 2, None)),
    DoReverse(ReversalRequest(1, 3)), DoDebit(Request(1, 4, None)), DoReverse(ReversalRequest(MAX_INT64, 5))]

  /** A debit of 10 reversed by 1 and then by the largest 64-bit integer: the running total wraps and is accepted. */
  lemma ReversalWraps()
    ensures var st := Run(Empty(Balance), WRAP);
            |st.txns| == 5 && st.txns[1].action == Debit && st.txns[1].amount == 10
            && Sum(ReversalOf(1), st.txns) == MAX_INT64 + 1
  {
    hide Run, Next, Inv, Sum;
    RunAt(Empty(Balance), WRAP, 0);
    RunAt(Empty(Balance), WRAP, 1);
    RunAt(Empty(Balance), WRAP, 2);
    RunAt(Empty(Balance), WRAP, 3);
    RunAt(Empty(Balance), WRAP, 4);
    var s1, s2 := Run(Empty(Balance), WRAP[..1]), Run(Empty(Balance), WRAP[..2]);
    var s3, s4 := Run(Empty(Balance), WRAP[..3]), Run(Empty(Balance), WRAP[..4]);
    EmptyHolds(Balance);
    Credits(Empty(Balance), 10, 0, None);
    StepKeepsInv(Empty(Balance), WRAP[0]);
    Debits(s1, 10, 1);
    NoReversals(s2);
    Reverses(s2, 1, 2);
    Debits(s3, 1, 3);
    SumSnoc(ReversalOf(1), s3.txns, s4.txns[3]);
    Reverses(s4, MAX_INT64, 4);
  }

  lemma NoReversals(st: State)
    requires forall k :: 0 <= k < |st.txns| ==> st.txns[k].reversalOf == None
    ensures Sum(ReversalOf(1), st.txns) == 0
  {
    SumZero(ReversalOf(1), st.txns);
  }

  // ----- a clock that runs backwards

  const REWIND: seq<Command> := [
    DoCredit(Request(10, 1, Some(5))), DoFreeze(FreezeOf(4, 2)), DoExpireLot(0, 6), DoRelease(OnHold(0, 3), 4)]

  lemma Expires(st: State, now: Time, n: nat)
    requires Expirable(st, now) && Keyed(st, n) && |st.lots| == 1 && PastDue(st.lots[0], now)
             && st.lots[0].available > 0
    requires st.lots[0].owner == 1 && st.asset == Balance
    ensures var st' := Next(st, DoExpireLot(0, now));
            && Keyed(st', n) && st'.lots == [ExpiredLot(st.lots[0])] && st'.holds == st.holds
               && st'.holdLots == st.holdLots
            && st'.asset == Balance && Bal(st'.balances, FrozenRow(1)) == Bal(st.balances, FrozenRow(1))
            && |st'.txns| == |st.txns| + 1 && IsLotExpiry(st'.txns[|st.txns|], 0)
  {
    DueLotExpires(st, 0, now);
    ExpiresOne(st, 0, now);
    EnsureBalances(st, 1);
    hide Expirable, EnsureAccounts, FindTxn;
  }

  lemma ExpiryCollides(st: State, k: nat, now: Time)
    requires Inv(st) && |st.lots| > 0 && PastDue(st.lots[0], now) && st.lots[0].available > 0
    requires k < |st.txns| && IsLotExpiry(st.txns[k], 0)
    ensures ExpireLot(st, 0, now) == Rejected(IdempotencyConflict)
  {
    InternalErrorsUnreachable(st, DoExpireLot(0, now));
    hide Inv, EnsureAccounts;
  }

  lemma RewindExpirable()
    ensures Expirable(Run(Empty(Balance), REWIND[..2]), 6)
  {
    hide Expirable;
    var start := REWIND[..2];
    assert start[..1] == [REWIND[0]] && start[..1][..0] == [];
    assert ClockAfter([], 0) == 0;
    assert ClockAfter(start[..1], 0) == 0;
    assert start[1] == REWIND[1] && TimeOf(start[1], 0) == 0;
    assert ClockAfter(start, 0) == 0;
    assert Monotone(start, 0);
    RunKeepsExpirable(Balance, start, 0);
    LaterClock(Run(Empty(Balance), start), 0, 6);
  }

  lemma RewindHolds()
    ensures var s2 := Run(Empty(Balance), REWIND[..2]);
            && Keyed(s2, 2) && s2.asset == Balance && s2.lots == [Lot(1, 0, 10, 6, 4, 0, 0, Some(5), LotActive)]
            && s2.holds == [Hold("r", 1, 4, 0, 0, HoldActive, FreezeOf(4, 2).source, None)]
            && s2.holdLots == [HoldLot(0, 0, 4, 0, 0)] && Bal(s2.balances, FrozenRow(1)) == 4
  {
    hide Run, Next, Keyed, EnsureAccounts;
    EnsureBalances(Empty(Balance), 1);
    RunAt(Empty(Balance), REWIND, 0);
    RunAt(Empty(Balance), REWIND, 1);
    NoKeys();
    Credits(Empty(Balance), 10, 0, Some(5));
    FreezesOne(Run(Empty(Balance), REWIND[..1]), 4, 1);
  }

  /** Up to the lot expiry the run is an ordinary one. */
  lemma RewindExpires()
    ensures var s3 := Run(Empty(Balance), REWIND[..3]);
            && Keyed(s3, 2) && s3.asset == Balance && s3.lots == [Lot(1, 0, 10, 0, 4, 0, 6, Some(5), LotExpired)]
            && s3.holds == [Hold("r", 1, 4, 0, 0, HoldActive, FreezeOf(4, 2).source, None)]
            && s3.holdLots == [HoldLot(0, 0, 4, 0, 0)] && Bal(s3.balances, FrozenRow(1)) == 4
            && |s3.txns| > 0 && IsLotExpiry(s3.txns[|s3.txns| - 1], 0)
  {
    hide Run, Next, Expirable, Keyed;
    RunAt(Empty(Balance), REWIND, 2);
    RewindHolds();
    RewindExpirable();
    Expires(Run(Empty(Balance), REWIND[..2]), 6, 2);
  }

  lemma NoKeys()
    ensures Keyed(Empty(Balance), 0)
  {
  }

  /** When a release reads an earlier time than the lot expiry before it, the lot can never be expired again. */
  lemma RewoundClockBlocksExpiry(now: Time)
    requires now >= 5
    ensures var st := Run(Empty(Balance), REWIND);
            |st.lots| == 1 && st.lots[0].available == 4 && PastDue(st.lots[0], now)
            && ExpireLot(st, 0, now) == Rejected(IdempotencyConflict)
  {
    hide Run, Next, Inv, Keyed, ExpireLot;
    RewindExpires();
    RunAt(Empty(Balance), REWIND, 3);
    var s3 := Run(Empty(Balance), REWIND[..3]);
    SettlesOne(s3, 4, REWIND[3], OnHold(0, 3), Release, 4, 2);
    RunKeepsInv(Balance, REWIND);
    ExpiryCollides(Run(Empty(Balance), REWIND), |s3.txns| - 1, now);
  }
}
