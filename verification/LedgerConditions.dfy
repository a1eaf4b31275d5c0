/** When a command posts, told from the state before it in a caller's terms: nothing of the lots or of the ledger's
    inner
    checks is needed. */
module LedgerConditions {
  import opened Machine
  import opened Sums
  import opened LedgerModel
  import opened LedgerLots
  import opened LedgerInvariant
  import opened LedgerSafety
  import opened LedgerHolds

  predicate Unused(txns: seq<Transaction>, source: Source, action: Action, key: IdempotencyKey) {
    forall k :: 0 <= k < |txns| ==> !(txns[k].source == source && txns[k].action == action) && txns[k].key != key
  }

  predicate AmountAllowed(amount: int) { 1 <= amount <= 0x3FFF_FFFF_FFFF_FFFF }

  predicate TransferKind(asset: AssetType, kind: SourceType, credit: bool) {
    kind == ManualAdjustment || kind == ReconciliationTest
        || (kind == SourceType.Compensation && asset == Balance && credit)
  }

  function Has(st: State, owner: nat): int { Bal(st.balances, AvailableRow(owner)) }

  /** What the control account still admits before its 64 bits run out. */
  predicate RoomFor(st: State, owner: nat, amount: int) {
    Has(st, owner) + amount <= MAX_INT64 && Bal(st.balances, CONTROL) - amount >= MIN_INT64
  }

  predicate CreditAllowed(st: State, t: TransferCommand) {
    AmountAllowed(t.amount) && TransferKind(st.asset, t.source.kind, true) && t.registered
    && Unused(st.txns, t.source, Credit, t.key) && RoomFor(st, t.owner, t.amount)
  }

  predicate DebitAllowed(st: State, t: TransferCommand) {
    AmountAllowed(t.amount) && TransferKind(st.asset, t.source.kind, false) && t.registered
    && Unused(st.txns, t.source, Debit, t.key) && t.amount <= Has(st, t.owner)
  }

  predicate ReverseAllowed(st: State, r: ReverseCommand) {
    && r.original < |st.txns| && (st.txns[r.original].action == Credit || st.txns[r.original].action == Debit)
    && (r.source.kind == ManualAdjustment || r.source.kind == ReconciliationTest)
    && Unused(st.txns, r.source, Reverse, r.key)
    && var original := st.txns[r.original];
       var amount := if r.amount == 0 then original.amount else r.amount;
       && amount > 0 && Wrap64(Sum(ReversalOf(r.original), st.txns) + amount) <= original.amount
       && if original.action == Credit then amount <= Has(st, original.owner) else RoomFor(st, original.owner, amount)
  }

  predicate FreezeAllowed(st: State, f: FreezeCommand) {
    AmountAllowed(f.amount) && st.asset != GrowthValue && f.source.kind == ReconciliationTest && f.registered
    && (forall k :: 0 <= k < |st.holds| ==> st.holds[k].reservation != f.reservation)
    && Unused(st.txns, f.source, Freeze, f.key) && f.amount <= Has(st, f.owner)
  }

  predicate SettleAllowed(st: State, h: HoldCommand, action: Action) {
    h.hold < |st.holds| && Unused(st.txns, h.source, action, h.key)
    && if h.amount == 0 then Remainder(st.holds[h.hold]) > 0 else 0 < h.amount <= Remainder(st.holds[h.hold])
  }

  predicate ExpiryAllowed(st: State, lot: nat, now: Time) {
    lot < |st.lots| && st.lots[lot].expiresAt.Some? && st.lots[lot].expiresAt.value <= now && st.lots[lot].available > 0
    && Unused(st.txns, Source(Expiry, Id(lot)), Expire, IdempotencyKey(SYSTEM, LotToken(lot)))
  }

  predicate Allowed(st: State, cmd: Command) {
    match cmd
    case DoCredit(t) => CreditAllowed(st, t)
    case DoDebit(t) => DebitAllowed(st, t)
    case DoReverse(r) => ReverseAllowed(st, r)
    case DoFreeze(f) => FreezeAllowed(st, f)
    case DoCommit(h, _) => SettleAllowed(st, h, Commit)
    case DoRelease(h, _) => SettleAllowed(st, h, Release)
    case DoExpireHold(h, _) =>
      SettleAllowed(st, HoldCommand(h, 0, Source(Expiry, HoldId(h)), IdempotencyKey(SYSTEM, HoldToken(h))), Expire)
    case DoExpireLot(l, now) => ExpiryAllowed(st, l, now)
  }

  // ----- transfers

  lemma CreditPosts(st: State, t: TransferCommand)
    requires Inv(st)
    ensures Transfer(st, t, true).Posted? <==> CreditAllowed(st, t)
  {
    ControlIsMinusCustomers(st, t.owner);
    BalancesAreLots(st, t.owner);
    EnsureBalances(st, t.owner);
    hide Inv, EnsureAccounts;
  }

  lemma TransferSound(st: State, t: TransferCommand, credit: bool)
    requires Inv(st) && Transfer(st, t, credit).Rejected?
    ensures Transfer(st, t, credit).error != LotsDoNotMatch
  {
    InternalErrorsUnreachable(st, if credit then DoCredit(t) else DoDebit(t));
    hide Inv, Transfer;
  }

  lemma DebitPosts(st: State, t: TransferCommand)
    requires Inv(st)
    ensures Transfer(st, t, false).Posted? <==> DebitAllowed(st, t)
  {
    ControlIsMinusCustomers(st, t.owner);
    BalancesAreLots(st, t.owner);
    EnsureBalances(st, t.owner);
    if Transfer(st, t, false).Rejected? { TransferSound(st, t, false); }
    hide Inv, EnsureAccounts, Take, FefoOrder;
  }

  lemma ReversePosts(st: State, r: ReverseCommand)
    requires Inv(st)
    ensures ReverseTransfer(st, r).Posted? <==> ReverseAllowed(st, r)
  {
    if r.original < |st.txns| {
      ControlIsMinusCustomers(st, st.txns[r.original].owner);
      BalancesAreLots(st, st.txns[r.original].owner);
      EnsureBalances(st, st.txns[r.original].owner);
    }
    InternalErrorsUnreachable(st, DoReverse(r));
    hide Inv, EnsureAccounts, Take, FefoOrder, Sum, Wrap64;
  }

  lemma FreezePosts(st: State, f: FreezeCommand)
    requires Inv(st)
    ensures FreezeAmount(st, f).Posted? <==> FreezeAllowed(st, f)
  {
    EnsureBalances(st, f.owner);
    InternalErrorsUnreachable(st, DoFreeze(f));
    hide Inv, EnsureAccounts, Take, FefoOrder;
  }

  lemma {:induction false} FaultsAreInternal(lots: seq<Lot>, holdLots: seq<HoldLot>, order: seq<nat>, remaining: int,
                                             commit: bool, now: Time, back: int, out: int)
    ensures var r := SettleParts(lots, holdLots, order, remaining, commit, now, back, out);
            r.Fault? ==> r.error.Internal()
    decreases |order|
  {
    if order != [] && remaining != 0 && order[0] < |holdLots| && holdLots[order[0]].lot < |lots| {
      var a := holdLots[order[0]];
      var use := Min(Pending(a), remaining);
      if use == 0 {
        FaultsAreInternal(lots, holdLots, order[1..], remaining, commit, now, back, out);
      } else {
        var goesBack := GoesBack(lots[a.lot], commit, now);
        FaultsAreInternal(lots[a.lot := SettleLot(lots[a.lot], use, commit, now)],
                          holdLots[order[0] := SettlePart(a, use, commit)],
                          order[1..], remaining - use, commit, now,
                          if goesBack then back + use else back, if goesBack then out else out + use);
      }
    }
  }

  lemma SettlementPosts(st: State, h: HoldCommand, hold: Hold, amount: int, action: Action, now: Time)
    requires h.hold < |st.holds|
    ensures var o := PostSettlement(st, h, hold, amount, action, now);
            || (o.Posted? && !KeyUsed(st.txns, h.key))
            || (o.Rejected? && (o.error.Internal() || KeyUsed(st.txns, h.key)))
  {
    FaultsAreInternal(st.lots, st.holdLots, OpenParts(st.holdLots, h.hold), amount, action == Commit, now, 0, 0);
    hide SettleParts, OpenParts, StatusAfter, SettleMoves, KeyUsed;
  }

  lemma SettlePosts(st: State, h: HoldCommand, action: Action, now: Time, cmd: Command)
    requires Inv(st)
    requires (cmd == DoCommit(h, now) && action == Commit) || (cmd == DoRelease(h, now) && action == Release)
             || (cmd == DoExpireHold(h.hold, now) && action == Expire && h == ExpiryOf(h.hold))
    ensures SettleHold(st, h, action, now).Posted? <==> SettleAllowed(st, h, action)
  {
    SettlingIsSound(st, h, action, now, cmd);
    hide Apply, FindTxn, StatusAfter, SettleParts, OpenParts;
    if h.hold < |st.holds| {
      var hold := st.holds[h.hold];
      HoldOk(st, h.hold);
      SettlementPosts(st.(balances := EnsureAccounts(st.balances, hold.owner)), h, hold, ActionAmount(hold, h.amount),
                      action, now);
    }
    hide Inv, EnsureAccounts, PostSettlement;
  }

  lemma SettlingIsSound(st: State, h: HoldCommand, action: Action, now: Time, cmd: Command)
    requires Inv(st)
    requires (cmd == DoCommit(h, now) && action == Commit) || (cmd == DoRelease(h, now) && action == Release)
             || (cmd == DoExpireHold(h.hold, now) && action == Expire && h == ExpiryOf(h.hold))
    ensures SettleHold(st, h, action, now).Rejected? ==> !SettleHold(st, h, action, now).error.Internal()
  {
    InternalErrorsUnreachable(st, cmd);
    hide Inv, SettleHold;
  }

  lemma HoldOk(st: State, hold: nat)
    requires Inv(st) && hold < |st.holds|
    ensures HoldStatusOk(st.holds[hold])
  {
  }

  lemma ExpiryPosts(st: State, lot: nat, now: Time)
    requires Inv(st)
    ensures ExpireLot(st, lot, now).Posted? <==> ExpiryAllowed(st, lot, now)
  {
    InternalErrorsUnreachable(st, DoExpireLot(lot, now));
    hide Inv, EnsureAccounts;
  }

  /** In every state the invariant allows, a command posts exactly when its conditions hold. */
  lemma PostsExactly(st: State, cmd: Command)
    requires Inv(st)
    ensures Apply(st, cmd).Posted? <==> Allowed(st, cmd)
  {
    hide Inv, Transfer, ReverseTransfer, FreezeAmount, SettleHold, ExpireLot, CreditAllowed, DebitAllowed,
      ReverseAllowed,
      FreezeAllowed, SettleAllowed, ExpiryAllowed;
    match cmd
    case DoCredit(t) => CreditPosts(st, t);
    case DoDebit(t) => DebitPosts(st, t);
    case DoReverse(r) => ReversePosts(st, r);
    case DoFreeze(f) => FreezePosts(st, f);
    case DoCommit(h, now) => SettlePosts(st, h, Commit, now, cmd);
    case DoRelease(h, now) => SettlePosts(st, h, Release, now, cmd);
    case DoExpireHold(h, now) => SettlePosts(st, ExpiryOf(h), Expire, now, cmd);
    case DoExpireLot(l, now) => ExpiryPosts(st, l, now);
  }

  /** And among the commands that are otherwise in order, a debit or a freeze is refused for lack of funds exactly when
      the
      customer's available balance is below the amount. */
  lemma RefusedForFunds(st: State, cmd: Command, owner: nat, amount: int)
    requires Inv(st) && (cmd.DoDebit? || cmd.DoFreeze?)
    requires owner == (if cmd.DoDebit? then cmd.transfer.owner else cmd.freeze.owner)
    requires amount == (if cmd.DoDebit? then cmd.transfer.amount else cmd.freeze.amount)
    requires Allowed(FundedFor(st, owner, amount), cmd)
    ensures Apply(st, cmd) == Rejected(InsufficientAvailable) <==> Has(st, owner) < amount
  {
    EnsureBalances(st, owner);
    PostsExactly(st, cmd);
    hide Inv, EnsureAccounts, Take, FefoOrder, PostTransfer;
  }

  /** The same ledger with enough on the balance. */
  function FundedFor(st: State, owner: nat, amount: int): State {
    if Has(st, owner) >= amount then st else st.(balances := st.balances[AvailableRow(owner) := amount])
  }
}
