/** What one posting may touch: the frame that row locks have to cover. */
module LedgerFrame {
  import opened Sums
  import opened Ordering
  import opened Machine
  import opened LedgerModel
  import opened LedgerLots
  import opened LedgerInvariant
  import opened LedgerSafety
  import opened LedgerHolds
  import opened LedgerRepair

  /** The customer a command works on; a row decides it for the commands that name a row. */
  function OwnerOf(st: State, cmd: Command): Option<nat> {
    match cmd
    case DoCredit(t) => Some(t.owner)
    case DoDebit(t) => Some(t.owner)
    case DoReverse(r) => if r.original < |st.txns| then Some(st.txns[r.original].owner) else None
    case DoFreeze(f) => Some(f.owner)
    case DoCommit(h, _) => if h.hold < |st.holds| then Some(st.holds[h.hold].owner) else None
    case DoRelease(h, _) => if h.hold < |st.holds| then Some(st.holds[h.hold].owner) else None
    case DoExpireHold(h, _) => if h < |st.holds| then Some(st.holds[h].owner) else None
    case DoExpireLot(l, _) => if l < |st.lots| then Some(st.lots[l].owner) else None
  }

  function HoldOf(cmd: Command): Option<nat> {
    match cmd
    case DoCommit(h, _) => Some(h.hold)
    case DoRelease(h, _) => Some(h.hold)
    case DoExpireHold(h, _) => Some(h)
    case _ => None
  }

  /** The balance rows a command locks. */
  function RowsOf(cmd: Command, owner: nat): set<BalanceKey> {
    match cmd
    case DoFreeze(_) => {AvailableRow(owner), FrozenRow(owner)}
    case DoCommit(_, _) => {AvailableRow(owner), FrozenRow(owner), CONTROL}
    case DoRelease(_, _) => {AvailableRow(owner), FrozenRow(owner), CONTROL}
    case DoExpireHold(_, _) => {AvailableRow(owner), FrozenRow(owner), CONTROL}
    case _ => {AvailableRow(owner), CONTROL}
  }

  predicate BalancesKept(st: State, st': State, rows: set<BalanceKey>) {
    st.balances.Keys <= st'.balances.Keys && forall row :: row in st'.balances && row !in rows ==>
          Bal(st'.balances, row) == Bal(st.balances, row)
  }

  predicate MayChangeLot(st: State, cmd: Command, owner: nat, i: nat)
    requires i < |st.lots|
  {
    && st.lots[i].owner == owner
    && match cmd
       case DoExpireLot(l, _) => i == l
       case _ => HoldOf(cmd).Some? || st.lots[i].available > 0
  }

  predicate LotsKept(st: State, st': State, cmd: Command, owner: nat) {
    && |st.lots| <= |st'.lots|
    && (forall i: nat :: i < |st.lots| ==>
          SameGrant(st.lots[i], st'.lots[i]) && (st'.lots[i] == st.lots[i] || MayChangeLot(st, cmd, owner, i)))
    && (forall i: nat :: |st.lots| <= i < |st'.lots| ==> st'.lots[i].owner == owner)
  }

  predicate PartsKept(st: State, st': State, cmd: Command) {
    && |st.holdLots| <= |st'.holdLots|
    && (forall k: nat :: k < |st.holdLots| ==>
          SamePart(st.holdLots[k], st'.holdLots[k])
          && (st'.holdLots[k] == st.holdLots[k]
              || (HoldOf(cmd).Some? && IsOpenPart(st.holdLots, HoldOf(cmd).value)(k))))
    && (forall k: nat :: |st.holdLots| <= k < |st'.holdLots| ==> st'.holdLots[k].hold >= |st.holds|)
  }

  predicate HoldsKept(st: State, st': State, cmd: Command) {
    && |st.holds| <= |st'.holds|
    && (forall h: nat :: h < |st.holds| ==>
          st'.holds[h].owner == st.holds[h].owner && st'.holds[h].reservation == st.holds[h].reservation
          && (st'.holds[h] == st.holds[h] || HoldOf(cmd) == Some(h)))
  }

  /** At most one transaction is added, and it reverses what the command names. */
  predicate TxnsKept(st: State, st': State, cmd: Command) {
    && |st.txns| <= |st'.txns| <= |st.txns| + 1
    && (forall k: nat :: k < |st.txns| ==> st'.txns[k] == st.txns[k])
    && (forall k: nat :: |st.txns| <= k < |st'.txns| ==>
          st'.txns[k].reversalOf == if cmd.DoReverse? then Some(cmd.reverse.original) else None)
  }

  predicate Frame(st: State, st': State, cmd: Command, owner: nat) {
    && BalancesKept(st, st', RowsOf(cmd, owner)) && LotsKept(st, st', cmd, owner)
    && PartsKept(st, st', cmd) && HoldsKept(st, st', cmd) && TxnsKept(st, st', cmd)
  }

  lemma {:induction false} TakeOnlyOrder(lots: seq<Lot>, holdLots: seq<HoldLot>, hold: Option<nat>, order: seq<nat>,
                                         remaining: int)
    requires forall x: nat :: x in order ==> x < |lots|
    ensures var r := Take(lots, holdLots, hold, order, remaining);
            && |r.lots| == |lots| && (hold.None? ==> r.holdLots == holdLots)
            && forall i: nat :: i < |lots| ==> SameGrant(lots[i], r.lots[i]) && (i in order || r.lots[i] == lots[i])
    decreases |order|
  {
    if order != [] && remaining != 0 {
      var i := order[0];
      assert i in order && order == [i] + order[1..] && forall x: nat :: x in order[1..] ==> x in order;
      var use := Min(remaining, lots[i].available);
      if use == 0 {
        TakeOnlyOrder(lots, holdLots, hold, order[1..], remaining);
      } else {
        TakeOnlyOrder(lots[i := TakeOne(lots[i], use, hold.Some?)],
                      if hold.Some? then holdLots + [HoldLot(hold.value, i, use, 0, 0)] else holdLots, hold, order[1..],
                      remaining - use);
      }
    }
  }

  lemma PostTransferFrame(st: State, t: Transaction, delta: int, expiresAt: Option<Time>, cmd: Command)
    requires PostTransfer(st, t, delta, expiresAt).Posted? && (cmd.DoCredit? || cmd.DoDebit? || cmd.DoReverse?)
    requires t.reversalOf == if cmd.DoReverse? then Some(cmd.reverse.original) else None
    ensures Frame(st, PostTransfer(st, t, delta, expiresAt).state, cmd, t.owner)
  {
    if delta <= 0 {
      TakeOnlyOrder(st.lots, st.holdLots, None, FefoOrder(st.lots, t.owner), -delta);
    }
    hide Take;
  }

  lemma EnsuredFrame(st: State, mid: State, st': State, cmd: Command, owner: nat)
    requires mid == st.(balances := EnsureAccounts(st.balances, owner)) && Frame(mid, st', cmd, owner)
    ensures Frame(st, st', cmd, owner)
  {
    EnsureBalances(st, owner);
    assert st.balances.Keys <= mid.balances.Keys;
    forall row | row in st'.balances && row !in RowsOf(cmd, owner)
      ensures Bal(st'.balances, row) == Bal(st.balances, row)
    {
      assert Bal(mid.balances, row) == Bal(st.balances, row);
    }
    hide EnsureAccounts;
    assert forall i: nat :: i < |st.lots| ==> MayChangeLot(st, cmd, owner, i) == MayChangeLot(mid, cmd, owner, i);
  }

  lemma TransferFrame(st: State, cmd: TransferCommand, credit: bool)
    requires Transfer(st, cmd, credit).Posted?
    ensures Frame(st, Transfer(st, cmd, credit).state, if credit then DoCredit(cmd) else DoDebit(cmd), cmd.owner)
  {
    hide PostTransfer, EnsureAccounts, Frame;
    var action, delta := if credit then Credit else Debit, if credit then cmd.amount else -cmd.amount;
    var mid := st.(balances := EnsureAccounts(st.balances, cmd.owner));
    var t := Transaction(cmd.source, action, cmd.owner, cmd.amount, None, cmd.key, RequestOf(cmd));
    var c := if credit then DoCredit(cmd) else DoDebit(cmd);
    PostTransferFrame(mid, t, delta, cmd.expiresAt, c);
    EnsuredFrame(st, mid, Transfer(st, cmd, credit).state, c, cmd.owner);
  }

  lemma ReverseFrame(st: State, cmd: ReverseCommand)
    requires ReverseTransfer(st, cmd).Posted?
    ensures cmd.original < |st.txns|
    ensures Frame(st, ReverseTransfer(st, cmd).state, DoReverse(cmd), st.txns[cmd.original].owner)
  {
    hide PostTransfer, EnsureAccounts, Frame, Sum;
    var original := st.txns[cmd.original];
    var amount := if cmd.amount == 0 then original.amount else cmd.amount;
    var mid := st.(balances := EnsureAccounts(st.balances, original.owner));
    var t := Transaction(cmd.source, Reverse, original.owner, amount, Some(cmd.original), cmd.key, OtherRequest);
    PostTransferFrame(mid, t, if original.action == Debit then amount else -amount, None, DoReverse(cmd));
    EnsuredFrame(st, mid, ReverseTransfer(st, cmd).state, DoReverse(cmd), original.owner);
  }

  lemma FreezeBalancesKept(st: State, cmd: FreezeCommand)
    requires FreezeAmount(st, cmd).Posted?
    ensures var st' := FreezeAmount(st, cmd).state;
            && BalancesKept(st, st', {AvailableRow(cmd.owner), FrozenRow(cmd.owner)})
            && HoldsKept(st, st', DoFreeze(cmd)) && TxnsKept(st, st', DoFreeze(cmd))
  {
    EnsureBalances(st, cmd.owner);
    hide Take, FefoOrder, FindHold, FindTxn, Validate;
  }

  lemma FreezeRowsKept(st: State, cmd: FreezeCommand)
    requires Core(st) && FreezeAmount(st, cmd).Posted?
    ensures LotsKept(st, FreezeAmount(st, cmd).state, DoFreeze(cmd), cmd.owner)
    ensures PartsKept(st, FreezeAmount(st, cmd).state, DoFreeze(cmd))
  {
    CoreParts(st);
    hide Core, EnsureAccounts, Validate, FindHold, FindTxn, KeyUsed, Take;
    var st', order := FreezeAmount(st, cmd).state, FefoOrder(st.lots, cmd.owner);
    var taken := Take(st.lots, st.holdLots, Some(|st.holds|), order, cmd.amount);
    assert st'.lots == taken.lots && st'.holdLots == taken.holdLots;
    hide FreezeAmount;
    TakeOnlyOrder(st.lots, st.holdLots, Some(|st.holds|), order, cmd.amount);
    TakeParts(st.lots, st.holdLots, |st.holds|, cmd.owner, order, cmd.amount);
    forall k: nat | k < |st.holdLots| ensures st'.holdLots[k] == st.holdLots[k] && PartOk(st.holdLots[k]) {
      assert st'.holdLots[..|st.holdLots|][k] == st.holdLots[k];
    }
  }

  lemma FreezeFrame(st: State, cmd: FreezeCommand)
    requires Core(st) && FreezeAmount(st, cmd).Posted?
    ensures Frame(st, FreezeAmount(st, cmd).state, DoFreeze(cmd), cmd.owner)
  {
    FreezeBalancesKept(st, cmd);
    FreezeRowsKept(st, cmd);
    hide Core, LotsKept, PartsKept, BalancesKept, HoldsKept, TxnsKept, FreezeAmount;
  }

  lemma SettleBalancesKept(st: State, cmd: HoldCommand, action: Action, now: Time, c: Command)
    requires SettleHold(st, cmd, action, now).Posted? && HoldOf(c) == Some(cmd.hold)
    ensures BalancesKept(st, SettleHold(st, cmd, action, now).state, RowsOf(c, st.holds[cmd.hold].owner))
  {
    EnsureBalances(st, st.holds[cmd.hold].owner);
    EnsureKeepsRows(st, st.holds[cmd.hold].owner);
    hide SettleParts, OpenParts, StatusAfter, FindTxn, EnsureAccounts;
  }

  lemma SettleHoldsKept(st: State, cmd: HoldCommand, action: Action, now: Time, c: Command)
    requires SettleHold(st, cmd, action, now).Posted? && HoldOf(c) == Some(cmd.hold)
    ensures HoldsKept(st, SettleHold(st, cmd, action, now).state, c)
            && TxnsKept(st, SettleHold(st, cmd, action, now).state, c)
  {
    hide SettleParts, OpenParts, StatusAfter, FindTxn, EnsureAccounts;
  }

  /** The lots and parts after a settlement are those of its loop. */
  lemma SettledRows(st: State, cmd: HoldCommand, action: Action, now: Time)
    requires SettleHold(st, cmd, action, now).Posted?
    ensures cmd.hold < |st.holds|
    ensures var amount := ActionAmount(st.holds[cmd.hold], cmd.amount);
            var r := SettleParts(st.lots, st.holdLots, OpenParts(st.holdLots, cmd.hold), amount, action == Commit, now,
                                 0, 0);
            && amount > 0 && r.Settled?
            && SettleHold(st, cmd, action, now).state.lots == r.lots
            && SettleHold(st, cmd, action, now).state.holdLots == r.holdLots
  {
    hide SettleParts, OpenParts, EnsureAccounts, StatusAfter, SettleMoves, FindTxn, KeyUsed;
  }

  lemma LotsFollow(st: State, st': State, c: Command, owner: nat, hold: nat)
    requires SameShape(st.lots, st'.lots) && HoldOf(c) == Some(hold) && hold < |st.holds|
             && st.holds[hold].owner == owner
    requires forall i: nat :: i < |st.lots| && Unheld(st.holdLots, hold, i) ==> st'.lots[i] == st.lots[i]
    requires forall k: nat :: k < |st.holdLots| ==>
               st.holdLots[k].lot < |st.lots| && st.holdLots[k].hold < |st.holds|
               && st.lots[st.holdLots[k].lot].owner == st.holds[st.holdLots[k].hold].owner
    ensures LotsKept(st, st', c, owner)
  {
    hide SameGrant;
    forall i: nat | i < |st.lots| ensures st'.lots[i] == st.lots[i] || MayChangeLot(st, c, owner, i) {
      if k :| 0 <= k < |st.holdLots| && st.holdLots[k].hold == hold && st.holdLots[k].lot == i {
        assert st.lots[i].owner == owner;
      }
    }
  }

  lemma PartsFollow(st: State, st': State, c: Command, hold: nat, order: seq<nat>)
    requires |st'.holdLots| == |st.holdLots| && HoldOf(c) == Some(hold)
    requires forall k :: 0 <= k < |st.holdLots| ==> SamePart(st.holdLots[k], st'.holdLots[k])
    requires forall k: nat :: k < |st.holdLots| && k !in order ==> st'.holdLots[k] == st.holdLots[k]
    requires forall k: nat :: k in order ==> k < |st.holdLots| && IsOpenPart(st.holdLots, hold)(k)
    ensures PartsKept(st, st', c)
  {
    hide SamePart;
  }

  lemma SettleRowsKept(st: State, cmd: HoldCommand, action: Action, now: Time, c: Command)
    requires Core(st) && SettleHold(st, cmd, action, now).Posted? && HoldOf(c) == Some(cmd.hold)
    ensures var st' := SettleHold(st, cmd, action, now).state;
            LotsKept(st, st', c, st.holds[cmd.hold].owner) && PartsKept(st, st', c)
  {
    SettledRows(st, cmd, action, now);
    hide SettleHold, SettleParts, OpenParts, Core, SamePart, SameGrant, PartOk, LotOk, PartsOf, References, SameShape,
      Unheld,
      LotsKept, PartsKept, IsOpenPart;
    var st', hold := SettleHold(st, cmd, action, now).state, st.holds[cmd.hold];
    var order := OpenParts(st.holdLots, cmd.hold);
    CoreParts(st);
    OpenPartsOrder(st.holdLots, cmd.hold);
    OpenIds(st.holdLots, cmd.hold);
    PartOwners(st);
    SettleShape(st.lots, st.holdLots, cmd.hold, order, ActionAmount(hold, cmd.amount), action == Commit, now, 0, 0);
    LotsFollow(st, st', c, hold.owner, cmd.hold);
    PartsFollow(st, st', c, cmd.hold, order);
  }

  lemma SettleFrame(st: State, cmd: HoldCommand, action: Action, now: Time, c: Command)
    requires Core(st) && SettleHold(st, cmd, action, now).Posted? && HoldOf(c) == Some(cmd.hold)
    ensures cmd.hold < |st.holds|
    ensures Frame(st, SettleHold(st, cmd, action, now).state, c, st.holds[cmd.hold].owner)
  {
    SettleBalancesKept(st, cmd, action, now, c);
    SettleHoldsKept(st, cmd, action, now, c);
    SettleRowsKept(st, cmd, action, now, c);
    hide Core, LotsKept, PartsKept, BalancesKept, HoldsKept, TxnsKept;
  }

  lemma OpenIds(holdLots: seq<HoldLot>, hold: nat)
    ensures forall k: nat :: k in OpenParts(holdLots, hold) ==> k < |holdLots| && IsOpenPart(holdLots, hold)(k)
  {
  }

  lemma ExpireFrame(st: State, lot: nat, now: Time)
    requires ExpireLot(st, lot, now).Posted?
    ensures lot < |st.lots| && Frame(st, ExpireLot(st, lot, now).state, DoExpireLot(lot, now), st.lots[lot].owner)
  {
    EnsureBalances(st, st.lots[lot].owner);
    StepKeepsRows(st, DoExpireLot(lot, now));
    hide EnsureAccounts, FindTxn;
  }

  /** Every accepted command stays within its owner's rows, its locked balance rows and its own hold. */
  lemma CommandFrame(st: State, cmd: Command)
    requires Core(st) && Apply(st, cmd).Posted?
    ensures OwnerOf(st, cmd).Some? && Frame(st, Next(st, cmd), cmd, OwnerOf(st, cmd).value)
  {
    hide Core, Frame, Transfer, ReverseTransfer, FreezeAmount, SettleHold, ExpireLot;
    match cmd
    case DoCredit(t) => TransferFrame(st, t, true);
    case DoDebit(t) => TransferFrame(st, t, false);
    case DoReverse(r) => ReverseFrame(st, r);
    case DoFreeze(f) => FreezeFrame(st, f);
    case DoCommit(h, now) => SettleFrame(st, h, Commit, now, cmd);
    case DoRelease(h, now) => SettleFrame(st, h, Release, now, cmd);
    case DoExpireHold(h, now) => SettleFrame(st, ExpiryOf(h), Expire, now, cmd);
    case DoExpireLot(l, now) => ExpireFrame(st, l, now);
  }

  lemma PartOwners(st: State)
    requires Core(st)
    ensures forall k: nat :: k < |st.holdLots| ==>
      st.holdLots[k].lot < |st.lots| && st.holdLots[k].hold < |st.holds|
      && st.lots[st.holdLots[k].lot].owner == st.holds[st.holdLots[k].hold].owner
  {
  }
}
