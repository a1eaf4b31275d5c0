/** Which single command takes a balance out of 64 bits, told from the state before it. */
module LedgerOverflow {
  import opened Machine
  import opened Sums
  import opened LedgerModel
  import opened LedgerLots
  import opened LedgerInvariant
  import opened LedgerSafety
  import opened LedgerTouched
  import opened LedgerFrame

  function Available(st: State, c: nat): int { Bal(st.balances, AvailableRow(c)) }

  function Frozen(st: State, c: nat): int { Bal(st.balances, FrozenRow(c)) }

  function Control(st: State): int { Bal(st.balances, CONTROL) }

  /** Everything outstanding is 2^63 and belongs to one customer. */
  predicate HoldsAll(st: State, c: nat) {
    Control(st) == MIN_INT64 && Available(st, c) + Frozen(st, c) == -MIN_INT64
  }

  /** A freeze that empties the available bucket, or a release or hold expiry that empties the frozen bucket without
      reaching a lot past its expiry, of the one customer who holds all that fits below zero. */
  ghost predicate Corner(st: State, cmd: Command) {
    match cmd
    case DoFreeze(f) => HoldsAll(st, f.owner) && f.amount == Available(st, f.owner)
    case DoRelease(h, now) => SettleCorner(st, h, now)
    case DoExpireHold(h, now) => SettleCorner(st, ExpiryOf(h), now)
    case _ => false
  }

  ghost predicate SettleCorner(st: State, cmd: HoldCommand, now: Time) {
    cmd.hold < |st.holds|
    && var hold := st.holds[cmd.hold];
       var amount := ActionAmount(hold, cmd.amount);
       HoldsAll(st, hold.owner) && amount == Frozen(st, hold.owner)
           && NothingDue(st.lots, st.holdLots, cmd.hold, amount, now)
  }

  /** Of a fitting state's successors only the balances of the command's owner can leave 64 bits. */
  lemma OnlyOwnerMatters(st: State, cmd: Command)
    requires Inv(st) && Fits(st) && Apply(st, cmd).Posted?
    ensures OwnerOf(st, cmd).Some?
    ensures var st', c := Next(st, cmd), OwnerOf(st, cmd).value;
            Inv(st') && Control(st') >= MIN_INT64
                && (Fits(st') <==> Available(st', c) <= MAX_INT64 && Frozen(st', c) <= MAX_INT64)
  {
    var st' := Next(st, cmd);
    StepKeepsInv(st, cmd);
    CommandFrame(st, cmd);
    StepControl(st, cmd);
    var c := OwnerOf(st, cmd).value;
    hide Inv, Next, Apply;
    assert InInt64(Control(st));
    forall row | row != AvailableRow(c) && row != FrozenRow(c) ensures InInt64(Bal(st'.balances, row)) {
      RowBounds(st', row);
      assert InInt64(Bal(st.balances, row));
      if row != CONTROL {
        UntouchedRow(st, st', cmd, c, row);
      }
    }
    RowBounds(st', AvailableRow(c));
    RowBounds(st', FrozenRow(c));
  }

  lemma UntouchedRow(st: State, st': State, cmd: Command, c: nat, row: BalanceKey)
    requires Frame(st, st', cmd, c) && row != AvailableRow(c) && row != FrozenRow(c) && row != CONTROL
    ensures Bal(st'.balances, row) == Bal(st.balances, row) || Bal(st'.balances, row) == 0
  {
  }

  lemma TransferEffect(st: State, t: Transaction, delta: int, expiresAt: Option<Time>)
    requires PostTransfer(st, t, delta, expiresAt).Posted?
    ensures var st' := PostTransfer(st, t, delta, expiresAt).state;
            Available(st', t.owner) == Available(st, t.owner) + delta && Frozen(st', t.owner) == Frozen(st, t.owner)
  {
    hide Take, FefoOrder;
  }

  lemma TransferStaysInRange(st: State, t: TransferCommand, credit: bool)
    requires Transfer(st, t, credit).Posted? && InInt64(Available(st, t.owner))
    ensures var st' := Transfer(st, t, credit).state;
            InInt64(Available(st', t.owner)) && Frozen(st', t.owner) == Frozen(st, t.owner)
  {
    hide EnsureAccounts, PostTransfer, FindTxn, KeyUsed;
    EnsureBalances(st, t.owner);
    var delta := if credit then t.amount else -t.amount;
    TransferEffect(st.(balances := EnsureAccounts(st.balances, t.owner)),
                   Transaction(t.source, if credit then Credit else Debit, t.owner, t.amount, None, t.key,
                               RequestOf(t)),
                   delta, t.expiresAt);
  }

  lemma ReverseStaysInRange(st: State, r: ReverseCommand)
    requires ReverseTransfer(st, r).Posted? && r.original < |st.txns|
             && InInt64(Available(st, st.txns[r.original].owner))
    ensures var st', c := ReverseTransfer(st, r).state, st.txns[r.original].owner;
            InInt64(Available(st', c)) && Frozen(st', c) == Frozen(st, c)
  {
    hide EnsureAccounts, PostTransfer, FindTxn, KeyUsed, Sum, Wrap64;
    var original := st.txns[r.original];
    var amount := if r.amount == 0 then original.amount else r.amount;
    EnsureBalances(st, original.owner);
    TransferEffect(st.(balances := EnsureAccounts(st.balances, original.owner)),
                   Transaction(r.source, Reverse, original.owner, amount, Some(r.original), r.key, OtherRequest),
                   if original.action == Debit then amount else -amount, None);
  }

  /** A transfer that passed its check fits. */
  lemma TransfersFit(st: State, cmd: Command)
    requires Inv(st) && Fits(st) && Apply(st, cmd).Posted? && (cmd.DoCredit? || cmd.DoDebit? || cmd.DoReverse?)
    ensures Fits(Next(st, cmd))
  {
    OnlyOwnerMatters(st, cmd);
    var c := OwnerOf(st, cmd).value;
    assert InInt64(Available(st, c)) && InInt64(Frozen(st, c));
    hide Inv, Fits, Transfer, ReverseTransfer;
    match cmd
    case DoCredit(t) => TransferStaysInRange(st, t, true);
    case DoDebit(t) => TransferStaysInRange(st, t, false);
    case DoReverse(r) => ReverseStaysInRange(st, r);
  }

  lemma FreezeEffect(st: State, f: FreezeCommand)
    requires FreezeAmount(st, f).Posted?
    ensures var st' := FreezeAmount(st, f).state;
            && f.amount > 0 && Available(st', f.owner) == Available(st, f.owner) - f.amount
            && Frozen(st', f.owner) == Frozen(st, f.owner) + f.amount && Control(st') == Control(st)
  {
    EnsureBalances(st, f.owner);
    hide EnsureAccounts, Take, FefoOrder, FindTxn, FindHold;
  }

  lemma FreezeOverflows(st: State, f: FreezeCommand)
    requires Inv(st) && Fits(st) && FreezeAmount(st, f).Posted?
    ensures !Fits(Next(st, DoFreeze(f))) <==> Corner(st, DoFreeze(f))
  {
    OnlyOwnerMatters(st, DoFreeze(f));
    FreezeEffect(st, f);
    var st' := Next(st, DoFreeze(f));
    assert InInt64(Available(st, f.owner)) && InInt64(Control(st));
    hide Inv, Fits, FreezeAmount, Available, Frozen, Control;
    BalanceLimits(st, f.owner);
    BalanceLimits(st', f.owner);
  }

  /** Where the released amount went. */
  lemma SettleEffect(st: State, cmd: HoldCommand, action: Action, now: Time)
    requires Core(st) && SettleHold(st, cmd, action, now).Posted?
    ensures cmd.hold < |st.holds|
    ensures var st' := SettleHold(st, cmd, action, now).state;
            var c, amount := st.holds[cmd.hold].owner, ActionAmount(st.holds[cmd.hold], cmd.amount);
            var out := Control(st') - Control(st);
            && amount > 0 && 0 <= out <= amount && Frozen(st', c) == Frozen(st, c) - amount
            && Available(st', c) == Available(st, c) + amount - out
            && (action == Commit ==> out == amount)
            && (action != Commit ==> (out == 0 <==> NothingDue(st.lots, st.holdLots, cmd.hold, amount, now)))
  {
    hide Core, InOrder, NothingDue, EnsureAccounts, SettleParts, OpenParts, FindTxn, StatusAfter, KeyUsed;
    SettledSums(st, cmd, action, now);
    if action != Commit {
      SettledOut(st, cmd, action, now);
    }
    SettledBalances(st, cmd, action, now);
    hide SettleHold;
  }

  lemma SettledBalances(st: State, cmd: HoldCommand, action: Action, now: Time)
    requires SettleHold(st, cmd, action, now).Posted?
    ensures cmd.hold < |st.holds|
    ensures var st', c := SettleHold(st, cmd, action, now).state, st.holds[cmd.hold].owner;
            var amount := ActionAmount(st.holds[cmd.hold], cmd.amount);
            var r := SettleParts(st.lots, st.holdLots, OpenParts(st.holdLots, cmd.hold), amount, action == Commit, now,
                                 0, 0);
            && amount > 0 && r.Settled?
            && Frozen(st', c) == Frozen(st, c) - amount
            && Available(st', c) == Available(st, c) + (if r.back > 0 then r.back else 0)
            && Control(st') == Control(st) + (if r.out > 0 then r.out else 0)
  {
    EnsureBalances(st, st.holds[cmd.hold].owner);
    hide EnsureAccounts, SettleParts, OpenParts, FindTxn, StatusAfter, KeyUsed;
  }

  lemma SettledSums(st: State, cmd: HoldCommand, action: Action, now: Time)
    requires Core(st) && SettleHold(st, cmd, action, now).Posted?
    ensures var amount := ActionAmount(st.holds[cmd.hold], cmd.amount);
            var r := SettleParts(st.lots, st.holdLots, OpenParts(st.holdLots, cmd.hold), amount, action == Commit, now,
                                 0, 0);
            r.Settled? && r.back >= 0 && r.out >= 0 && r.back + r.out == amount && (action == Commit ==> r.back == 0)
  {
    hide RowsOk, HoldsOk, SettleParts, OpenParts, EnsureAccounts, FindTxn, StatusAfter;
    SettleRows(st.lots, st.holds, st.holdLots, cmd.hold, ActionAmount(st.holds[cmd.hold], cmd.amount), action == Commit,
               now);
  }

  lemma SettledOut(st: State, cmd: HoldCommand, action: Action, now: Time)
    requires Core(st) && action != Commit && SettleHold(st, cmd, action, now).Posted?
    ensures var amount := ActionAmount(st.holds[cmd.hold], cmd.amount);
            SettleParts(st.lots, st.holdLots, OpenParts(st.holdLots, cmd.hold), amount, false, now, 0, 0).out == 0
            <==> NothingDue(st.lots, st.holdLots, cmd.hold, amount, now)
  {
    CoreInOrder(st, cmd.hold);
    hide Core, InOrder, NothingDue, OpenParts, EnsureAccounts, FindTxn, StatusAfter, SettleMoves;
    SettleOut(st.lots, st.holdLots, cmd.hold, OpenParts(st.holdLots, cmd.hold),
              ActionAmount(st.holds[cmd.hold], cmd.amount), now, 0, 0);
  }

  lemma SettleIsNext(st: State, cmd: HoldCommand, action: Action, now: Time, c: Command)
    requires SettleHold(st, cmd, action, now).Posted?
    requires (c == DoCommit(cmd, now) && action == Commit) || (c == DoRelease(cmd, now) && action == Release)
             || (c == DoExpireHold(cmd.hold, now) && cmd == ExpiryOf(cmd.hold) && action == Expire)
    ensures Apply(st, c).Posted? && Next(st, c) == SettleHold(st, cmd, action, now).state
    ensures cmd.hold < |st.holds| && OwnerOf(st, c) == Some(st.holds[cmd.hold].owner)
    ensures Corner(st, c) <==> action != Commit && SettleCorner(st, cmd, now)
  {
    hide EnsureAccounts, FindTxn, PostSettlement;
  }

  /** What the owner's balances and the control balance obey before and after. */
  lemma BalanceLimits(st: State, c: nat)
    requires Inv(st)
    ensures 0 <= Available(st, c) && 0 <= Frozen(st, c) && Available(st, c) + Frozen(st, c) <= -Control(st)
  {
    ControlIsMinusCustomers(st, c);
    BalancesAreLots(st, c);
  }

  lemma SettleOverflows(st: State, cmd: HoldCommand, action: Action, now: Time, c: Command)
    requires Inv(st) && Fits(st) && SettleHold(st, cmd, action, now).Posted?
    requires (c == DoCommit(cmd, now) && action == Commit) || (c == DoRelease(cmd, now) && action == Release)
             || (c == DoExpireHold(cmd.hold, now) && cmd == ExpiryOf(cmd.hold) && action == Expire)
    ensures !Fits(Next(st, c)) <==> Corner(st, c)
  {
    SettleIsNext(st, cmd, action, now, c);
    hide Next, Apply, Corner;
    OnlyOwnerMatters(st, c);
    SettleEffect(st, cmd, action, now);
    var st', owner := Next(st, c), st.holds[cmd.hold].owner;
    assert InInt64(Available(st, owner)) && InInt64(Frozen(st, owner)) && InInt64(Control(st));
    hide Inv, Fits, SettleHold, NothingDue, Available, Frozen, Control;
    BalanceLimits(st, owner);
    BalanceLimits(st', owner);
  }

  lemma ExpiryFits(st: State, lot: nat, now: Time)
    requires Inv(st) && Fits(st) && ExpireLot(st, lot, now).Posted?
    ensures Fits(Next(st, DoExpireLot(lot, now)))
  {
    OnlyOwnerMatters(st, DoExpireLot(lot, now));
    EnsureBalances(st, st.lots[lot].owner);
    assert InInt64(Available(st, st.lots[lot].owner)) && InInt64(Frozen(st, st.lots[lot].owner));
    hide Inv, Fits, EnsureAccounts, FindTxn;
  }

  /** From a state whose balances all fit 64 bits, a command takes one out of them exactly in the corner. */
  lemma OverflowsExactly(st: State, cmd: Command)
    requires Inv(st) && Fits(st) && Apply(st, cmd).Posted?
    ensures !Fits(Next(st, cmd)) <==> Corner(st, cmd)
  {
    hide Inv, Fits, Transfer, ReverseTransfer, FreezeAmount, SettleHold, ExpireLot, SettleCorner, Next;
    match cmd
    case DoCredit(_) => TransfersFit(st, cmd);
    case DoDebit(_) => TransfersFit(st, cmd);
    case DoReverse(_) => TransfersFit(st, cmd);
    case DoFreeze(f) => FreezeOverflows(st, f);
    case DoCommit(h, now) => SettleOverflows(st, h, Commit, now, cmd);
    case DoRelease(h, now) => SettleOverflows(st, h, Release, now, cmd);
    case DoExpireHold(h, now) => SettleOverflows(st, ExpiryOf(h), Expire, now, cmd);
    case DoExpireLot(l, now) => ExpiryFits(st, l, now);
  }

  ghost predicate FitsThroughout(asset: AssetType, cmds: seq<Command>) {
    cmds == [] || (FitsThroughout(asset, cmds[..|cmds| - 1]) && Fits(Run(Empty(asset), cmds)))
  }

  ghost predicate AvoidsCorner(asset: AssetType, cmds: seq<Command>) {
    cmds == []
    || var st, last := Run(Empty(asset), cmds[..|cmds| - 1]), cmds[|cmds| - 1];
       AvoidsCorner(asset, cmds[..|cmds| - 1]) && !(Apply(st, last).Posted? && Corner(st, last))
  }

  /** So a run keeps every balance within 64 bits exactly when none of its commands meets the corner. */
  lemma {:induction false} RunFitsExactly(asset: AssetType, cmds: seq<Command>)
    ensures FitsThroughout(asset, cmds) <==> AvoidsCorner(asset, cmds)
    ensures FitsThroughout(asset, cmds) ==> Fits(Run(Empty(asset), cmds))
  {
    hide Apply, Next, Corner, Inv;
    if cmds != [] {
      var was, last := cmds[..|cmds| - 1], cmds[|cmds| - 1];
      RunFitsExactly(asset, was);
      RunKeepsInv(asset, was);
      var st := Run(Empty(asset), was);
      if Apply(st, last).Posted? {
        if Fits(st) { OverflowsExactly(st, last); }
      } else {
        NothingMoves(st, last);
      }
    }
  }

  lemma NothingMoves(st: State, cmd: Command)
    requires !Apply(st, cmd).Posted?
    ensures Next(st, cmd) == st
  {
  }
}
