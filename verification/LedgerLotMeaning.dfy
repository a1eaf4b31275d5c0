/** What a posted command does to a lot, told by the command; and what a customer was given, has spent and lost. */
module LedgerLotMeaning {
  import opened Machine
  import opened Sums
  import opened LedgerModel
  import opened LedgerLots
  import opened LedgerInvariant
  import opened LedgerSafety
  import opened LedgerFrame
  import opened LedgerEntries
  import opened LedgerOverflow
  import opened LedgerMeaning
  import opened LedgerHolds

  // ----- one lot

  /** The command gives the customer a new lot. */
  predicate Gives(st: State, cmd: Command) {
    cmd.DoCredit?
    || (cmd.DoReverse? && cmd.reverse.original < |st.txns| && st.txns[cmd.reverse.original].action == Debit)
  }

  /** The command takes what is available for good. */
  predicate Takes(cmd: Command) { cmd.DoDebit? || cmd.DoReverse? }

  predicate SpentFrom(l: Lot, l': Lot) {
    && l'.consumed - l.consumed == l.available - l'.available >= 0 && l'.frozen == l.frozen && l'.expired == l.expired
    && l'.status == if l'.available != l.available && l'.available == 0 && l'.frozen == 0 then LotConsumed else l.status
  }

  predicate FrozenFrom(l: Lot, l': Lot) {
    l'.frozen - l.frozen == l.available - l'.available >= 0 && l'.consumed == l.consumed && l'.expired == l.expired
    && l'.status == l.status
  }

  predicate CommittedFrom(l: Lot, l': Lot) {
    l'.consumed - l.consumed == l.frozen - l'.frozen >= 0 && l'.available == l.available && l'.expired == l.expired
    && l'.status == l.status
  }

  /** What a release frees returns to available, or expires on a lot past its expiry, which it then marks. */
  predicate ReleasedFrom(l: Lot, l': Lot, now: Time) {
    && l'.consumed == l.consumed && l'.frozen <= l.frozen
    && if PastDue(l, now)
       then l'.expired - l.expired == l.frozen - l'.frozen && l'.available == l.available
            && l'.status == if l'.frozen != l.frozen then LotExpired else l.status
       else l'.available - l.available == l.frozen - l'.frozen && l'.expired == l.expired && l'.status == l.status
  }

  predicate ExpiredFrom(l: Lot, l': Lot) {
    l'.available == 0 && l'.expired == l.expired + l.available && l'.frozen == l.frozen && l'.consumed == l.consumed
    && l'.status == LotExpired
  }

  predicate LotMoves(st: State, cmd: Command, i: nat, l: Lot, l': Lot) {
    && SameGrant(l, l')
    && if Gives(st, cmd) then l' == l
       else match cmd
         case DoCredit(_) => l' == l
         case DoDebit(_) => SpentFrom(l, l')
         case DoReverse(_) => SpentFrom(l, l')
         case DoFreeze(_) => FrozenFrom(l, l')
         case DoCommit(_, _) => CommittedFrom(l, l')
         case DoRelease(_, now) => ReleasedFrom(l, l', now)
         case DoExpireHold(_, now) => ReleasedFrom(l, l', now)
         case DoExpireLot(lot, _) => if i == lot then ExpiredFrom(l, l') else l' == l
  }

  lemma {:induction false} TakeMoves(lots: seq<Lot>, holdLots: seq<HoldLot>, hold: Option<nat>, order: seq<nat>,
                                     remaining: int)
    requires forall x: nat :: x in order ==> x < |lots|
    requires remaining >= 0 && forall i :: 0 <= i < |lots| ==> lots[i].available >= 0
    ensures var r := Take(lots, holdLots, hold, order, remaining);
            && |r.lots| == |lots| && 0 <= r.remaining <= remaining
            && forall i :: 0 <= i < |lots| ==>
                 && SameGrant(lots[i], r.lots[i]) && r.lots[i].available >= 0
                 && if hold.Some? then FrozenFrom(lots[i], r.lots[i]) else SpentFrom(lots[i], r.lots[i])
    decreases |order|
  {
    if order != [] && remaining != 0 {
      var i := order[0];
      assert i in order && order == [i] + order[1..] && forall x: nat :: x in order[1..] ==> x in order;
      var use := Min(remaining, lots[i].available);
      if use == 0 {
        TakeMoves(lots, holdLots, hold, order[1..], remaining);
      } else {
        TakeMoves(lots[i := TakeOne(lots[i], use, hold.Some?)],
                  if hold.Some? then holdLots + [HoldLot(hold.value, i, use, 0, 0)] else holdLots, hold, order[1..],
                  remaining - use);
      }
    }
  }

  lemma {:induction false} SettleMovesLots(lots: seq<Lot>, holdLots: seq<HoldLot>, order: seq<nat>, remaining: int,
                                           commit: bool, now: Time, back: int, out: int)
    requires PartsOk(holdLots) && remaining >= 0
    requires SettleParts(lots, holdLots, order, remaining, commit, now, back, out).Settled?
    ensures var r := SettleParts(lots, holdLots, order, remaining, commit, now, back, out);
            && |r.lots| == |lots|
            && forall i :: 0 <= i < |lots| ==>
                 && SameGrant(lots[i], r.lots[i])
                 && if commit then CommittedFrom(lots[i], r.lots[i]) else ReleasedFrom(lots[i], r.lots[i], now)
    decreases |order|
  {
    if order != [] && remaining != 0 {
      var a := holdLots[order[0]];
      assert PartOk(a);
      var use := Min(Pending(a), remaining);
      if use == 0 {
        SettleMovesLots(lots, holdLots, order[1..], remaining, commit, now, back, out);
      } else {
        var goesBack := GoesBack(lots[a.lot], commit, now);
        SettleMovesLots(lots[a.lot := SettleLot(lots[a.lot], use, commit, now)],
                        holdLots[order[0] := SettlePart(a, use, commit)],
                        order[1..], remaining - use, commit, now,
                        if goesBack then back + use else back, if goesBack then out else out + use);
      }
    }
  }

  /** A posted command moves every lot as its action says, and a giving one adds one lot of exactly what it gives. */
  ghost predicate LotsMove(st: State, cmd: Command, st': State) {
    && |st'.lots| == |st.lots| + (if Gives(st, cmd) then 1 else 0)
    && (forall i :: 0 <= i < |st.lots| ==> LotMoves(st, cmd, i, st.lots[i], st'.lots[i]))
    && (Gives(st, cmd) ==>
          var amount := AmountAsked(st, cmd);
          Some(st'.lots[|st.lots|].owner) == OwnerOf(st, cmd)
          && st'.lots[|st.lots|] == Lot(st'.lots[|st.lots|].owner, |st.txns|, amount, amount, 0, 0, 0,
                                        if cmd.DoCredit? then cmd.transfer.expiresAt else None, LotActive))
  }

  lemma PostTransferMoves(st: State, t: Transaction, delta: int, expiresAt: Option<Time>)
    requires LotsOk(st.lots) && PostTransfer(st, t, delta, expiresAt).Posted?
    ensures var lots := PostTransfer(st, t, delta, expiresAt).state.lots;
            if delta > 0 then lots == st.lots + [Lot(t.owner, |st.txns|, delta, delta, 0, 0, 0, expiresAt, LotActive)]
            else |lots| == |st.lots|
                 && forall i :: 0 <= i < |st.lots| ==> SameGrant(st.lots[i], lots[i]) && SpentFrom(st.lots[i], lots[i])
  {
    if delta <= 0 {
      assert forall i :: 0 <= i < |st.lots| ==> LotOk(st.lots[i]);
      TakeMoves(st.lots, st.holdLots, None, FefoOrder(st.lots, t.owner), -delta);
    }
    hide Take;
  }

  lemma TransferMovesLots(st: State, cmd: TransferCommand, credit: bool)
    requires LotsOk(st.lots) && Transfer(st, cmd, credit).Posted?
    ensures LotsMove(st, if credit then DoCredit(cmd) else DoDebit(cmd), Transfer(st, cmd, credit).state)
  {
    hide PostTransfer, EnsureAccounts, FindTxn, KeyUsed, TransferBlocked;
    PostTransferMoves(st.(balances := EnsureAccounts(st.balances, cmd.owner)),
                      Transaction(cmd.source, if credit then Credit else Debit, cmd.owner, cmd.amount, None, cmd.key,
                                  RequestOf(cmd)),
                      if credit then cmd.amount else -cmd.amount, cmd.expiresAt);
  }

  lemma ReverseMovesLots(st: State, cmd: ReverseCommand)
    requires LotsOk(st.lots) && ReverseTransfer(st, cmd).Posted?
    ensures LotsMove(st, DoReverse(cmd), ReverseTransfer(st, cmd).state)
  {
    hide PostTransfer, EnsureAccounts, FindTxn, KeyUsed, TransferBlocked, Sum, Wrap64;
    var original := st.txns[cmd.original];
    var amount := if cmd.amount == 0 then original.amount else cmd.amount;
    PostTransferMoves(st.(balances := EnsureAccounts(st.balances, original.owner)),
                      Transaction(cmd.source, Reverse, original.owner, amount, Some(cmd.original), cmd.key,
                                  OtherRequest),
                      if original.action == Debit then amount else -amount, None);
  }

  lemma FreezeMovesLots(st: State, f: FreezeCommand)
    requires LotsOk(st.lots) && FreezeAmount(st, f).Posted?
    ensures LotsMove(st, DoFreeze(f), FreezeAmount(st, f).state)
  {
    hide EnsureAccounts, Take, FindTxn, FindHold, KeyUsed;
    assert forall i :: 0 <= i < |st.lots| ==> LotOk(st.lots[i]);
    TakeMoves(st.lots, st.holdLots, Some(|st.holds|), FefoOrder(st.lots, f.owner), f.amount);
  }

  lemma SettleMovesAll(st: State, h: HoldCommand, action: Action, now: Time, cmd: Command)
    requires Core(st) && SettleHold(st, h, action, now).Posted?
    requires (cmd == DoCommit(h, now) && action == Commit) || (cmd == DoRelease(h, now) && action == Release)
             || (cmd == DoExpireHold(h.hold, now) && action == Expire)
    ensures LotsMove(st, cmd, SettleHold(st, h, action, now).state)
  {
    hide RowsOk, HoldsOk, SettleParts, OpenParts, EnsureAccounts, FindTxn, StatusAfter, KeyUsed, SettleMoves;
    assert PartsOk(st.holdLots) by { CoreParts(st); }
    SettleMovesLots(st.lots, st.holdLots, OpenParts(st.holdLots, h.hold), ActionAmount(st.holds[h.hold], h.amount),
                    action == Commit, now, 0, 0);
  }

  lemma CommandMovesLots(st: State, cmd: Command)
    requires Core(st) && Apply(st, cmd).Posted?
    ensures LotsMove(st, cmd, Next(st, cmd))
  {
    CoreParts(st);
    hide Core, LotsMove, Transfer, ReverseTransfer, FreezeAmount, SettleHold;
    match cmd
    case DoCredit(t) => TransferMovesLots(st, t, true);
    case DoDebit(t) => TransferMovesLots(st, t, false);
    case DoReverse(r) => ReverseMovesLots(st, r);
    case DoFreeze(f) => FreezeMovesLots(st, f);
    case DoCommit(h, now) => SettleMovesAll(st, h, Commit, now, cmd);
    case DoRelease(h, now) => SettleMovesAll(st, h, Release, now, cmd);
    case DoExpireHold(h, now) => SettleMovesAll(st, ExpiryOf(h), Expire, now, cmd);
    case DoExpireLot(l, now) => ExpiryMovesLots(st, l, now);
  }

  lemma ExpiryMovesLots(st: State, l: nat, now: Time)
    requires ExpireLot(st, l, now).Posted?
    ensures LotsMove(st, DoExpireLot(l, now), ExpireLot(st, l, now).state)
  {
    hide EnsureAccounts, FindTxn, KeyUsed;
  }

  // ----- what a customer was given and has spent

  function GrantedTo(c: nat): Lot -> int { (l: Lot) => if l.owner == c then l.granted else 0 }

  function ConsumedOf(c: nat): Lot -> int { (l: Lot) => if l.owner == c then l.consumed else 0 }

  function ExpiredOf(c: nat): Lot -> int { (l: Lot) => if l.owner == c then l.expired else 0 }

  predicate Reverses(txns: seq<Transaction>, t: Transaction, action: Action) {
    t.action == Reverse && t.reversalOf.Some? && t.reversalOf.value < |txns|
        && txns[t.reversalOf.value].action == action
  }

  /** What the customer's transactions gave: credits and reversals of debits. */
  function Given(txns: seq<Transaction>, n: nat, c: nat): int
    requires n <= |txns|
  {
    if n == 0 then 0
    else
      var t := txns[n - 1];
      Given(txns, n - 1, c) + if t.owner == c && (t.action == Credit || Reverses(txns, t, Debit)) then t.amount else 0
  }

  /** And what they took for good: debits, commits and reversals of credits. */
  function Used(txns: seq<Transaction>, n: nat, c: nat): int
    requires n <= |txns|
  {
    if n == 0 then 0
    else
      var t := txns[n - 1];
      Used(txns, n - 1, c)
      + if t.owner == c && (t.action == Debit || t.action == Commit || Reverses(txns, t, Credit)) then t.amount else 0
  }

  lemma {:induction false} OlderTotals(txns: seq<Transaction>, txns': seq<Transaction>, n: nat, c: nat)
    requires n <= |txns| <= |txns'| && txns'[..|txns|] == txns
    requires forall k :: 0 <= k < |txns| && txns[k].reversalOf.Some? ==> txns[k].reversalOf.value < |txns|
    ensures Given(txns', n, c) == Given(txns, n, c) && Used(txns', n, c) == Used(txns, n, c)
  {
    if n > 0 {
      OlderTotals(txns, txns', n - 1, c);
      assert txns'[n - 1] == txns'[..|txns|][n - 1];
      if txns[n - 1].reversalOf.Some? {
        assert txns'[txns[n - 1].reversalOf.value] == txns'[..|txns|][txns[n - 1].reversalOf.value];
      }
    }
  }

  ghost predicate Totals(st: State) {
    && (forall k :: 0 <= k < |st.txns| && st.txns[k].reversalOf.Some? ==> st.txns[k].reversalOf.value < |st.txns|)
    && forall c: nat ::
         Sum(GrantedTo(c), st.lots) == Given(st.txns, |st.txns|, c)
             && Sum(ConsumedOf(c), st.lots) == Used(st.txns, |st.txns|, c)
  }

  function Kept(c: nat, commit: bool): Lot -> int {
    (l: Lot) => if l.owner != c then 0 else l.consumed + if commit then l.frozen else l.available
  }

  lemma {:induction false} KeptSum(lots: seq<Lot>, c: nat, commit: bool)
    ensures Sum(Kept(c, commit), lots)
            == Sum(ConsumedOf(c), lots) + if commit then Sum(FrozenOf(c), lots) else Sum(AvailableOf(c), lots)
  {
    if commit { SumSplit(Kept(c, commit), ConsumedOf(c), FrozenOf(c), lots); }
    else { SumSplit(Kept(c, commit), ConsumedOf(c), AvailableOf(c), lots); }
  }

  /** The change of the granted and the consumed total of every customer. */
  lemma StepTotals(st: State, cmd: Command, c: nat)
    requires Inv(st) && AllMean(st) && Apply(st, cmd).Posted? && OwnerOf(st, cmd).Some?
    ensures var st', amount, own := Next(st, cmd), AmountAsked(st, cmd), OwnerOf(st, cmd).value == c;
            && Sum(GrantedTo(c), st'.lots) == Sum(GrantedTo(c), st.lots) + (if own && Gives(st, cmd) then amount else 0)
            && Sum(ConsumedOf(c), st'.lots) == Sum(ConsumedOf(c), st.lots)
               + (if own && !Gives(st, cmd) && (Takes(cmd) || cmd.DoCommit?) then amount else 0)
  {
    var st', n := Next(st, cmd), |st.lots|;
    CommandMovesLots(st, cmd);
    StepKeepsInv(st, cmd);
    var available, frozen, control := CommandAdds(st, cmd);
    BalanceStep(st, cmd, AvailableRow(c));
    BalanceStep(st, cmd, FrozenRow(c));
    BalancesAreLots(st, c);
    BalancesAreLots(st', c);
    hide Inv, AllMean, Apply, Next, AddsEntries, Moved;
    var own := OwnerOf(st, cmd).value == c;
    OwnMoves(st, st', cmd, c, available, frozen, control);
    LotTotals(st, cmd, st', c);
  }

  lemma OwnMoves(st: State, st': State, cmd: Command, c: nat, available: int, frozen: int, control: int)
    requires OwnerOf(st, cmd).Some? && AddsEntries(st, st', OwnerOf(st, cmd).value, available, frozen, control)
    ensures Moved(st'.entries, |st.txns|, AvailableRow(c)) == if OwnerOf(st, cmd).value == c then available else 0
    ensures Moved(st'.entries, |st.txns|, FrozenRow(c)) == if OwnerOf(st, cmd).value == c then frozen else 0
  {
    hide Moved, OwnerOf;
  }

  /** Told from the lots alone. */
  lemma LotTotals(st: State, cmd: Command, st': State, c: nat)
    requires LotsMove(st, cmd, st')
    ensures Sum(GrantedTo(c), st'.lots) == Sum(GrantedTo(c), st.lots)
            + (if Gives(st, cmd) && st'.lots[|st.lots|].owner == c then AmountAsked(st, cmd) else 0)
    ensures if !Gives(st, cmd) && (Takes(cmd) || cmd.DoCommit?)
            then Sum(ConsumedOf(c), st'.lots) - Sum(ConsumedOf(c), st.lots)
                 == if cmd.DoCommit? then Sum(FrozenOf(c), st.lots) - Sum(FrozenOf(c), st'.lots)
                    else Sum(AvailableOf(c), st.lots) - Sum(AvailableOf(c), st'.lots)
            else Sum(ConsumedOf(c), st'.lots) == Sum(ConsumedOf(c), st.lots)
  {
    hide Sum;
    var n := |st.lots|;
    SumPointwise(GrantedTo(c), st.lots, st'.lots[..n]);
    if Gives(st, cmd) {
      assert st'.lots == st'.lots[..n] + [st'.lots[n]];
      SumSnoc(GrantedTo(c), st'.lots[..n], st'.lots[n]);
      SumSnoc(ConsumedOf(c), st'.lots[..n], st'.lots[n]);
      SumPointwise(ConsumedOf(c), st.lots, st'.lots[..n]);
    } else {
      assert st'.lots[..n] == st'.lots;
      if Takes(cmd) || cmd.DoCommit? {
        KeptSum(st.lots, c, cmd.DoCommit?);
        KeptSum(st'.lots, c, cmd.DoCommit?);
        SumPointwise(Kept(c, cmd.DoCommit?), st.lots, st'.lots);
      } else {
        SumPointwise(ConsumedOf(c), st.lots, st'.lots);
      }
    }
  }

  lemma StepKeepsTotals(st: State, cmd: Command)
    requires Inv(st) && AllMean(st) && Totals(st)
    ensures Totals(Next(st, cmd))
  {
    if Apply(st, cmd).Posted? {
      CommandRecords(st, cmd);
      CommandFrame(st, cmd);
      var st', n := Next(st, cmd), |st.txns|;
      StepKeepsMeaning(st, cmd);
      assert Means(st'.txns, st'.entries, n);
      forall c: nat
        ensures Sum(GrantedTo(c), st'.lots) == Given(st'.txns, |st'.txns|, c)
                && Sum(ConsumedOf(c), st'.lots) == Used(st'.txns, |st'.txns|, c)
      {
        StepTotals(st, cmd, c);
        hide Inv, AllMean, Apply, Next, Sum, Frame;
        OlderTotals(st.txns, st'.txns, n, c);
        NewTotals(st, cmd, st', c);
      }
    }
  }

  lemma NewTotals(st: State, cmd: Command, st': State, c: nat)
    requires Records(st, cmd, st') && Means(st'.txns, st'.entries, |st.txns|)
    ensures var amount, own := AmountAsked(st, cmd), OwnerOf(st, cmd) == Some(c);
            && Given(st'.txns, |st'.txns|, c) == Given(st'.txns, |st.txns|, c)
               + (if own && Gives(st, cmd) then amount else 0)
            && Used(st'.txns, |st'.txns|, c) == Used(st'.txns, |st.txns|, c)
               + (if own && !Gives(st, cmd) && (Takes(cmd) || cmd.DoCommit?) then amount else 0)
  {
    hide Moved, OwnerOf, AmountAsked;
    if cmd.DoReverse? {
      assert st'.txns[cmd.reverse.original] == st'.txns[..|st.txns|][cmd.reverse.original];
    }
  }

  /** In every run each customer's lots were granted what credits and reversals of debits gave, and have consumed what
      debits, commits and reversals of credits took; what is neither consumed nor still held has expired. */
  lemma {:induction false} RunTotals(asset: AssetType, cmds: seq<Command>)
    ensures Totals(Run(Empty(asset), cmds))
    ensures forall c: nat ::
              var st := Run(Empty(asset), cmds);
              Sum(ExpiredOf(c), st.lots) == Given(st.txns, |st.txns|, c) - Used(st.txns, |st.txns|, c)
                                            - Bal(st.balances, AvailableRow(c)) - Bal(st.balances, FrozenRow(c))
  {
    var st := Run(Empty(asset), cmds);
    RunKeepsInv(asset, cmds);
    if cmds != [] {
      var was := cmds[..|cmds| - 1];
      RunTotals(asset, was);
      RunKeepsInv(asset, was);
      RunMeans(asset, was);
      StepKeepsTotals(Run(Empty(asset), was), cmds[|cmds| - 1]);
    }
    CoreParts(st);
    hide Inv, Run, Next;
    forall c: nat
      ensures Sum(ExpiredOf(c), st.lots) == Given(st.txns, |st.txns|, c) - Used(st.txns, |st.txns|, c)
                                            - Bal(st.balances, AvailableRow(c)) - Bal(st.balances, FrozenRow(c))
    {
      BalancesAreLots(st, c);
      FourParts(st.lots, c);
    }
  }

  lemma {:induction false} FourParts(lots: seq<Lot>, c: nat)
    requires LotsOk(lots)
    ensures Sum(GrantedTo(c), lots)
            == Sum(AvailableOf(c), lots) + Sum(FrozenOf(c), lots) + Sum(ConsumedOf(c), lots) + Sum(ExpiredOf(c), lots)
  {
    if lots != [] {
      var n := |lots| - 1;
      assert LotOk(lots[n]) && forall i :: 0 <= i < n ==> lots[..n][i] == lots[i];
      FourParts(lots[..n], c);
    }
  }
}
