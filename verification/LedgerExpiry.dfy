/** Expiry of lots over time. */
module LedgerExpiry {
  import opened Sums
  import opened Ordering
  import opened Machine
  import opened LedgerModel
  import opened LedgerLots
  import opened LedgerInvariant
  import opened LedgerHolds
  import opened LedgerTouched

  // ----- an expired lot stays empty

  /** The time a command reads, if it reads any. */
  function TimeOf(cmd: Command, clock: Time): Time {
    match cmd
    case DoCommit(_, now) => now
    case DoRelease(_, now) => now
    case DoExpireHold(_, now) => now
    case DoExpireLot(_, now) => now
    case _ => clock
  }

  /** The latest time read so far. */
  function ClockAfter(cmds: seq<Command>, start: Time): Time {
    if cmds == [] then start else TimeOf(cmds[|cmds| - 1], ClockAfter(cmds[..|cmds| - 1], start))
  }

  ghost predicate Monotone(cmds: seq<Command>, start: Time) {
    forall i :: 0 <= i < |cmds| ==> ClockAfter(cmds[..i], start) <= TimeOf(cmds[i], ClockAfter(cmds[..i], start))
  }

  predicate IsLotExpiry(t: Transaction, lot: nat) {
    t.source == Source(Expiry, Id(lot)) && t.action == Expire
  }

  predicate EmptyDueLot(lots: seq<Lot>, lot: nat, clock: Time) {
    lot < |lots| && PastDue(lots[lot], clock) && lots[lot].available == 0
  }

  /** A lot with an expiry posting is past due and has nothing available. */
  ghost predicate ExpiredAreEmpty(st: State, clock: Time) {
    forall k, lot: nat :: 0 <= k < |st.txns| && IsLotExpiry(st.txns[k], lot) ==> EmptyDueLot(st.lots, lot, clock)
  }

  /** Past-due lots only ever lose available amount. */
  ghost predicate DueLotsShrink(st: State, st': State, now: Time) {
    && |st.lots| <= |st'.lots|
    && (forall i :: 0 <= i < |st.lots| ==> SameGrant(st.lots[i], st'.lots[i]))
    && (forall i :: 0 <= i < |st.lots| && PastDue(st.lots[i], now) ==>
        0 <= st'.lots[i].available <= st.lots[i].available)
  }

  lemma PostTransferShrinks(st: State, t: Transaction, delta: int, expiresAt: Option<Time>, now: Time)
    requires LotsOk(st.lots) && PostTransfer(st, t, delta, expiresAt).Posted?
    ensures DueLotsShrink(st, PostTransfer(st, t, delta, expiresAt).state, now)
    ensures PostTransfer(st, t, delta, expiresAt).state.txns == st.txns + [t]
  {
    if delta <= 0 {
      TakeShape(st.lots, st.holdLots, None, t.owner, FefoOrder(st.lots, t.owner), -delta);
    }
  }

  /** Past-due lots shrink, at most one transaction is added, and a lot expiry is added only for a due lot it
      empties. */
  ghost predicate ExpiryStep(st: State, st': State, now: Time) {
    && DueLotsShrink(st, st', now)
    && (st'.txns == st.txns ||
        (|st'.txns| == |st.txns| + 1 && (forall k :: 0 <= k < |st.txns| ==> st'.txns[k] == st.txns[k])
         && forall lot: nat :: IsLotExpiry(st'.txns[|st.txns|], lot) ==> EmptyDueLot(st'.lots, lot, now)))
  }

  lemma TransferShrinks(st: State, cmd: TransferCommand, credit: bool, now: Time)
    requires LotsOk(st.lots) && Transfer(st, cmd, credit).Posted?
    ensures ExpiryStep(st, Transfer(st, cmd, credit).state, now)
  {
    hide PostTransfer;
    var action := if credit then Credit else Debit;
    PostTransferShrinks(st.(balances := EnsureAccounts(st.balances, cmd.owner)),
                        Transaction(cmd.source, action, cmd.owner, cmd.amount, None, cmd.key, RequestOf(cmd)),
                        if credit then cmd.amount else -cmd.amount, cmd.expiresAt, now);
  }

  lemma ReverseShrinks(st: State, cmd: ReverseCommand, now: Time)
    requires LotsOk(st.lots) && ReverseTransfer(st, cmd).Posted?
    ensures ExpiryStep(st, ReverseTransfer(st, cmd).state, now)
  {
    hide PostTransfer;
    var original := st.txns[cmd.original];
    var amount := if cmd.amount == 0 then original.amount else cmd.amount;
    PostTransferShrinks(st.(balances := EnsureAccounts(st.balances, original.owner)),
                        Transaction(cmd.source, Reverse, original.owner, amount, Some(cmd.original), cmd.key,
                                    OtherRequest),
                        if original.action == Debit then amount else -amount, None, now);
  }

  lemma FreezeShrinks(st: State, f: FreezeCommand, now: Time)
    requires LotsOk(st.lots) && FreezeAmount(st, f).Posted?
    ensures ExpiryStep(st, FreezeAmount(st, f).state, now)
  {
    TakeShape(st.lots, st.holdLots, Some(|st.holds|), f.owner, FefoOrder(st.lots, f.owner), f.amount);
  }

  lemma SettleShrinks(st: State, cmd: HoldCommand, action: Action, now: Time)
    requires Core(st) && SettleHold(st, cmd, action, now).Posted?
    requires action == Expire ==> cmd == ExpiryOf(cmd.hold)
    ensures ExpiryStep(st, SettleHold(st, cmd, action, now).state, now)
  {
    CoreLots(st);
    SettleLots(st, cmd, action, now);
    hide Core, SettleParts, OpenParts;
  }

  lemma StepShrinks(st: State, cmd: Command, clock: Time)
    requires Core(st)
    ensures ExpiryStep(st, Next(st, cmd), TimeOf(cmd, clock))
  {
    CoreLots(st);
    hide Core, ExpiryStep, Transfer, ReverseTransfer, FreezeAmount, SettleHold, ExpireLot;
    if Apply(st, cmd).Posted? {
      match cmd
      case DoCredit(t) => TransferShrinks(st, t, true, clock);
      case DoDebit(t) => TransferShrinks(st, t, false, clock);
      case DoReverse(r) => ReverseShrinks(st, r, clock);
      case DoFreeze(f) => FreezeShrinks(st, f, clock);
      case DoCommit(h, now) => SettleShrinks(st, h, Commit, now);
      case DoRelease(h, now) => SettleShrinks(st, h, Release, now);
      case DoExpireHold(h, now) => SettleShrinks(st, ExpiryOf(h), Expire, now);
      case DoExpireLot(l, now) => ExpireShrinks(st, l, now);
    } else {
      NoShrink(st, TimeOf(cmd, clock));
    }
  }

  lemma NoShrink(st: State, now: Time)
    requires LotsOk(st.lots)
    ensures ExpiryStep(st, st, now)
  {
  }

  lemma ExpireShrinks(st: State, lot: nat, now: Time)
    requires LotsOk(st.lots) && ExpireLot(st, lot, now).Posted?
    ensures ExpiryStep(st, ExpireLot(st, lot, now).state, now)
  {
  }

  lemma StepKeepsEmpty(st: State, st': State, clock: Time, now: Time)
    requires ExpiredAreEmpty(st, clock) && clock <= now && ExpiryStep(st, st', now)
    ensures ExpiredAreEmpty(st', now)
  {
    forall k, lot: nat | 0 <= k < |st'.txns| && IsLotExpiry(st'.txns[k], lot)
      ensures EmptyDueLot(st'.lots, lot, now)
    {
      if k < |st.txns| {
        assert st'.txns[k] == st.txns[k] && IsLotExpiry(st.txns[k], lot);
        assert EmptyDueLot(st.lots, lot, clock);
        assert SameGrant(st.lots[lot], st'.lots[lot]);
      } else {
        assert st'.txns != st.txns && k == |st.txns| && IsLotExpiry(st'.txns[|st.txns|], lot);
      }
    }
  }

  /** With a clock that never runs backwards, an expired lot stays empty over every run. */
  lemma {:induction false} ExpiredStayEmpty(asset: AssetType, cmds: seq<Command>, start: Time)
    requires Monotone(cmds, start)
    ensures ExpiredAreEmpty(Run(Empty(asset), cmds), ClockAfter(cmds, start))
  {
    if cmds != [] {
      hide Core, Next, ExpiredAreEmpty, ExpiryStep;
      var n := |cmds| - 1;
      var st, clock := Run(Empty(asset), cmds[..n]), ClockAfter(cmds[..n], start);
      assert forall i :: 0 <= i < n ==> cmds[..n][..i] == cmds[..i];
      ExpiredStayEmpty(asset, cmds[..n], start);
      RunKeepsInv(asset, cmds[..n]);
      StepShrinks(st, cmds[n], clock);
      StepKeepsEmpty(st, Next(st, cmds[n]), clock, TimeOf(cmds[n], clock));
    }
  }

  lemma ExpiredBefore(st: State, clock: Time, lot: nat)
    requires ExpiredAreEmpty(st, clock)
    ensures FindTxn(st.txns, Source(Expiry, Id(lot)), Expire).Some? ==> EmptyDueLot(st.lots, lot, clock)
  {
    var found := FindTxn(st.txns, Source(Expiry, Id(lot)), Expire);
    assert found.Some? ==> IsLotExpiry(st.txns[found.value], lot);
  }

  /** So the posting key (expiry, lot id, expire) never collides: a due lot with something available
      has not been expired before. */
  lemma LotExpiryNeverCollides(asset: AssetType, cmds: seq<Command>, start: Time, lot: nat)
    requires Monotone(cmds, start)
    requires var st := Run(Empty(asset), cmds); lot < |st.lots| && st.lots[lot].available > 0
    ensures FindTxn(Run(Empty(asset), cmds).txns, Source(Expiry, Id(lot)), Expire).None?
  {
    ExpiredStayEmpty(asset, cmds, start);
    ExpiredBefore(Run(Empty(asset), cmds), ClockAfter(cmds, start), lot);
  }

  // ----- the expiry worker's query

  function ExpiryBefore(lots: seq<Lot>): (nat, nat) -> bool { FefoBefore(lots) }

  function IsDueLot(lots: seq<Lot>, now: Time): nat -> bool {
    (i: nat) => i < |lots| && PastDue(lots[i], now) && lots[i].available > 0 && lots[i].status == LotActive
  }

  /** The lots the expiry worker picks. */
  function DueLots(lots: seq<Lot>, now: Time): seq<nat> {
    Query(|lots|, IsDueLot(lots, now), ExpiryBefore(lots))
  }

  /** A past-due lot that still has something available but carries the status `expired`: the worker's query skips
      it. */
  predicate Stranded(l: Lot, now: Time) {
    PastDue(l, now) && l.available > 0 && l.status == LotExpired
  }

  lemma {:induction false} SettleMarks(lots: seq<Lot>, holdLots: seq<HoldLot>, order: seq<nat>, remaining: int,
                                       now: Time, back: int, out: int)
    requires SettleParts(lots, holdLots, order, remaining, false, now, back, out).Settled?
    ensures var r := SettleParts(lots, holdLots, order, remaining, false, now, back, out);
            |r.lots| == |lots| &&
            forall i :: 0 <= i < |lots| && PastDue(lots[i], now) ==>
              && PastDue(r.lots[i], now) && r.lots[i].available == lots[i].available
              && (r.lots[i] == lots[i] || r.lots[i].status == LotExpired)
    decreases |order|
  {
    if order != [] && remaining != 0 {
      var a := holdLots[order[0]];
      var use := Min(Pending(a), remaining);
      if use == 0 {
        SettleMarks(lots, holdLots, order[1..], remaining, now, back, out);
      } else {
        var goesBack := GoesBack(lots[a.lot], false, now);
        SettleMarks(lots[a.lot := SettleLot(lots[a.lot], use, false, now)],
                    holdLots[order[0] := SettlePart(a, use, false)],
                    order[1..], remaining - use, now,
                    if goesBack then back + use else back, if goesBack then out else out + use);
      }
    }
  }

  /** Releasing part of a hold strands a past-due lot exactly when the released amount reaches it (or it carried the
      status already) and it still has something available. */
  lemma ReleaseStrands(st: State, cmd: HoldCommand, action: Action, now: Time, i: nat)
    requires Core(st) && action != Commit && SettleHold(st, cmd, action, now).Posted? && i < |st.lots|
             && PastDue(st.lots[i], now)
    ensures cmd.hold < |st.holds|
    ensures var st' := SettleHold(st, cmd, action, now).state;
            i < |st'.lots| &&
            (Stranded(st'.lots[i], now) <==>
               st.lots[i].available > 0
               && (st.lots[i].status == LotExpired
                   || Touches(st.holdLots, cmd.hold, ActionAmount(st.holds[cmd.hold], cmd.amount), i)))
  {
    SettlementTouches(st, cmd, action, now);
    hide Touches, Core, OpenParts, EnsureAccounts, FindTxn, SettleMoves, StatusAfter;
    SettleMarks(st.lots, st.holdLots, OpenParts(st.holdLots, cmd.hold), ActionAmount(st.holds[cmd.hold], cmd.amount),
                now, 0, 0);
  }

  /** And the expiry of a hold strands exactly those past-due lots with something available on which it has an open
      part. */
  lemma HoldExpiryStrands(st: State, hold: nat, now: Time, i: nat)
    requires Core(st) && SettleHold(st, ExpiryOf(hold), Expire, now).Posted? && i < |st.lots|
             && PastDue(st.lots[i], now)
    ensures var st' := SettleHold(st, ExpiryOf(hold), Expire, now).state;
            i < |st'.lots| &&
            (Stranded(st'.lots[i], now) <==>
               st.lots[i].available > 0
               && (st.lots[i].status == LotExpired
                   || exists k: nat :: k < |st.holdLots| && IsOpenPart(st.holdLots, hold)(k)
                       && st.holdLots[k].lot == i))
  {
    ReleaseStrands(st, ExpiryOf(hold), Expire, now, i);
    hide Core, Touches, SettleHold;
    FullSettlementTouches(st, hold, i);
  }

  // ----- what the worker picks

  /** A lot is marked `consumed` only when nothing of it is left to consume or release. */
  predicate ConsumedIsEmpty(l: Lot) { l.status == LotConsumed ==> l.available == 0 && l.frozen == 0 }

  predicate AllConsumedEmpty(lots: seq<Lot>) { forall i :: 0 <= i < |lots| ==> ConsumedIsEmpty(lots[i]) }

  lemma {:induction false} TakeKeepsConsumed(lots: seq<Lot>, holdLots: seq<HoldLot>, hold: Option<nat>, order: seq<nat>,
                                             remaining: int)
    requires AllConsumedEmpty(lots) && LotsOk(lots) && remaining >= 0 && forall x: nat :: x in order ==> x < |lots|
    ensures AllConsumedEmpty(Take(lots, holdLots, hold, order, remaining).lots)
    decreases |order|
  {
    if order != [] && remaining != 0 {
      var i := order[0];
      assert i in order && forall x: nat :: x in order[1..] ==> x in order;
      var use := Min(remaining, lots[i].available);
      if use == 0 {
        TakeKeepsConsumed(lots, holdLots, hold, order[1..], remaining);
      } else {
        assert ConsumedIsEmpty(lots[i]) && LotOk(lots[i]);
        TakeKeepsConsumed(lots[i := TakeOne(lots[i], use, hold.Some?)],
                          if hold.Some? then holdLots + [HoldLot(hold.value, i, use, 0, 0)] else holdLots, hold,
                          order[1..], remaining - use);
      }
    }
  }

  lemma {:induction false} SettleKeepsConsumed(lots: seq<Lot>, holdLots: seq<HoldLot>, order: seq<nat>, remaining: int,
                                               commit: bool, now: Time, back: int, out: int)
    requires AllConsumedEmpty(lots) && remaining >= 0 && PartsOk(holdLots)
    requires SettleParts(lots, holdLots, order, remaining, commit, now, back, out).Settled?
    ensures AllConsumedEmpty(SettleParts(lots, holdLots, order, remaining, commit, now, back, out).lots)
    decreases |order|
  {
    if order != [] && remaining != 0 {
      var a := holdLots[order[0]];
      assert PartOk(a);
      var use := Min(Pending(a), remaining);
      if use == 0 {
        SettleKeepsConsumed(lots, holdLots, order[1..], remaining, commit, now, back, out);
      } else {
        assert ConsumedIsEmpty(lots[a.lot]);
        var goesBack := GoesBack(lots[a.lot], commit, now);
        SettleKeepsConsumed(lots[a.lot := SettleLot(lots[a.lot], use, commit, now)],
                            holdLots[order[0] := SettlePart(a, use, commit)],
                            order[1..], remaining - use, commit, now,
                            if goesBack then back + use else back, if goesBack then out else out + use);
      }
    }
  }

  lemma PostTransferKeepsConsumed(st: State, t: Transaction, delta: int, expiresAt: Option<Time>)
    requires AllConsumedEmpty(st.lots) && LotsOk(st.lots) && PostTransfer(st, t, delta, expiresAt).Posted?
    ensures AllConsumedEmpty(PostTransfer(st, t, delta, expiresAt).state.lots)
  {
    if delta <= 0 { TakeKeepsConsumed(st.lots, st.holdLots, None, FefoOrder(st.lots, t.owner), -delta); }
    hide Take, FefoOrder;
  }

  lemma SettleHoldKeepsConsumed(st: State, cmd: HoldCommand, action: Action, now: Time)
    requires Core(st) && AllConsumedEmpty(st.lots) && SettleHold(st, cmd, action, now).Posted?
    ensures AllConsumedEmpty(SettleHold(st, cmd, action, now).state.lots)
  {
    CoreParts(st);
    hide Core, EnsureAccounts, FindTxn, OpenParts, SettleMoves, StatusAfter;
    SettleKeepsConsumed(st.lots, st.holdLots, OpenParts(st.holdLots, cmd.hold),
                        ActionAmount(st.holds[cmd.hold], cmd.amount), action == Commit, now, 0, 0);
  }

  lemma TransferKeepsConsumed(st: State, cmd: TransferCommand, credit: bool)
    requires AllConsumedEmpty(st.lots) && LotsOk(st.lots) && Transfer(st, cmd, credit).Posted?
    ensures AllConsumedEmpty(Transfer(st, cmd, credit).state.lots)
  {
    hide PostTransfer, EnsureAccounts, FindTxn, AllConsumedEmpty;
    PostTransferKeepsConsumed(st.(balances := EnsureAccounts(st.balances, cmd.owner)),
                              Transaction(cmd.source, if credit then Credit else Debit, cmd.owner, cmd.amount, None,
                                          cmd.key, RequestOf(cmd)),
                              if credit then cmd.amount else -cmd.amount, cmd.expiresAt);
  }

  lemma ReverseKeepsConsumed(st: State, cmd: ReverseCommand)
    requires AllConsumedEmpty(st.lots) && LotsOk(st.lots) && ReverseTransfer(st, cmd).Posted?
    ensures AllConsumedEmpty(ReverseTransfer(st, cmd).state.lots)
  {
    hide PostTransfer, EnsureAccounts, FindTxn, AllConsumedEmpty, Sum, Wrap64;
    var original := st.txns[cmd.original];
    var amount := if cmd.amount == 0 then original.amount else cmd.amount;
    PostTransferKeepsConsumed(st.(balances := EnsureAccounts(st.balances, original.owner)),
                              Transaction(cmd.source, Reverse, original.owner, amount, Some(cmd.original), cmd.key,
                                          OtherRequest),
                              if original.action == Debit then amount else -amount, None);
  }

  lemma FreezeKeepsConsumed(st: State, f: FreezeCommand)
    requires AllConsumedEmpty(st.lots) && LotsOk(st.lots) && FreezeAmount(st, f).Posted?
    ensures AllConsumedEmpty(FreezeAmount(st, f).state.lots)
  {
    hide EnsureAccounts, FindTxn, FindHold, Take, FefoOrder, AllConsumedEmpty;
    FefoIds(st.lots, f.owner);
    TakeKeepsConsumed(st.lots, st.holdLots, Some(|st.holds|), FefoOrder(st.lots, f.owner), f.amount);
  }

  lemma FefoIds(lots: seq<Lot>, owner: nat)
    ensures forall x: nat :: x in FefoOrder(lots, owner) ==> x < |lots|
  {
  }

  lemma StepKeepsConsumed(st: State, cmd: Command)
    requires Core(st) && AllConsumedEmpty(st.lots)
    ensures AllConsumedEmpty(Next(st, cmd).lots)
  {
    CoreLots(st);
    hide Core, Transfer, ReverseTransfer, FreezeAmount, SettleHold, AllConsumedEmpty;
    if Apply(st, cmd).Posted? {
      match cmd
      case DoCredit(t) => TransferKeepsConsumed(st, t, true);
      case DoDebit(t) => TransferKeepsConsumed(st, t, false);
      case DoReverse(r) => ReverseKeepsConsumed(st, r);
      case DoFreeze(f) => FreezeKeepsConsumed(st, f);
      case DoCommit(h, now) => SettleHoldKeepsConsumed(st, h, Commit, now);
      case DoRelease(h, now) => SettleHoldKeepsConsumed(st, h, Release, now);
      case DoExpireHold(h, now) => SettleHoldKeepsConsumed(st, ExpiryOf(h), Expire, now);
      case DoExpireLot(l, now) =>
        hide EnsureAccounts, FindTxn;
        OneLotKeepsConsumed(st.lots, l);
    }
  }

  lemma OneLotKeepsConsumed(lots: seq<Lot>, lot: nat)
    requires AllConsumedEmpty(lots) && lot < |lots|
    ensures AllConsumedEmpty(lots[lot := ExpiredLot(lots[lot])])
  {
  }

  lemma {:induction false} RunKeepsConsumed(asset: AssetType, cmds: seq<Command>)
    ensures AllConsumedEmpty(Run(Empty(asset), cmds).lots)
  {
    if cmds != [] {
      hide Next, AllConsumedEmpty, Inv;
      RunKeepsConsumed(asset, cmds[..|cmds| - 1]);
      RunHasCore(asset, cmds[..|cmds| - 1]);
      StepKeepsConsumed(Run(Empty(asset), cmds[..|cmds| - 1]), cmds[|cmds| - 1]);
    } else {
      NoLotsConsumed(asset);
    }
  }

  lemma NoLotsConsumed(asset: AssetType)
    ensures AllConsumedEmpty(Empty(asset).lots)
  {
  }

  lemma RunHasCore(asset: AssetType, cmds: seq<Command>)
    ensures Core(Run(Empty(asset), cmds))
  {
    RunKeepsInv(asset, cmds);
  }

  /** In every run the worker picks a past-due lot with something available exactly when it is not stranded. */
  lemma WorkerPicksExactly(asset: AssetType, cmds: seq<Command>, i: nat, now: Time)
    requires var st := Run(Empty(asset), cmds); i < |st.lots| && PastDue(st.lots[i], now) && st.lots[i].available > 0
    ensures var st := Run(Empty(asset), cmds); i in DueLots(st.lots, now) <==> !Stranded(st.lots[i], now)
  {
    RunKeepsConsumed(asset, cmds);
    var st := Run(Empty(asset), cmds);
    assert ConsumedIsEmpty(st.lots[i]);
    hide Run;
    match st.lots[i].status
    case LotActive =>
    case LotConsumed =>
    case LotExpired =>
  }

  // ----- exactly when an expired lot stays empty

  ghost predicate WasExpired(st: State, lot: nat) { exists k :: 0 <= k < |st.txns| && IsLotExpiry(st.txns[k], lot) }

  predicate HasSome(lots: seq<Lot>, lot: nat) { lot < |lots| && lots[lot].available > 0 }

  /** The lot was expired and has something available again: its next expiry collides with the one before. */
  ghost predicate Collides(st: State, lot: nat) { WasExpired(st, lot) && HasSome(st.lots, lot) }

  /** A release or hold expiry that reaches an expired lot and reads a time before the lot's expiry. */
  ghost predicate Rewinds(st: State, cmd: Command, lot: nat) {
    WasExpired(st, lot) && Apply(st, cmd).Posted? && lot < |st.lots| &&
    match cmd
    case DoRelease(h, now) =>
      h.hold < |st.holds| && Touches(st.holdLots, h.hold, ActionAmount(st.holds[h.hold], h.amount), lot)
          && !PastDue(st.lots[lot], now)
    case DoExpireHold(h, now) =>
      h < |st.holds| && Touches(st.holdLots, h, ActionAmount(st.holds[h], 0), lot) && !PastDue(st.lots[lot], now)
    case _ => false
  }

  /** An empty lot only gains something from a release before its expiry that reaches it. */
  lemma ReleaseRefills(st: State, cmd: HoldCommand, action: Action, now: Time, lot: nat)
    requires Core(st) && SettleHold(st, cmd, action, now).Posted? && lot < |st.lots| && st.lots[lot].available == 0
    ensures cmd.hold < |st.holds|
    ensures HasSome(SettleHold(st, cmd, action, now).state.lots, lot)
            <==> && action != Commit && !PastDue(st.lots[lot], now)
                 && Touches(st.holdLots, cmd.hold, ActionAmount(st.holds[cmd.hold], cmd.amount), lot)
  {
    SettlementTouches(st, cmd, action, now);
    SettleLots(st, cmd, action, now);
    CoreLots(st);
    hide Core, Touches, SettleHold;
    var st' := SettleHold(st, cmd, action, now).state;
    assert LotOk(st.lots[lot]) && LotOk(st'.lots[lot]);
  }

  lemma SettleTxn(st: State, cmd: HoldCommand, action: Action, now: Time)
    requires SettleHold(st, cmd, action, now).Posted?
    ensures var st' := SettleHold(st, cmd, action, now).state;
            && |st'.txns| == |st.txns| + 1 && (forall k :: 0 <= k < |st.txns| ==> st'.txns[k] == st.txns[k])
            && st'.txns[|st.txns|].source == cmd.source && st'.txns[|st.txns|].action == action
  {
    hide SettleParts, OpenParts, EnsureAccounts, FindTxn, StatusAfter;
  }

  /** Settling a hold is never a lot expiry. */
  lemma SettleExpiresNone(st: State, cmd: HoldCommand, action: Action, now: Time, lot: nat)
    requires SettleHold(st, cmd, action, now).Posted? && (action == Expire ==> cmd == ExpiryOf(cmd.hold))
    ensures WasExpired(SettleHold(st, cmd, action, now).state, lot) <==> WasExpired(st, lot)
  {
    SettleTxn(st, cmd, action, now);
    var st' := SettleHold(st, cmd, action, now).state;
    hide SettleHold;
    if k :| 0 <= k < |st.txns| && IsLotExpiry(st.txns[k], lot) { assert IsLotExpiry(st'.txns[k], lot); }
    if k :| 0 <= k < |st'.txns| && IsLotExpiry(st'.txns[k], lot) {
      assert k < |st.txns| && IsLotExpiry(st.txns[k], lot);
    }
  }

  /** An expired lot exists and has an expiry. */
  ghost predicate Dated(st: State, lot: nat) { WasExpired(st, lot) ==> lot < |st.lots| && st.lots[lot].expiresAt.Some? }

  lemma SettleCollides(st: State, cmd: HoldCommand, action: Action, now: Time, c: Command, lot: nat)
    requires Core(st) && SettleHold(st, cmd, action, now).Posted? && !Collides(st, lot) && Dated(st, lot)
    requires (c == DoCommit(cmd, now) && action == Commit) || (c == DoRelease(cmd, now) && action == Release)
             || (c == DoExpireHold(cmd.hold, now) && cmd == ExpiryOf(cmd.hold) && action == Expire)
    ensures var st' := SettleHold(st, cmd, action, now).state;
            Dated(st', lot) && (Collides(st', lot) <==> Rewinds(st, c, lot))
  {
    SettleExpiresNone(st, cmd, action, now, lot);
    if WasExpired(st, lot) {
      NotNegative(st, lot);
      ReleaseRefills(st, cmd, action, now, lot);
      SettleLots(st, cmd, action, now);
    }
    hide Core, Touches, SettleHold, WasExpired;
  }

  lemma NotNegative(st: State, lot: nat)
    requires Core(st) && lot < |st.lots|
    ensures st.lots[lot].available >= 0
  {
    CoreLots(st);
    assert LotOk(st.lots[lot]);
  }

  lemma ExpiryCollides(st: State, l: nat, now: Time, lot: nat)
    requires ExpireLot(st, l, now).Posted? && !Collides(st, lot) && Dated(st, lot)
    ensures var st' := ExpireLot(st, l, now).state; Dated(st', lot) && !Collides(st', lot)
  {
    var st' := ExpireLot(st, l, now).state;
    ExpiresLot(st, l, now);
    hide ExpireLot;
    if k :| 0 <= k < |st'.txns| && IsLotExpiry(st'.txns[k], lot) {
      assert k < |st.txns| ==> IsLotExpiry(st.txns[k], lot);
    }
  }

  lemma ExpiresLot(st: State, l: nat, now: Time)
    requires ExpireLot(st, l, now).Posted?
    ensures l < |st.lots| && PastDue(st.lots[l], now)
    ensures var st' := ExpireLot(st, l, now).state;
            && st'.lots == st.lots[l := ExpiredLot(st.lots[l])]
            && |st'.txns| == |st.txns| + 1 && (forall k :: 0 <= k < |st.txns| ==> st'.txns[k] == st.txns[k])
            && st'.txns[|st.txns|].source == Source(Expiry, Id(l))
  {
    hide EnsureAccounts, FindTxn;
  }

  lemma DueLotStaysEmpty(st: State, st': State, lot: nat, clock: Time)
    requires ExpiryStep(st, st', clock) && !Collides(st, lot) && Dated(st, lot)
    requires lot < |st.lots| ==>
               st.lots[lot].available >= 0 && (st.lots[lot].expiresAt.Some? ==> PastDue(st.lots[lot], clock))
    ensures Dated(st', lot) && !Collides(st', lot)
  {
    if k :| 0 <= k < |st'.txns| && IsLotExpiry(st'.txns[k], lot) {
      if k < |st.txns| {
        assert IsLotExpiry(st.txns[k], lot) && SameGrant(st.lots[lot], st'.lots[lot]);
      } else {
        assert EmptyDueLot(st'.lots, lot, clock);
      }
    }
  }

  /** The other commands never refill a lot that is past its expiry. */
  lemma OthersDoNotCollide(st: State, cmd: Command, lot: nat)
    requires Core(st) && !Collides(st, lot) && Dated(st, lot)
    requires cmd.DoCredit? || cmd.DoDebit? || cmd.DoReverse? || cmd.DoFreeze?
    ensures Dated(Next(st, cmd), lot) && !Collides(Next(st, cmd), lot)
  {
    hide Core, Next, ExpiryStep, Collides, Dated;
    var clock := if lot < |st.lots| && st.lots[lot].expiresAt.Some? then st.lots[lot].expiresAt.value else 0;
    StepShrinks(st, cmd, clock);
    if lot < |st.lots| { NotNegative(st, lot); }
    DueLotStaysEmpty(st, Next(st, cmd), lot, clock);
  }

  /** One step makes an expired lot's key collide exactly when it rewinds. */
  lemma StepCollides(st: State, cmd: Command, lot: nat)
    requires Core(st) && !Collides(st, lot) && Dated(st, lot)
    ensures Dated(Next(st, cmd), lot) && (Collides(Next(st, cmd), lot) <==> Rewinds(st, cmd, lot))
  {
    hide Core, Collides, Dated, SettleHold, ExpireLot, Transfer, ReverseTransfer, FreezeAmount;
    if Apply(st, cmd).Posted? {
      match cmd
      case DoCommit(h, now) => SettleCollides(st, h, Commit, now, cmd, lot);
      case DoRelease(h, now) => SettleCollides(st, h, Release, now, cmd, lot);
      case DoExpireHold(h, now) => SettleCollides(st, ExpiryOf(h), Expire, now, cmd, lot);
      case DoExpireLot(l, now) => ExpiryCollides(st, l, now, lot);
      case _ => OthersDoNotCollide(st, cmd, lot);
    }
  }

  ghost predicate NeverCollides(asset: AssetType, cmds: seq<Command>, lot: nat) {
    !Collides(Run(Empty(asset), cmds), lot) && (cmds != [] ==> NeverCollides(asset, cmds[..|cmds| - 1], lot))
  }

  ghost predicate NeverRewinds(asset: AssetType, cmds: seq<Command>, lot: nat) {
    cmds != [] ==>
      NeverRewinds(asset, cmds[..|cmds| - 1], lot)
          && !Rewinds(Run(Empty(asset), cmds[..|cmds| - 1]), cmds[|cmds| - 1], lot)
  }

  /** Over every run, whatever its clock does: an expired lot stays empty, and its posting key free of collisions,
      exactly
      as long as no release or hold expiry that reaches it reads a time before the lot's expiry. */
  lemma {:induction false} CollidesExactly(asset: AssetType, cmds: seq<Command>, lot: nat)
    ensures NeverCollides(asset, cmds, lot) <==> NeverRewinds(asset, cmds, lot)
    ensures NeverCollides(asset, cmds, lot) ==> Dated(Run(Empty(asset), cmds), lot)
  {
    if cmds != [] {
      hide Next, Collides, Dated, Rewinds, Inv;
      var n := |cmds| - 1;
      CollidesExactly(asset, cmds[..n], lot);
      RunHasCore(asset, cmds[..n]);
      if NeverCollides(asset, cmds[..n], lot) {
        StepCollides(Run(Empty(asset), cmds[..n]), cmds[n], lot);
      }
    }
  }
}
