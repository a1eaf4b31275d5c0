/** The expiry worker's batches: which rows it picks, and what running them in order does. */
module LedgerBatch {
  import opened Sums
  import opened Ordering
  import opened Machine
  import opened LedgerModel
  import opened LedgerLots
  import opened LedgerInvariant
  import opened LedgerSafety
  import opened LedgerHolds
  import opened LedgerExpiry
  import opened LedgerFefo

  datatype Batch = Batch(state: State, processed: nat, error: Option<Error>)

  predicate OpenHold(h: Hold) { h.status == HoldActive || h.status == PartiallyCommitted }

  function IsDueHold(holds: seq<Hold>, now: Time): nat -> bool {
    (i: nat) => i < |holds| && OpenHold(holds[i]) && holds[i].expiresAt.Some? && holds[i].expiresAt.value <= now
  }

  function HoldExpiryBefore(holds: seq<Hold>): (nat, nat) -> bool {
    (a: nat, b: nat) =>
      var ea := if a < |holds| && holds[a].expiresAt.Some? then holds[a].expiresAt.value else 0;
      var eb := if b < |holds| && holds[b].expiresAt.Some? then holds[b].expiresAt.value else 0;
      if ea != eb then ea < eb else a <= b
  }

  /** The holds the expiry worker picks. */
  function DueHolds(holds: seq<Hold>, now: Time): seq<nat> {
    Query(|holds|, IsDueHold(holds, now), HoldExpiryBefore(holds))
  }

  lemma HoldExpiryIsTotal(holds: seq<Hold>)
    ensures TotalOrder(HoldExpiryBefore(holds))
  {
  }

  /** A batch takes the holds that have been due longest. */
  lemma EarliestHoldsFirst(holds: seq<Hold>, now: Time, limit: nat, i: nat, j: nat)
    requires i in Limited(DueHolds(holds, now), limit) && j in DueHolds(holds, now)
             && j !in Limited(DueHolds(holds, now), limit)
    ensures i < |holds| && j < |holds| && holds[i].expiresAt.Some? && holds[j].expiresAt.Some?
            && (holds[i].expiresAt.value < holds[j].expiresAt.value
                || (holds[i].expiresAt == holds[j].expiresAt && i < j))
  {
    HoldExpiryIsTotal(holds);
    assert i in DueHolds(holds, now);
    LimitKeepsFirst(|holds|, IsDueHold(holds, now), HoldExpiryBefore(holds), limit, i, j);
  }

  /** And the lots that have been due longest. */
  lemma EarliestLotsFirst(lots: seq<Lot>, now: Time, limit: nat, i: nat, j: nat)
    requires i in Limited(DueLots(lots, now), limit) && j in DueLots(lots, now)
             && j !in Limited(DueLots(lots, now), limit)
    ensures i < |lots| && j < |lots| && lots[i].expiresAt.Some? && lots[j].expiresAt.Some?
            && (lots[i].expiresAt.value < lots[j].expiresAt.value || (lots[i].expiresAt == lots[j].expiresAt && i < j))
  {
    FefoIsTotal(lots);
    assert i in DueLots(lots, now);
    LimitKeepsFirst(|lots|, IsDueLot(lots, now), ExpiryBefore(lots), limit, i, j);
  }

  /** One transaction per lot, stopping at the first error. */
  function ExpireLots(st: State, ids: seq<nat>, now: Time): Batch
    decreases |ids|
  {
    if ids == [] then Batch(st, 0, None)
    else match ExpireLot(st, ids[0], now)
      case Rejected(error) => Batch(st, 0, Some(error))
      case Posted(st') => var rest := ExpireLots(st', ids[1..], now); rest.(processed := rest.processed + 1)
      case _ => ExpireLots(st, ids[1..], now)
  }

  /** One transaction per hold; a hold in another state is passed over, any other error stops the batch. */
  function ExpireHolds(st: State, ids: seq<nat>, now: Time): Batch
    decreases |ids|
  {
    if ids == [] then Batch(st, 0, None)
    else match SettleHold(st, ExpiryOf(ids[0]), Expire, now)
      case Rejected(error) =>
        if error == HoldStateConflict then ExpireHolds(st, ids[1..], now) else Batch(st, 0, Some(error))
      case Posted(st') => var rest := ExpireHolds(st', ids[1..], now); rest.(processed := rest.processed + 1)
      case _ => var rest := ExpireHolds(st, ids[1..], now); rest.(processed := rest.processed + 1)
  }

  // ----- the keys of the expiry worker

  predicate ClientKey(key: IdempotencyKey) { key.token.Given? }

  /** Callers choose text keys; the keys built from a lot or a hold are the worker's. */
  predicate ClientKeys(cmd: Command) {
    match cmd
    case DoCredit(t) => ClientKey(t.key)
    case DoDebit(t) => ClientKey(t.key)
    case DoReverse(r) => ClientKey(r.key)
    case DoFreeze(f) => ClientKey(f.key)
    case DoCommit(h, _) => ClientKey(h.key)
    case DoRelease(h, _) => ClientKey(h.key)
    case DoExpireHold(_, _) => true
    case DoExpireLot(_, _) => true
  }

  predicate IsHoldExpiry(t: Transaction, hold: nat) {
    t.source == Source(Expiry, HoldId(hold)) && t.action == Expire
  }

  predicate KeyOk(t: Transaction) {
    match t.key.token
    case Given(_) => true
    case LotToken(lot) => IsLotExpiry(t, lot)
    case HoldToken(hold) => IsHoldExpiry(t, hold)
  }

  predicate Ended(holds: seq<Hold>, hold: nat) { hold < |holds| && Terminal(holds[hold].status) }

  ghost predicate ExpiredHoldsEnded(st: State) {
    forall k, hold: nat :: 0 <= k < |st.txns| && IsHoldExpiry(st.txns[k], hold) ==> Ended(st.holds, hold)
  }

  predicate KeysOk(txns: seq<Transaction>) { forall k :: 0 <= k < |txns| ==> KeyOk(txns[k]) }

  /** What the expiry worker relies on, on top of the ledger's invariant. */
  ghost predicate Expirable(st: State, clock: Time) {
    Inv(st) && KeysOk(st.txns) && ExpiredHoldsEnded(st) && ExpiredAreEmpty(st, clock)
  }

  /** At most one transaction is added, with a key of the right kind; an expired hold has ended. */
  ghost predicate KeyStep(st: State, st': State) {
    || st'.txns == st.txns
    || (|st'.txns| == |st.txns| + 1 && (forall k :: 0 <= k < |st.txns| ==> st'.txns[k] == st.txns[k])
        && KeyOk(st'.txns[|st.txns|])
        && forall hold: nat :: IsHoldExpiry(st'.txns[|st.txns|], hold) ==> Ended(st'.holds, hold))
  }

  lemma PlainKeys(st: State, cmd: Command)
    requires ClientKeys(cmd) && !cmd.DoExpireHold?
    ensures KeyStep(st, Next(st, cmd))
  {
    hide Take, SettleParts, FefoOrder, OpenParts, EnsureAccounts, Sum, FindTxn, FindHold;
  }

  lemma HoldExpiryTxn(st: State, hold: nat, now: Time)
    requires SettleHold(st, ExpiryOf(hold), Expire, now).Posted?
    ensures var st' := Next(st, DoExpireHold(hold, now));
            && |st'.txns| == |st.txns| + 1 && (forall k :: 0 <= k < |st.txns| ==> st'.txns[k] == st.txns[k])
            && st'.txns[|st.txns|].source == ExpiryOf(hold).source && st'.txns[|st.txns|].key == ExpiryOf(hold).key
            && st'.txns[|st.txns|].action == Expire
  {
    hide SettleParts, OpenParts, EnsureAccounts, FindTxn, StatusAfter;
  }

  lemma HoldExpiryKeys(st: State, hold: nat, now: Time)
    requires Core(st)
    ensures KeyStep(st, Next(st, DoExpireHold(hold, now)))
  {
    if SettleHold(st, ExpiryOf(hold), Expire, now).Posted? {
      HoldExpiryTxn(st, hold, now);
      DueHoldEnds(st, hold, now);
      assert OnlyEnds(st.holds, Next(st, DoExpireHold(hold, now)).holds, [hold]);
      HoldIsThere(st, hold, now);
    }
    hide Core, SettleHold;
  }

  lemma HoldIsThere(st: State, hold: nat, now: Time)
    requires SettleHold(st, ExpiryOf(hold), Expire, now).Posted?
    ensures hold < |st.holds|
  {
    hide PostSettlement, EnsureAccounts, FindTxn;
  }

  lemma StepKeepsExpirable(st: State, cmd: Command, clock: Time)
    requires Expirable(st, clock) && ClientKeys(cmd) && clock <= TimeOf(cmd, clock)
    ensures Expirable(Next(st, cmd), TimeOf(cmd, clock))
  {
    hide Core, Projected, Next, ExpiredAreEmpty, ExpiryStep, KeyStep, ExpiredHoldsEnded, KeysOk;
    StepKeepsInv(st, cmd);
    StepShrinks(st, cmd, clock);
    StepKeepsEmpty(st, Next(st, cmd), clock, TimeOf(cmd, clock));
    if cmd.DoExpireHold? { HoldExpiryKeys(st, cmd.holdId, cmd.now); } else { PlainKeys(st, cmd); }
    HoldsStayEnded(st, cmd);
    KeyStepKeeps(st, Next(st, cmd));
  }

  lemma KeyStepKeeps(st: State, st': State)
    requires KeyStep(st, st') && KeysOk(st.txns) && ExpiredHoldsEnded(st)
    requires forall hold: nat :: Ended(st.holds, hold) ==> Ended(st'.holds, hold)
    ensures KeysOk(st'.txns) && ExpiredHoldsEnded(st')
  {
    hide KeyOk, Ended;
    forall k, hold: nat | 0 <= k < |st'.txns| && IsHoldExpiry(st'.txns[k], hold) ensures Ended(st'.holds, hold) {
      if k < |st.txns| { assert IsHoldExpiry(st.txns[k], hold); }
    }
  }

  lemma HoldsStayEnded(st: State, cmd: Command)
    requires Core(st)
    ensures forall hold: nat :: Ended(st.holds, hold) ==> Ended(Next(st, cmd).holds, hold)
  {
    forall hold: nat | Ended(st.holds, hold) ensures Ended(Next(st, cmd).holds, hold) {
      HoldStep(st, cmd, hold);
    }
  }

  lemma {:induction false} RunKeepsExpirable(asset: AssetType, cmds: seq<Command>, start: Time)
    requires Monotone(cmds, start) && forall i :: 0 <= i < |cmds| ==> ClientKeys(cmds[i])
    ensures Expirable(Run(Empty(asset), cmds), ClockAfter(cmds, start))
  {
    if cmds == [] {
      EmptyHolds(asset);
    } else {
      hide Expirable, Next;
      var n := |cmds| - 1;
      assert forall i :: 0 <= i < n ==> cmds[..n][..i] == cmds[..i];
      RunKeepsExpirable(asset, cmds[..n], start);
      StepKeepsExpirable(Run(Empty(asset), cmds[..n]), cmds[n], ClockAfter(cmds[..n], start));
    }
  }

  // ----- the worker's batches drain

  lemma DueLotExpires(st: State, lot: nat, now: Time)
    requires Expirable(st, now) && lot < |st.lots| && PastDue(st.lots[lot], now) && st.lots[lot].available > 0
    ensures ExpireLot(st, lot, now).Posted?
  {
    InternalErrorsUnreachable(st, DoExpireLot(lot, now));
    ExpiredBefore(st, now, lot);
    var key := IdempotencyKey(SYSTEM, LotToken(lot));
    assert forall k :: 0 <= k < |st.txns| && st.txns[k].key == key ==>
             KeyOk(st.txns[k]) && IsLotExpiry(st.txns[k], lot);
    assert !EmptyDueLot(st.lots, lot, now);
    hide Core, ExpiredHoldsEnded, EnsureAccounts;
  }

  lemma DistinctTail(ids: seq<nat>)
    requires Distinct(ids) && ids != []
    ensures ids == [ids[0]] + ids[1..] && ids[0] !in ids[1..] && Distinct(ids[1..])
    ensures forall x: nat :: x in ids <==> x == ids[0] || x in ids[1..]
  {
  }

  lemma ExpireHoldsFirst(st: State, ids: seq<nat>, now: Time)
    requires ids != [] && SettleHold(st, ExpiryOf(ids[0]), Expire, now).Posted?
    ensures var rest := ExpireHolds(Next(st, DoExpireHold(ids[0], now)), ids[1..], now);
            ExpireHolds(st, ids, now) == rest.(processed := rest.processed + 1)
  {
    hide SettleHold;
  }

  /** Exactly the listed lots are emptied, the others stay as they are. */
  predicate OnlyExpires(was: seq<Lot>, now: seq<Lot>, ids: seq<nat>) {
    |now| == |was| && forall i: nat :: i < |was| ==> now[i] == if i in ids then ExpiredLot(was[i]) else was[i]
  }

  lemma ExpiresOneMore(was: seq<Lot>, mid: seq<Lot>, now: seq<Lot>, ids: seq<nat>)
    requires ids != [] && ids[0] !in ids[1..] && OnlyExpires(was, mid, [ids[0]]) && OnlyExpires(mid, now, ids[1..])
    ensures OnlyExpires(was, now, ids)
  {
    assert ids == [ids[0]] + ids[1..];
  }

  lemma ExpireLotsFirst(st: State, ids: seq<nat>, now: Time)
    requires ids != [] && ExpireLot(st, ids[0], now).Posted?
    ensures var rest := ExpireLots(Next(st, DoExpireLot(ids[0], now)), ids[1..], now);
            ExpireLots(st, ids, now) == rest.(processed := rest.processed + 1)
  {
    hide ExpireLot;
  }

  lemma LotExpires(st: State, ids: seq<nat>, now: Time)
    requires Expirable(st, now) && Distinct(ids) && ids != []
    requires forall x: nat :: x in ids ==> x < |st.lots| && PastDue(st.lots[x], now) && st.lots[x].available > 0
    ensures ExpireLot(st, ids[0], now).Posted? && ids[0] !in ids[1..]
    ensures var st' := Next(st, DoExpireLot(ids[0], now));
            && Expirable(st', now) && OnlyExpires(st.lots, st'.lots, [ids[0]]) && Distinct(ids[1..])
            && forall x: nat :: x in ids[1..] ==>
                 x < |st'.lots| && PastDue(st'.lots[x], now) && st'.lots[x].available > 0
  {
    hide Expirable, ExpireLot;
    DistinctTail(ids);
    DueLotExpires(st, ids[0], now);
    ExpiresOne(st, ids[0], now);
    StepKeepsExpirable(st, DoExpireLot(ids[0], now), now);
  }

  /** Every lot the worker picked is expired: none fails, and all of them are counted and left empty. */
  lemma {:induction false} ExpireLotsDrains(st: State, ids: seq<nat>, now: Time)
    requires Expirable(st, now) && Distinct(ids)
    requires forall x: nat :: x in ids ==> x < |st.lots| && PastDue(st.lots[x], now) && st.lots[x].available > 0
    ensures var b := ExpireLots(st, ids, now);
            b.error.None? && b.processed == |ids| && Expirable(b.state, now) && OnlyExpires(st.lots, b.state.lots, ids)
    decreases |ids|
  {
    if ids != [] {
      hide Expirable, ExpireLot, ExpireLots, Next, OnlyExpires, Distinct;
      LotExpires(st, ids, now);
      ExpireLotsFirst(st, ids, now);
      var st' := Next(st, DoExpireLot(ids[0], now));
      ExpireLotsDrains(st', ids[1..], now);
      ExpiresOneMore(st.lots, st'.lots, ExpireLots(st', ids[1..], now).state.lots, ids);
    }
  }

  lemma ExpiresOne(st: State, lot: nat, now: Time)
    requires ExpireLot(st, lot, now).Posted?
    ensures lot < |st.lots| && ExpireLot(st, lot, now).state.lots == st.lots[lot := ExpiredLot(st.lots[lot])]
  {
    hide EnsureAccounts;
  }

  /** Exactly the listed holds end, the others stay as they are. */
  predicate OnlyEnds(was: seq<Hold>, now: seq<Hold>, ids: seq<nat>) {
    |now| == |was| && forall h: nat :: h < |was| ==> if h in ids then Ended(now, h) else now[h] == was[h]
  }

  lemma EndsOneMore(was: seq<Hold>, mid: seq<Hold>, now: seq<Hold>, ids: seq<nat>)
    requires ids != [] && OnlyEnds(was, mid, [ids[0]]) && OnlyEnds(mid, now, ids[1..])
    ensures OnlyEnds(was, now, ids)
  {
    assert ids == [ids[0]] + ids[1..];
  }

  lemma NotExpiredBefore(st: State, hold: nat)
    requires KeysOk(st.txns) && ExpiredHoldsEnded(st) && !Ended(st.holds, hold)
    ensures FindTxn(st.txns, ExpiryOf(hold).source, Expire).None? && !KeyUsed(st.txns, ExpiryOf(hold).key)
  {
    var found := FindTxn(st.txns, ExpiryOf(hold).source, Expire);
    assert found.Some? ==> IsHoldExpiry(st.txns[found.value], hold);
    assert forall k :: 0 <= k < |st.txns| && st.txns[k].key == ExpiryOf(hold).key ==>
             KeyOk(st.txns[k]) && IsHoldExpiry(st.txns[k], hold);
  }

  lemma OpenHasRemainder(st: State, hold: nat)
    requires Core(st) && hold < |st.holds| && OpenHold(st.holds[hold])
    ensures Remainder(st.holds[hold]) > 0
  {
    assert HoldStatusOk(st.holds[hold]);
  }

  lemma SettlesRemainder(st: State, hold: nat, now: Time)
    requires Core(st) && hold < |st.holds| && Remainder(st.holds[hold]) > 0
    ensures var r :=
            SettleParts(st.lots, st.holdLots, OpenParts(st.holdLots, hold), Remainder(st.holds[hold]), false, now, 0,
                        0);
            r.Settled? && r.remaining == 0 && r.back + r.out == Remainder(st.holds[hold])
  {
    hide RowsOk, HoldsOk;
    SettleRows(st.lots, st.holds, st.holdLots, hold, Remainder(st.holds[hold]), false, now);
  }

  lemma DueHoldPosts(st: State, hold: nat, now: Time)
    requires Expirable(st, now) && hold < |st.holds| && OpenHold(st.holds[hold])
    ensures SettleHold(st, ExpiryOf(hold), Expire, now).Posted?
  {
    hide Core, Projected, ExpiredAreEmpty, EnsureAccounts, SettleParts, OpenParts, FindTxn, KeyUsed, SettleMoves,
      KeysOk, ExpiredHoldsEnded;
    OpenHasRemainder(st, hold);
    NotExpiredBefore(st, hold);
    InternalErrorsUnreachable(st, DoExpireHold(hold, now));
    SettlesRemainder(st, hold, now);
  }

  lemma SoundCore(st: State, clock: Time)
    requires Expirable(st, clock)
    ensures Core(st)
  {
  }

  lemma DueHoldEnds(st: State, hold: nat, now: Time)
    requires Core(st) && SettleHold(st, ExpiryOf(hold), Expire, now).Posted?
    ensures OnlyEnds(st.holds, Next(st, DoExpireHold(hold, now)).holds, [hold])
  {
    assert HoldStatusOk(st.holds[hold]);
    hide Core, EnsureAccounts, SettleParts, OpenParts, FindTxn;
  }

  /** Every hold the worker picked ends: none fails, and all of them are counted. */
  lemma {:induction false} ExpireHoldsDrains(st: State, ids: seq<nat>, now: Time)
    requires Expirable(st, now) && Distinct(ids)
    requires forall x: nat :: x in ids ==> x < |st.holds| && OpenHold(st.holds[x])
    ensures var b := ExpireHolds(st, ids, now);
            b.error.None? && b.processed == |ids| && Expirable(b.state, now) && OnlyEnds(st.holds, b.state.holds, ids)
    decreases |ids|
  {
    if ids != [] {
      hide Expirable, SettleHold, ExpireHolds, Next, Ended, OnlyEnds, Core;
      HoldExpires(st, ids, now);
      ExpireHoldsFirst(st, ids, now);
      var st' := Next(st, DoExpireHold(ids[0], now));
      ExpireHoldsDrains(st', ids[1..], now);
      EndsOneMore(st.holds, st'.holds, ExpireHolds(st', ids[1..], now).state.holds, ids);
    }
  }

  lemma HoldExpires(st: State, ids: seq<nat>, now: Time)
    requires Expirable(st, now) && Distinct(ids) && ids != []
    requires forall x: nat :: x in ids ==> x < |st.holds| && OpenHold(st.holds[x])
    ensures SettleHold(st, ExpiryOf(ids[0]), Expire, now).Posted?
    ensures var st' := Next(st, DoExpireHold(ids[0], now));
            && Expirable(st', now) && OnlyEnds(st.holds, st'.holds, [ids[0]]) && Distinct(ids[1..])
            && forall x: nat :: x in ids[1..] ==> x < |st'.holds| && OpenHold(st'.holds[x])
  {
    hide Expirable, SettleHold, Next, Core, Ended, OpenHold;
    DistinctTail(ids);
    DueHoldPosts(st, ids[0], now);
    SoundCore(st, now);
    DueHoldEnds(st, ids[0], now);
    StepKeepsExpirable(st, DoExpireHold(ids[0], now), now);
  }

  lemma LimitedPicks(ids: seq<nat>, limit: nat)
    requires Distinct(ids)
    ensures Distinct(Limited(ids, limit)) && forall x: nat :: x in Limited(ids, limit) ==> x in ids
  {
  }

  /** After any run with a clock that never runs backwards, a round of the expiry worker completes without an error:
      it ends every hold it picked and then empties every lot it picked. */
  lemma ExpiryRoundCompletes(asset: AssetType, cmds: seq<Command>, start: Time, limit: nat, now: Time)
    requires Monotone(cmds, start) && (forall i :: 0 <= i < |cmds| ==> ClientKeys(cmds[i]))
             && ClockAfter(cmds, start) <= now
    ensures var st := Run(Empty(asset), cmds);
            var holds := Limited(DueHolds(st.holds, now), limit);
            var b1 := ExpireHolds(st, holds, now);
            var lots := Limited(DueLots(b1.state.lots, now), limit);
            var b2 := ExpireLots(b1.state, lots, now);
            && b1.error.None? && b1.processed == |holds| && (forall h: nat :: h in holds ==> Ended(b1.state.holds, h))
            && b2.error.None? && b2.processed == |lots|
            && (forall i: nat :: i in lots ==> i < |b2.state.lots| && b2.state.lots[i].available == 0)
            && Inv(b2.state)
  {
    RunKeepsExpirable(asset, cmds, start);
    var st := Run(Empty(asset), cmds);
    LaterClock(st, ClockAfter(cmds, start), now);
    var due := DueHolds(st.holds, now);
    LimitedPicks(due, limit);
    ExpireHoldsDrains(st, Limited(due, limit), now);
    var b1 := ExpireHolds(st, Limited(due, limit), now);
    var dueLots := DueLots(b1.state.lots, now);
    LimitedPicks(dueLots, limit);
    ExpireLotsDrains(b1.state, Limited(dueLots, limit), now);
    hide ExpireHolds, ExpireLots, Core;
  }

  lemma LaterClock(st: State, clock: Time, now: Time)
    requires Expirable(st, clock) && clock <= now
    ensures Expirable(st, now)
  {
    forall k, lot: nat | 0 <= k < |st.txns| && IsLotExpiry(st.txns[k], lot) ensures EmptyDueLot(st.lots, lot, now) {
      assert EmptyDueLot(st.lots, lot, clock);
    }
  }
}
