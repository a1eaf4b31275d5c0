/** The life of a hold, and what a completed hold amounts to. */
module LedgerHolds {
  import opened Sums
  import opened Ordering
  import opened Machine
  import opened LedgerModel
  import opened LedgerLots
  import opened LedgerInvariant
  import opened LedgerSafety

  // ----- life cycle

  function Remainder(h: Hold): int { h.original - h.committed - h.released }

  predicate PartlySettled(a: HoldLot) { Touched(a) && Pending(a) > 0 }

  /** In every run at most one part of a hold is partly settled: a settlement fills the parts in lot order. */
  lemma OnePartlySettled(asset: AssetType, cmds: seq<Command>, j: nat, k: nat)
    requires var parts := Run(Empty(asset), cmds).holdLots;
             && j < |parts| && k < |parts| && parts[j].hold == parts[k].hold && PartlySettled(parts[j])
                && PartlySettled(parts[k])
    ensures j == k
  {
    RunKeepsInv(asset, cmds);
    assert OnePerLot(Run(Empty(asset), cmds).holdLots) && InLotOrder(Run(Empty(asset), cmds).holdLots);
  }

  predicate Settles(cmd: Command, hold: nat) {
    match cmd
    case DoCommit(c, _) => c.hold == hold
    case DoRelease(c, _) => c.hold == hold
    case DoExpireHold(h, _) => h == hold
    case _ => false
  }

  /** No step changes what a hold was for or gives anything back to it, a terminal hold is never touched again,
      and an accepted action on a hold strictly shrinks what is left of it. */
  lemma HoldStep(st: State, cmd: Command, hold: nat)
    requires Core(st) && hold < |st.holds|
    ensures var st' := Next(st, cmd);
            && |st'.holds| >= |st.holds|
            && st'.holds[hold].original == st.holds[hold].original && st'.holds[hold].owner == st.holds[hold].owner
            && st'.holds[hold].committed >= st.holds[hold].committed
               && st'.holds[hold].released >= st.holds[hold].released
            && (Terminal(st.holds[hold].status) ==> st'.holds[hold] == st.holds[hold])
            && (Apply(st, cmd).Posted? && Settles(cmd, hold) ==> Remainder(st'.holds[hold]) < Remainder(st.holds[hold]))
  {
    hide Take, SettleParts, FefoOrder, OpenParts, EnsureAccounts, PostTransfer, Sum, RowsOk, BalancedUpTo, EntriesMatch,
      Covered, UniqueTxns;
    assert HoldStatusOk(st.holds[hold]);
    match cmd
    case DoCredit(t) => PostTransferHolds(st, cmd);
    case DoDebit(t) => PostTransferHolds(st, cmd);
    case DoReverse(r) => PostTransferHolds(st, cmd);
    case DoFreeze(f) =>
    case DoCommit(h, now) =>
    case DoRelease(h, now) =>
    case DoExpireHold(h, now) =>
    case DoExpireLot(l, now) =>
  }

  lemma PostTransferHolds(st: State, cmd: Command)
    requires cmd.DoCredit? || cmd.DoDebit? || cmd.DoReverse?
    ensures Next(st, cmd).holds == st.holds && Next(st, cmd).holdLots == st.holdLots
  {
    hide Take, FefoOrder, EnsureAccounts, Sum;
  }

  /** In any run a terminal hold stays exactly as it is. */
  lemma {:induction false} TerminalIsFinal(st: State, cmds: seq<Command>, hold: nat)
    requires Core(st) && hold < |st.holds| && Terminal(st.holds[hold].status)
    ensures hold < |Run(st, cmds).holds| && Run(st, cmds).holds[hold] == st.holds[hold]
  {
    if cmds != [] {
      TerminalIsFinal(st, cmds[..|cmds| - 1], hold);
      RunKeepsCore(st, cmds[..|cmds| - 1]);
      HoldStep(Run(st, cmds[..|cmds| - 1]), cmds[|cmds| - 1], hold);
    }
  }

  /** In every run a hold's state follows from its totals, and its totals are those of its parts. */
  lemma HoldLifecycle(asset: AssetType, cmds: seq<Command>, hold: nat)
    requires hold < |Run(Empty(asset), cmds).holds|
    ensures var st := Run(Empty(asset), cmds);
            var h := st.holds[hold];
            && (Terminal(h.status) <==> Remainder(h) == 0)
            && (h.status == Committed <==> h.committed == h.original)
            && (h.status == PartiallyCommitted <==> 0 < h.committed && Remainder(h) > 0)
            && (h.status == HoldActive <==> h.committed == 0 && Remainder(h) > 0)
            && h.original == Sum(AmountOf(hold), st.holdLots) && h.committed == Sum(CommittedOf(hold), st.holdLots)
            && h.released == Sum(ReleasedOf(hold), st.holdLots)
  {
    RunKeepsInv(asset, cmds);
    var st := Run(Empty(asset), cmds);
    hide Run, Sum;
    assert HoldStatusOk(st.holds[hold]) && HoldTotals(st.holds[hold], hold, st.holdLots);
    match st.holds[hold].status
    case HoldActive =>
    case PartiallyCommitted =>
    case Committed =>
    case Released =>
    case HoldExpired =>
  }

  // ----- a full commit is a debit, a full release is nothing

  predicate SameAmounts(l: Lot, m: Lot) {
    SameGrant(l, m) && l.available == m.available && l.frozen == m.frozen && l.consumed == m.consumed
        && l.expired == m.expired
  }

  /** Which amounts of a lot a settlement leaves alone. */
  lemma {:induction false} SettleSides(lots: seq<Lot>, holdLots: seq<HoldLot>, order: seq<nat>, remaining: int,
                                       commit: bool, now: Time, back: int, out: int)
    requires SettleParts(lots, holdLots, order, remaining, commit, now, back, out).Settled?
    ensures var r := SettleParts(lots, holdLots, order, remaining, commit, now, back, out);
            && SameShape(lots, r.lots)
            && (commit ==> forall i :: 0 <= i < |lots| ==>
                  r.lots[i].available == lots[i].available && r.lots[i].expired == lots[i].expired)
            && (!commit ==> forall i :: 0 <= i < |lots| ==>
                  && r.lots[i].consumed == lots[i].consumed
                  && (if PastDue(lots[i], now) then r.lots[i].available == lots[i].available
                      else r.lots[i].expired == lots[i].expired && r.lots[i].status == lots[i].status))
    decreases |order|
  {
    if order != [] && remaining != 0 {
      var a := holdLots[order[0]];
      var use := Min(Pending(a), remaining);
      if use == 0 {
        SettleSides(lots, holdLots, order[1..], remaining, commit, now, back, out);
      } else {
        var goesBack := GoesBack(lots[a.lot], commit, now);
        SettleSides(lots[a.lot := SettleLot(lots[a.lot], use, commit, now)],
                    holdLots[order[0] := SettlePart(a, use, commit)],
                    order[1..], remaining - use, commit, now,
                    if goesBack then back + use else back, if goesBack then out else out + use);
      }
    }
  }

  /** Freezing the whole hold and settling all of it brings every lot's frozen amount back to where it was. */
  lemma FrozenReturns(st: State, f: FreezeCommand, cmd: HoldCommand, action: Action, now: Time)
    requires Core(st) && FreezeAmount(st, f).Posted? && cmd.hold == |st.holds|
    requires SettleHold(FreezeAmount(st, f).state, cmd, action, now).Posted?
    requires cmd.amount == 0 || cmd.amount == f.amount
    ensures var st1 := FreezeAmount(st, f).state;
            var st2 := SettleHold(st1, cmd, action, now).state;
            && |st2.lots| == |st.lots| && Core(st1) && Core(st2)
            && forall i :: 0 <= i < |st.lots| ==> st2.lots[i].frozen == st.lots[i].frozen
  {
    hide Take, SettleParts, FefoOrder, OpenParts, EnsureAccounts, Sum, RowsOk, HoldsOk, EntriesMatch, Covered,
      UniqueTxns;
    var h := |st.holds|;
    var st1 := FreezeAmount(st, f).state;
    var st2 := SettleHold(st1, cmd, action, now).state;
    FreezeKeeps(st, f);
    SettleKeeps(st1, cmd, action, now);
    FreezeRows(st.lots, st.holdLots, h, f.owner, f.amount);
    SettleRows(st1.lots, st1.holds, st1.holdLots, h, f.amount, action == Commit, now);
    SettleLeaves(st1.lots, st1.holdLots, h, f.amount, action == Commit, now);
    FullySettled(st2, h);
    OldParts(st);
    assert forall k :: 0 <= k < |st.holdLots| ==> st2.holdLots[k] == st1.holdLots[k];
    forall i: nat | i < |st.lots| ensures st2.lots[i].frozen == st.lots[i].frozen {
      SumOfOldParts(st.holdLots, st2.holdLots, h, i);
      FrozenIsPending(st, i);
      FrozenIsPending(st2, i);
    }
  }

  lemma FrozenIsPending(st: State, i: nat)
    requires Core(st) && i < |st.lots|
    ensures st.lots[i].frozen == Sum(PendingOn(i), st.holdLots)
  {
  }

  lemma OldParts(st: State)
    requires Core(st)
    ensures forall k :: 0 <= k < |st.holdLots| ==> st.holdLots[k].hold < |st.holds|
  {
  }

  lemma SettleLeaves(lots: seq<Lot>, holdLots: seq<HoldLot>, hold: nat, amount: int, commit: bool, now: Time)
    requires RowsOk(lots, holdLots) && amount >= 0
    requires SettleParts(lots, holdLots, OpenParts(holdLots, hold), amount, commit, now, 0, 0).Settled?
    ensures var r := SettleParts(lots, holdLots, OpenParts(holdLots, hold), amount, commit, now, 0, 0);
            && |r.holdLots| == |holdLots|
            && (forall k :: 0 <= k < |holdLots| && holdLots[k].hold != hold ==> r.holdLots[k] == holdLots[k])
            && (forall k :: 0 <= k < |holdLots| ==>
                  r.holdLots[k].hold == holdLots[k].hold && r.holdLots[k].lot == holdLots[k].lot)
  {
    OpenPartsOrder(holdLots, hold);
    SettleShape(lots, holdLots, hold, OpenParts(holdLots, hold), amount, commit, now, 0, 0);
  }

  /** With nothing left of a hold, none of its parts has anything pending. */
  lemma FullySettled(st: State, hold: nat)
    requires Core(st) && hold < |st.holds| && Remainder(st.holds[hold]) == 0
    ensures forall k :: 0 <= k < |st.holdLots| && st.holdLots[k].hold == hold ==> Pending(st.holdLots[k]) == 0
  {
    assert HoldTotals(st.holds[hold], hold, st.holdLots);
    PendingTotal(st.holdLots, hold);
    assert forall k :: 0 <= k < |st.holdLots| ==> PartOk(st.holdLots[k]);
    forall k: nat | k < |st.holdLots| && st.holdLots[k].hold == hold ensures Pending(st.holdLots[k]) == 0 {
      SumAtLeast(PendingOf(hold), st.holdLots, k);
    }
  }

  lemma SumOfOldParts(was: seq<HoldLot>, parts: seq<HoldLot>, hold: nat, lot: nat)
    requires |was| <= |parts| && forall k :: 0 <= k < |was| ==> parts[k] == was[k]
    requires forall k :: |was| <= k < |parts| ==> parts[k].hold == hold
    requires forall k :: 0 <= k < |parts| && parts[k].hold == hold ==> Pending(parts[k]) == 0
    ensures Sum(PendingOn(lot), parts) == Sum(PendingOn(lot), was)
  {
    assert parts[..|was|] == was && parts == parts[..|was|] + parts[|was|..];
    SumAppend(PendingOn(lot), parts[..|was|], parts[|was|..]);
    SumZero(PendingOn(lot), parts[|was|..]);
  }

  /** What greedy taking leaves available does not depend on whether it freezes or consumes. */
  lemma {:induction false} TakeSameAvailable(lots: seq<Lot>, other: seq<Lot>, holdLots: seq<HoldLot>, hold: nat,
                                             order: seq<nat>, remaining: int)
    requires |lots| == |other| && forall i :: 0 <= i < |lots| ==> lots[i].available == other[i].available
    requires forall x: nat :: x in order ==> x < |lots|
    ensures var r, q := Take(lots, holdLots, Some(hold), order, remaining), Take(other, [], None, order, remaining);
            && |r.lots| == |q.lots| == |lots| && forall i :: 0 <= i < |lots| ==>
                 r.lots[i].available == q.lots[i].available
    decreases |order|
  {
    if order != [] && remaining != 0 {
      var i := order[0];
      assert i in order && forall x: nat :: x in order[1..] ==> x in order;
      var use := Min(remaining, lots[i].available);
      if use == 0 {
        TakeSameAvailable(lots, other, holdLots, hold, order[1..], remaining);
      } else {
        TakeSameAvailable(lots[i := TakeOne(lots[i], use, true)], other[i := TakeOne(other[i], use, false)],
                          holdLots + [HoldLot(hold, i, use, 0, 0)], hold, order[1..], remaining - use);
      }
    }
  }

  lemma {:induction false} TakeIgnoresParts(lots: seq<Lot>, holdLots: seq<HoldLot>, order: seq<nat>, remaining: int)
    requires forall x: nat :: x in order ==> x < |lots|
    ensures Take(lots, holdLots, None, order, remaining).lots == Take(lots, [], None, order, remaining).lots
    decreases |order|
  {
    if order != [] && remaining != 0 {
      var i := order[0];
      assert i in order && forall x: nat :: x in order[1..] ==> x in order;
      var use := Min(remaining, lots[i].available);
      TakeIgnoresParts(if use == 0 then lots else lots[i := TakeOne(lots[i], use, false)], holdLots, order[1..],
                       remaining - use);
    }
  }

  /** Equal lots mean equal balances. */
  lemma BalancesFromLots(st: State, st': State)
    requires Inv(st) && Inv(st')
    requires |st.lots| == |st'.lots| && forall i :: 0 <= i < |st.lots| ==> SameAmounts(st.lots[i], st'.lots[i])
    ensures forall row :: Bal(st.balances, row) == Bal(st'.balances, row)
  {
    hide Core;
    forall row ensures Bal(st.balances, row) == Bal(st'.balances, row) {
      var c := if row.account.Customer? then row.account.id else 0;
      RowCases(row);
      BalancesAreLots(st, c);
      BalancesAreLots(st', c);
      SumPointwise(AvailableOf(c), st.lots, st'.lots);
      SumPointwise(FrozenOf(c), st.lots, st'.lots);
      SumPointwise(Outstanding(), st.lots, st'.lots);
      RowBounds(st, BalanceKey(Platform, Frozen));
      PlatformFrozenIsZero(st);
      PlatformFrozenIsZero(st');
    }
  }

  lemma PlatformFrozenIsZero(st: State)
    requires Inv(st)
    ensures Bal(st.balances, BalanceKey(Platform, Frozen)) == 0
  {
    assert Drift(st.balances, st.entries, BalanceKey(Platform, Frozen)) == 0;
  }

  predicate LotsGrow(st: State, st': State) {
    SameShape(st.lots, st'.lots) && LotsOk(st'.lots)
  }

  lemma FreezeLots(st: State, f: FreezeCommand)
    requires Core(st) && FreezeAmount(st, f).Posted?
    ensures var st1 := FreezeAmount(st, f).state;
            && LotsGrow(st, st1)
            && st1.lots == Take(st.lots, st.holdLots, Some(|st.holds|), FefoOrder(st.lots, f.owner), f.amount).lots
            && (forall i | 0 <= i < |st.lots| :: st1.lots[i].expired == st.lots[i].expired
                  && st1.lots[i].consumed == st.lots[i].consumed && st1.lots[i].status == st.lots[i].status)
  {
    TakeShape(st.lots, st.holdLots, Some(|st.holds|), f.owner, FefoOrder(st.lots, f.owner), f.amount);
  }

  lemma SettleLots(st: State, cmd: HoldCommand, action: Action, now: Time)
    requires Core(st) && SettleHold(st, cmd, action, now).Posted?
    ensures var st' := SettleHold(st, cmd, action, now).state;
            && LotsGrow(st, st')
            && (action == Commit ==> forall i :: 0 <= i < |st.lots| ==>
                  st'.lots[i].available == st.lots[i].available && st'.lots[i].expired == st.lots[i].expired)
            && (action != Commit ==> forall i :: 0 <= i < |st.lots| ==>
                  && st'.lots[i].consumed == st.lots[i].consumed
                  && (if PastDue(st.lots[i], now) then st'.lots[i].available == st.lots[i].available
                      else st'.lots[i].expired == st.lots[i].expired && st'.lots[i].status == st.lots[i].status))
  {
    SettleKeeps(st, cmd, action, now);
    hide Core, Take, EnsureAccounts, Sum, SettleParts;
    var hold := st.holds[cmd.hold];
    SettleSides(st.lots, st.holdLots, OpenParts(st.holdLots, cmd.hold), ActionAmount(hold, cmd.amount),
                action == Commit, now, 0, 0);
    CoreLots(SettleHold(st, cmd, action, now).state);
  }

  lemma CoreLots(st: State)
    requires Core(st)
    ensures LotsOk(st.lots)
  {
  }

  lemma DebitLots(st: State, d: TransferCommand)
    requires Core(st) && Transfer(st, d, false).Posted?
    ensures var st' := Transfer(st, d, false).state;
            && LotsGrow(st, st')
            && st'.lots == Take(st.lots, [], None, FefoOrder(st.lots, d.owner), d.amount).lots
            && (forall i :: 0 <= i < |st.lots| ==>
                  st'.lots[i].expired == st.lots[i].expired && st'.lots[i].frozen == st.lots[i].frozen)
  {
    TakeIgnoresParts(st.lots, st.holdLots, FefoOrder(st.lots, d.owner), d.amount);
    TakeShape(st.lots, st.holdLots, None, d.owner, FefoOrder(st.lots, d.owner), d.amount);
  }

  /** Freezing an amount and committing all of it equals debiting it: on every balance and on all four amounts of every
      lot. */
  lemma FreezeCommitIsDebit(st: State, f: FreezeCommand, cmd: HoldCommand, now: Time, d: TransferCommand)
    requires Inv(st) && FreezeAmount(st, f).Posted? && cmd.hold == |st.holds|
             && (cmd.amount == 0 || cmd.amount == f.amount)
    requires SettleHold(FreezeAmount(st, f).state, cmd, Commit, now).Posted?
    requires d.owner == f.owner && d.amount == f.amount && Transfer(st, d, false).Posted?
    ensures var st2 := SettleHold(FreezeAmount(st, f).state, cmd, Commit, now).state;
            var st3 := Transfer(st, d, false).state;
            && |st2.lots| == |st3.lots| && (forall i :: 0 <= i < |st2.lots| ==> SameAmounts(st2.lots[i], st3.lots[i]))
            && (forall row :: Bal(st2.balances, row) == Bal(st3.balances, row))
  {
    hide Core, Projected, FreezeAmount, SettleHold, Transfer, Take, Sum;
    var st1 := FreezeAmount(st, f).state;
    var st2 := SettleHold(st1, cmd, Commit, now).state;
    var st3 := Transfer(st, d, false).state;
    StepKeepsInv(st, DoFreeze(f));
    StepKeepsInv(st1, DoCommit(cmd, now));
    StepKeepsInv(st, DoDebit(d));
    FrozenReturns(st, f, cmd, Commit, now);
    FreezeLots(st, f);
    SettleLots(st1, cmd, Commit, now);
    DebitLots(st, d);
    TakeSameAvailable(st.lots, st.lots, st.holdLots, |st.holds|, FefoOrder(st.lots, f.owner), f.amount);
    BalancesFromLots(st2, st3);
  }

  /** Some lot carrying a part of the hold is past its expiry. */
  ghost predicate HeldLotPastDue(st: State, hold: nat, now: Time) {
    exists k :: 0 <= k < |st.holdLots| && st.holdLots[k].hold == hold
                && st.holdLots[k].lot < |st.lots| && PastDue(st.lots[st.holdLots[k].lot], now)
  }

  /** Freezing an amount and releasing all of it changes no balance and no lot
      exactly when none of the held lots is past its expiry. */
  lemma FreezeReleaseIsIdentity(st: State, f: FreezeCommand, cmd: HoldCommand, now: Time)
    requires Inv(st) && FreezeAmount(st, f).Posted? && cmd.hold == |st.holds|
             && (cmd.amount == 0 || cmd.amount == f.amount)
    requires SettleHold(FreezeAmount(st, f).state, cmd, Release, now).Posted?
    ensures var st1 := FreezeAmount(st, f).state;
            var st2 := SettleHold(st1, cmd, Release, now).state;
            && (st2.lots == st.lots <==> !HeldLotPastDue(st1, cmd.hold, now))
            && (st2.lots == st.lots ==> forall row :: Bal(st2.balances, row) == Bal(st.balances, row))
  {
    hide Core, Projected, FreezeAmount, SettleHold, Transfer, Take, Sum;
    var st1 := FreezeAmount(st, f).state;
    var st2 := SettleHold(st1, cmd, Release, now).state;
    StepKeepsInv(st, DoFreeze(f));
    StepKeepsInv(st1, DoRelease(cmd, now));
    FrozenReturns(st, f, cmd, Release, now);
    FreezeLots(st, f);
    SettleLots(st1, cmd, Release, now);
    if HeldLotPastDue(st1, cmd.hold, now) {
      var k :| 0 <= k < |st1.holdLots| && st1.holdLots[k].hold == cmd.hold && st1.holdLots[k].lot < |st1.lots|
               && PastDue(st1.lots[st1.holdLots[k].lot], now);
      FrozenFromAvailable(st, f, k);
    } else {
      OnlyHeldLotsMove(st, f, cmd, now);
    }
    if st2.lots == st.lots {
      BalancesFromLots(st2, st);
    }
  }

  lemma FreezeParts(st: State, f: FreezeCommand)
    requires Core(st) && FreezeAmount(st, f).Posted?
    ensures NewParts(st.holdLots, FreezeAmount(st, f).state.holdLots, |st.holds|)
  {
    FreezeRows(st.lots, st.holdLots, |st.holds|, f.owner, f.amount);
  }

  /** A lot carrying a part of the new hold has less available than before the freeze. */
  lemma FrozenFromAvailable(st: State, f: FreezeCommand, k: nat)
    requires Core(st) && FreezeAmount(st, f).Posted?
    requires k < |FreezeAmount(st, f).state.holdLots| && FreezeAmount(st, f).state.holdLots[k].hold == |st.holds|
    ensures var st1 := FreezeAmount(st, f).state;
            var lot := st1.holdLots[k].lot;
            lot < |st.lots| && |st1.lots| == |st.lots| && st1.lots[lot].available < st.lots[lot].available
  {
    hide Core, Projected, FreezeAmount, SettleHold, Transfer, Take, Sum, PartOk;
    var st1 := FreezeAmount(st, f).state;
    FreezeKeeps(st, f);
    FreezeLots(st, f);
    FreezeParts(st, f);
    OldParts(st);
    CoreParts(st);
    CoreParts(st1);
    var lot := st1.holdLots[k].lot;
    FrozenIsPending(st, lot);
    FrozenIsPending(st1, lot);
    PendingGrows(st.holdLots, st1.holdLots, |st.holds|, k);
  }

  lemma PendingGrows(was: seq<HoldLot>, parts: seq<HoldLot>, hold: nat, k: nat)
    requires PartsOk(parts) && NewParts(was, parts, hold) && |was| <= k < |parts|
    ensures Sum(PendingOn(parts[k].lot), parts) > Sum(PendingOn(parts[k].lot), was)
  {
    var added := parts[|was|..];
    assert parts == was + added;
    SumAppend(PendingOn(parts[k].lot), was, added);
    SumAtLeast(PendingOn(parts[k].lot), added, k - |was|);
  }

  lemma CoreParts(st: State)
    requires Core(st)
    ensures PartsOk(st.holdLots) && References(st.lots, st.holdLots) && LotsOk(st.lots)
  {
  }

  /** With no held lot past due, every lot ends as it began. */
  lemma OnlyHeldLotsMove(st: State, f: FreezeCommand, cmd: HoldCommand, now: Time)
    requires Inv(st) && FreezeAmount(st, f).Posted? && cmd.hold == |st.holds|
             && (cmd.amount == 0 || cmd.amount == f.amount)
    requires SettleHold(FreezeAmount(st, f).state, cmd, Release, now).Posted?
    requires !HeldLotPastDue(FreezeAmount(st, f).state, cmd.hold, now)
    ensures SettleHold(FreezeAmount(st, f).state, cmd, Release, now).state.lots == st.lots
  {
    hide Core, Projected, FreezeAmount, SettleHold, Transfer, Take, Sum;
    var st1 := FreezeAmount(st, f).state;
    var st2 := SettleHold(st1, cmd, Release, now).state;
    StepKeepsInv(st, DoFreeze(f));
    FrozenReturns(st, f, cmd, Release, now);
    FreezeLots(st, f);
    SettleLots(st1, cmd, Release, now);
    UnheldLots(st1, cmd, Release, now);
    CoreLots(st);
    CoreLots(st2);
    forall i: nat | i < |st.lots| ensures st2.lots[i] == st.lots[i] {
      if PastDue(st1.lots[i], now) {
        assert st2.lots[i] == st1.lots[i];
      }
      assert LotOk(st.lots[i]) && LotOk(st2.lots[i]);
    }
  }

  lemma UnheldLots(st: State, cmd: HoldCommand, action: Action, now: Time)
    requires Core(st) && SettleHold(st, cmd, action, now).Posted?
    ensures forall i: nat :: i < |st.lots| && Unheld(st.holdLots, cmd.hold, i) ==>
              i < |SettleHold(st, cmd, action, now).state.lots|
              && SettleHold(st, cmd, action, now).state.lots[i] == st.lots[i]
  {
    OpenPartsOrder(st.holdLots, cmd.hold);
    SettleShape(st.lots, st.holdLots, cmd.hold, OpenParts(st.holdLots, cmd.hold),
                ActionAmount(st.holds[cmd.hold], cmd.amount), action == Commit, now, 0, 0);
  }
}
