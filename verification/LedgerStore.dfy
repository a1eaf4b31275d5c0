/** The ledger service as it runs: tables updated in place, one database transaction per call.
    Each method is proved to do what its specification in LedgerModel says, with rollback on every error. */
module LedgerStore {
  import opened Sums
  import opened Ordering
  import opened Machine
  import opened LedgerModel
  import opened LedgerRepair
  import opened LedgerExpiry
  import opened LedgerBatch

  datatype Reply = Done | Replay(row: nat) | NothingToDo | Refused(error: Error)

  function ReplyTo(outcome: Outcome): Reply {
    match outcome
    case Posted(_) => Done
    case Replayed(row) => Replay(row)
    case Skipped => NothingToDo
    case Rejected(error) => Refused(error)
  }

  /** The rows a query returned, as they were when it ran. */
  function RowsAt<T>(table: seq<T>, ids: seq<nat>): (rows: seq<T>)
    requires forall x: nat :: x in ids ==> x < |table|
    ensures |rows| == |ids| && forall i :: 0 <= i < |ids| ==> ids[i] < |table| && rows[i] == table[ids[i]]
  {
    assert forall i :: 0 <= i < |ids| ==> ids[i] in ids;
    seq(|ids|, i requires 0 <= i < |ids| => table[ids[i]])
  }

  lemma TakeFirst(lots: seq<Lot>, holdLots: seq<HoldLot>, hold: Option<nat>, id: nat, rest: seq<nat>, remaining: int)
    requires remaining > 0 && id < |lots| && forall x: nat :: x in rest ==> x < |lots|
    ensures var use := Min(remaining, lots[id].available);
            Take(lots, holdLots, hold, [id] + rest, remaining)
            == if use == 0 then Take(lots, holdLots, hold, rest, remaining)
               else Take(lots[id := TakeOne(lots[id], use, hold.Some?)],
                         if hold.Some? then holdLots + [HoldLot(hold.value, id, use, 0, 0)] else holdLots,
                         hold, rest, remaining - use)
  {
    assert ([id] + rest)[1..] == rest;
  }

  lemma TakeEnds(lots: seq<Lot>, holdLots: seq<HoldLot>, hold: Option<nat>, order: seq<nat>, remaining: int)
    requires order == [] || remaining == 0
    requires forall x: nat :: x in order ==> x < |lots|
    ensures Take(lots, holdLots, hold, order, remaining) == Taken(lots, holdLots, remaining)
  {
  }

  lemma SettleAt(lots: seq<Lot>, holdLots: seq<HoldLot>, ids: seq<nat>, i: nat, remaining: int, commit: bool, now: Time,
                 back: int, out: int)
    requires i < |ids| && remaining > 0 && ids[i] < |holdLots| && Pending(holdLots[ids[i]]) > 0
    ensures var a := holdLots[ids[i]];
            var use := Min(Pending(a), remaining);
            SettleParts(lots, holdLots, ids[i..], remaining, commit, now, back, out)
            == if a.lot >= |lots| then Fault(RowMissing)
               else if lots[a.lot].frozen < use then Fault(HoldLotExceedsLot)
               else var goesBack := GoesBack(lots[a.lot], commit, now);
                    SettleParts(lots[a.lot := SettleLot(lots[a.lot], use, commit, now)],
                                holdLots[ids[i] := SettlePart(a, use, commit)],
                                ids[i + 1..], remaining - use, commit, now,
                                if goesBack then back + use else back, if goesBack then out else out + use)
  {
    assert ids[i..][0] == ids[i] && ids[i..][1..] == ids[i + 1..];
  }

  lemma SettleEnds(lots: seq<Lot>, holdLots: seq<HoldLot>, order: seq<nat>, remaining: int, commit: bool, now: Time,
                   back: int, out: int)
    requires order == [] || remaining == 0
    ensures SettleParts(lots, holdLots, order, remaining, commit, now, back, out)
            == Settled(lots, holdLots, remaining, back, out)
  {
  }

  lemma MovesLeaveLots(st: State, lots: seq<Lot>, holdLots: seq<HoldLot>, t: Transaction, owner: nat, amount: int,
                       back: int, out: int)
    ensures SettleMoves(AddTxn(st.(lots := lots, holdLots := holdLots), t), |st.txns|, owner, amount, back, out)
         == SettleMoves(AddTxn(st, t), |st.txns|, owner, amount, back, out).(lots := lots, holdLots := holdLots)
  {
  }

  class Store {
    const asset: AssetType
    var balances: map<BalanceKey, int>
    var lots: seq<Lot>
    var holds: seq<Hold>
    var holdLots: seq<HoldLot>
    var txns: seq<Transaction>
    var entries: seq<Entry>

    function Tables(): State
      reads this
    {
      State(asset, balances, lots, holds, holdLots, txns, entries)
    }

    constructor (asset: AssetType)
      ensures Tables() == Empty(asset)
    {
      this.asset := asset;
      balances, lots, holds, holdLots, txns, entries := map[], [], [], [], [], [];
    }

    method Rollback(to: State)
      requires to.asset == asset
      modifies this
      ensures Tables() == to
    {
      balances, lots, holds, holdLots, txns, entries :=
          to.balances, to.lots, to.holds, to.holdLots, to.txns, to.entries;
    }

    // ----- accounts and balances

    method MakeAccount(account: Account)
      modifies this`balances
      ensures balances
              == EnsureRow(EnsureRow(old(balances), BalanceKey(account, Available)), BalanceKey(account, Frozen))
    {
      if BalanceKey(account, Available) !in balances {
        balances := balances[BalanceKey(account, Available) := 0];
      }
      if BalanceKey(account, Frozen) !in balances {
        balances := balances[BalanceKey(account, Frozen) := 0];
      }
    }

    method MakeAccounts(owner: nat)
      modifies this`balances
      ensures balances == EnsureAccounts(old(balances), owner)
      ensures AvailableRow(owner) in balances && FrozenRow(owner) in balances && CONTROL in balances
    {
      MakeAccount(Customer(owner));
      MakeAccount(Platform);
    }

    method SetBalance(row: BalanceKey, amount: int)
      requires row in balances
      modifies this`balances
      ensures balances == old(balances)[row := amount]
    {
      balances := balances[row := amount];
    }

    // ----- lots

    /** Consumes available amounts first to expire first. */
    method ConsumeLots(owner: nat, amount: int) returns (ok: bool)
      requires amount > 0
      modifies this`lots
      ensures var taken := Take(old(lots), holdLots, None, FefoOrder(old(lots), owner), amount);
              ok == (taken.remaining == 0) && lots == taken.lots
    {
      hide Take;
      var ids := FefoOrder(lots, owner);
      var rows := RowsAt(lots, ids);
      assert ids[0..] == ids && Distinct(ids);
      var remaining := amount;
      var i := 0;
      while i < |ids|
        invariant 0 <= i <= |ids| && |lots| == |old(lots)| && remaining > 0
        invariant forall k :: i <= k < |ids| ==> ids[k] < |lots| && lots[ids[k]] == rows[k]
        invariant Take(lots, holdLots, None, ids[i..], remaining) == Take(old(lots), holdLots, None, ids, amount)
      {
        var lot, id := rows[i], ids[i];
        assert ids[i..] == [id] + ids[i + 1..] && id in ids;
        TakeFirst(lots, holdLots, None, id, ids[i + 1..], remaining);
        i := i + 1;
        var use := Min(remaining, lot.available);
        if use != 0 {
          var status := if lot.available - use == 0 && lot.frozen == 0 then LotConsumed else lot.status;
          lots := lots[id := lots[id].(available := lots[id].available - use,
                                       consumed := lots[id].consumed + use, status := status)];
          remaining := remaining - use;
          if remaining == 0 {
            TakeEnds(lots, holdLots, None, ids[i..], 0);
            return true;
          }
        }
      }
      TakeEnds(lots, holdLots, None, ids[i..], remaining);
      return false;
    }

    /** Moves available to frozen lot by lot and collects the parts of the new hold. */
    method FreezeLots(owner: nat, hold: nat, amount: int) returns (parts: seq<HoldLot>, remaining: int)
      requires amount > 0
      modifies this`lots
      ensures var taken := Take(old(lots), holdLots, Some(hold), FefoOrder(old(lots), owner), amount);
              lots == taken.lots && holdLots + parts == taken.holdLots && remaining == taken.remaining
    {
      hide Take;
      var ids := FefoOrder(lots, owner);
      var rows := RowsAt(lots, ids);
      assert ids[0..] == ids && Distinct(ids);
      remaining := amount;
      parts := [];
      assert holdLots + parts == holdLots;
      var i := 0;
      while i < |ids|
        invariant 0 <= i <= |ids| && |lots| == |old(lots)| && remaining > 0
        invariant forall k :: i <= k < |ids| ==> ids[k] < |lots| && lots[ids[k]] == rows[k]
        invariant Take(lots, holdLots + parts, Some(hold), ids[i..], remaining)
               == Take(old(lots), holdLots, Some(hold), ids, amount)
      {
        var lot, id := rows[i], ids[i];
        assert ids[i..] == [id] + ids[i + 1..] && id in ids;
        TakeFirst(lots, holdLots + parts, Some(hold), id, ids[i + 1..], remaining);
        i := i + 1;
        var use := Min(remaining, lot.available);
        if use != 0 {
          lots := lots[id := lots[id].(available := lots[id].available - use, frozen := lots[id].frozen + use)];
          assert holdLots + (parts + [HoldLot(hold, id, use, 0, 0)])
                 == holdLots + parts + [HoldLot(hold, id, use, 0, 0)];
          parts := parts + [HoldLot(hold, id, use, 0, 0)];
          remaining := remaining - use;
          if remaining == 0 {
            break;
          }
        }
      }
      TakeEnds(lots, holdLots + parts, Some(hold), ids[i..], remaining);
    }

    /** Settles `amount` over the open parts of a hold, in lot order. */
    method SettleLots(hold: nat, amount: int, commit: bool, now: Time) returns (settled: Settled)
      requires amount > 0
      modifies this`lots, this`holdLots
      ensures settled
              == SettleParts(old(lots), old(holdLots), OpenParts(old(holdLots), hold), amount, commit, now, 0, 0)
      ensures settled.Settled? ==> lots == settled.lots && holdLots == settled.holdLots
    {
      hide SettleParts;
      var ids := OpenParts(holdLots, hold);
      var rows := RowsAt(holdLots, ids);
      assert ids[0..] == ids && Distinct(ids);
      assert forall x: nat :: x in ids ==> Pending(holdLots[x]) > 0;
      var remaining, back, out := amount, 0, 0;
      var i := 0;
      while i < |ids|
        invariant 0 <= i <= |ids| && remaining > 0
        invariant |lots| == |old(lots)| && |holdLots| == |old(holdLots)|
        invariant forall k :: i <= k < |ids| ==> Pending(rows[k]) > 0
        invariant forall k :: i <= k < |ids| ==> ids[k] < |holdLots| && holdLots[ids[k]] == rows[k]
        invariant SettleParts(lots, holdLots, ids[i..], remaining, commit, now, back, out)
               == SettleParts(old(lots), old(holdLots), ids, amount, commit, now, 0, 0)
      {
        var part, id := rows[i], ids[i];
        SettleAt(lots, holdLots, ids, i, remaining, commit, now, back, out);
        i := i + 1;
        var use := Min(part.amount - part.committed - part.released, remaining);
        if use != 0 {
          if part.lot >= |lots| { return Fault(RowMissing); }
          var lot := lots[part.lot];
          if lot.frozen < use { return Fault(HoldLotExceedsLot); }
          if commit {
            lots := lots[part.lot := lot.(frozen := lot.frozen - use, consumed := lot.consumed + use)];
            holdLots := holdLots[id := holdLots[id].(committed := holdLots[id].committed + use)];
            out := out + use;
          } else if lot.expiresAt.Some? && !(lot.expiresAt.value > now) {
            lots := lots[part.lot :=
                         lot.(frozen := lot.frozen - use, expired := lot.expired + use, status := LotExpired)];
            holdLots := holdLots[id := holdLots[id].(released := holdLots[id].released + use)];
            out := out + use;
          } else {
            lots := lots[part.lot := lot.(frozen := lot.frozen - use, available := lot.available + use)];
            holdLots := holdLots[id := holdLots[id].(released := holdLots[id].released + use)];
            back := back + use;
          }
          remaining := remaining - use;
          if remaining == 0 {
            break;
          }
        }
      }
      SettleEnds(lots, holdLots, ids[i..], remaining, commit, now, back, out);
      settled := Settled(lots, holdLots, remaining, back, out);
    }

    // ----- postings

    method PostMove(row: BalanceKey, delta: int, txn: nat)
      requires row in balances
      modifies this`balances, this`entries
      ensures Tables() == Move(old(Tables()), txn, row, delta)
    {
      var after := balances[row] + delta;
      SetBalance(row, after);
      entries := entries + [Entry(txn, row, delta, after)];
    }

    /** The writes of a transfer: both balances, both entries, then a new lot or the consumption of lots. */
    method WriteTransfer(t: Transaction, id: nat, delta: int, expiresAt: Option<Time>) returns (reply: Reply)
      requires AvailableRow(t.owner) in balances && CONTROL in balances && delta != 0
      requires |txns| > 0 && txns[|txns| - 1] == t && id == |txns| - 1
      modifies this
      ensures var o := PostTransfer(old(Tables()).(txns := old(txns)[..id]), t, delta, expiresAt);
              reply == ReplyTo(o) && (o.Posted? ==> Tables() == o.state)
    {
      hide Take, FefoOrder;
      assert old(txns)[..id] + [t] == old(txns);
      PostMove(AvailableRow(t.owner), delta, id);
      PostMove(CONTROL, -delta, id);
      if delta > 0 {
        lots := lots + [GrantedLot(t.owner, id, delta, expiresAt)];
        return Done;
      }
      var ok := ConsumeLots(t.owner, -delta);
      reply := if ok then Done else Refused(LotsDoNotMatch);
    }

    method TransferTx(cmd: TransferCommand, credit: bool) returns (reply: Reply)
      requires Validate(asset, cmd.amount, cmd.source, if credit then Credit else Debit).None?
      modifies this
      ensures var o := Transfer(old(Tables()), cmd, credit);
              reply == ReplyTo(o) && (o.Posted? ==> Tables() == o.state)
    {
      hide PostTransfer, EnsureAccounts;
      var action := if credit then Credit else Debit;
      var existing := FindTxn(txns, cmd.source, action);
      if existing.Some? {
        if txns[existing.value].request != RequestOf(cmd) { return Refused(IdempotencyConflict); }
        return Replay(existing.value);
      }
      if KeyUsed(txns, cmd.key) { return Refused(IdempotencyConflict); }
      var id := |txns|;
      var t := Transaction(cmd.source, action, cmd.owner, cmd.amount, None, cmd.key, RequestOf(cmd));
      txns := txns + [t];
      if !cmd.registered { return Refused(MemberNotFound); }
      MakeAccounts(cmd.owner);
      var available, control := balances[AvailableRow(cmd.owner)], balances[CONTROL];
      var delta := if credit then cmd.amount else -cmd.amount;
      if !credit && available < cmd.amount { return Refused(InsufficientAvailable); }
      if WouldOverflow(available, delta) || WouldOverflow(control, -delta) { return Refused(AmountOverflow); }
      assert txns[..id] == old(txns);
      reply := WriteTransfer(t, id, delta, cmd.expiresAt);
    }

    /** Credit and Debit. */
    method TransferFunds(cmd: TransferCommand, credit: bool) returns (reply: Reply)
      modifies this
      ensures reply == ReplyTo(Transfer(old(Tables()), cmd, credit))
      ensures Tables() == Next(old(Tables()), if credit then DoCredit(cmd) else DoDebit(cmd))
    {
      hide PostTransfer, EnsureAccounts;
      var invalid := Validate(asset, cmd.amount, cmd.source, if credit then Credit else Debit);
      if invalid.Some? { return Refused(invalid.value); }
      var before := Tables();
      reply := TransferTx(cmd, credit);
      if reply != Done { Rollback(before); }
    }

    method ReverseTx(cmd: ReverseCommand) returns (reply: Reply)
      requires cmd.source.kind == ManualAdjustment || cmd.source.kind == ReconciliationTest
      modifies this
      ensures var o := ReverseTransfer(old(Tables()), cmd);
              reply == ReplyTo(o) && (o.Posted? ==> Tables() == o.state)
    {
      hide PostTransfer, EnsureAccounts, Sum, Wrap64, FindTxn;
      if cmd.original >= |txns| { return Refused(TransactionNotFound); }
      var original := txns[cmd.original];
      if original.action != Credit && original.action != Debit { return Refused(ReversalUnsupported); }
      var existing := FindTxn(txns, cmd.source, Reverse);
      if existing.Some? { return Replay(existing.value); }
      var amount := if cmd.amount == 0 then original.amount else cmd.amount;
      var reversed := Sum(ReversalOf(cmd.original), txns);
      if amount <= 0 || Wrap64(reversed + amount) > original.amount { return Refused(ReversalExceeded); }
      MakeAccounts(original.owner);
      var available, control := balances[AvailableRow(original.owner)], balances[CONTROL];
      var delta := if original.action == Debit then amount else -amount;
      if delta < 0 && available < amount { return Refused(InsufficientAvailable); }
      if WouldOverflow(available, delta) || WouldOverflow(control, -delta) { return Refused(AmountOverflow); }
      if KeyUsed(txns, cmd.key) { return Refused(IdempotencyConflict); }
      var id := |txns|;
      var t := Transaction(cmd.source, Reverse, original.owner, amount, Some(cmd.original), cmd.key, OtherRequest);
      txns := txns + [t];
      assert txns[..id] == old(txns);
      reply := WriteTransfer(t, id, delta, None);
    }

    method ReverseFunds(cmd: ReverseCommand) returns (reply: Reply)
      modifies this
      ensures reply == ReplyTo(ReverseTransfer(old(Tables()), cmd))
      ensures Tables() == Next(old(Tables()), DoReverse(cmd))
    {
      hide PostTransfer, EnsureAccounts;
      if cmd.source.kind != ManualAdjustment && cmd.source.kind != ReconciliationTest {
        return Refused(CommandInvalid);
      }
      var before := Tables();
      reply := ReverseTx(cmd);
      if reply != Done { Rollback(before); }
    }

    // ----- holds

    method WriteFreeze(cmd: FreezeCommand, parts: seq<HoldLot>)
      requires AvailableRow(cmd.owner) in balances && FrozenRow(cmd.owner) in balances
      modifies this
      ensures var t := Transaction(cmd.source, Freeze, cmd.owner, cmd.amount, None, cmd.key, OtherRequest);
              var id := |old(txns)|;
              Tables() == Move(Move(AddTxn(old(Tables()), t), id, AvailableRow(cmd.owner), -cmd.amount), id,
                               FrozenRow(cmd.owner), cmd.amount)
                .(holdLots := old(holdLots) + parts,
                  holds := old(holds)
                      + [Hold(cmd.reservation, cmd.owner, cmd.amount, 0, 0, HoldActive, cmd.source, cmd.holdExpiresAt)])
    {
      var id := |txns|;
      txns := txns + [Transaction(cmd.source, Freeze, cmd.owner, cmd.amount, None, cmd.key, OtherRequest)];
      PostMove(AvailableRow(cmd.owner), -cmd.amount, id);
      PostMove(FrozenRow(cmd.owner), cmd.amount, id);
      holds := holds + [Hold(cmd.reservation, cmd.owner, cmd.amount, 0, 0, HoldActive, cmd.source, cmd.holdExpiresAt)];
      holdLots := holdLots + parts;
    }

    method FreezeTx(cmd: FreezeCommand) returns (reply: Reply)
      requires asset != GrowthValue && Validate(asset, cmd.amount, cmd.source, Freeze).None?
      modifies this
      ensures var o := FreezeAmount(old(Tables()), cmd);
              reply == ReplyTo(o) && (o.Posted? ==> Tables() == o.state)
    {
      hide Take, FefoOrder, EnsureAccounts;
      var existing := FindHold(holds, cmd.reservation);
      if existing.Some? {
        var found := holds[existing.value];
        if found.original != cmd.amount || found.source != cmd.source { return Refused(IdempotencyConflict); }
        return Replay(existing.value);
      }
      if !cmd.registered { return Refused(MemberNotFound); }
      MakeAccounts(cmd.owner);
      if balances[AvailableRow(cmd.owner)] < cmd.amount { return Refused(InsufficientAvailable); }
      var parts, remaining := FreezeLots(cmd.owner, |holds|, cmd.amount);
      if remaining != 0 { return Refused(LotsDoNotMatch); }
      if FindTxn(txns, cmd.source, Freeze).Some? || KeyUsed(txns, cmd.key) { return Refused(IdempotencyConflict); }
      WriteFreeze(cmd, parts);
      reply := Done;
    }

    method FreezeFunds(cmd: FreezeCommand) returns (reply: Reply)
      modifies this
      ensures reply == ReplyTo(FreezeAmount(old(Tables()), cmd))
      ensures Tables() == Next(old(Tables()), DoFreeze(cmd))
    {
      hide Take, FefoOrder, EnsureAccounts;
      if asset == GrowthValue { return Refused(AssetTypeInvalid); }
      var invalid := Validate(asset, cmd.amount, cmd.source, Freeze);
      if invalid.Some? { return Refused(invalid.value); }
      var before := Tables();
      reply := FreezeTx(cmd);
      if reply != Done { Rollback(before); }
    }

    /** The hold row, the transaction, and the entries of the touched balances. */
    method WriteSettlement(cmd: HoldCommand, action: Action, amount: int, back: int, out: int)
      requires cmd.hold < |holds|
      requires var owner := holds[cmd.hold].owner;
               AvailableRow(owner) in balances && FrozenRow(owner) in balances && CONTROL in balances
      modifies this
      ensures var hold := old(holds)[cmd.hold];
              var committed := if action == Commit then hold.committed + amount else hold.committed;
              var released := if action == Commit then hold.released else hold.released + amount;
              var t := Transaction(cmd.source, action, hold.owner, amount, None, cmd.key, OtherRequest);
              Tables() == SettleMoves(AddTxn(old(Tables()), t), |old(txns)|, hold.owner, amount, back, out)
                .(holds := old(holds)[cmd.hold := hold.(committed := committed, released := released,
                             status := StatusAfter(action, hold.original, committed, released))])
    {
      var hold, commit := holds[cmd.hold], action == Commit;
      var committed := if commit then hold.committed + amount else hold.committed;
      var released := if commit then hold.released else hold.released + amount;
      var status := HoldActive;
      if committed + released == hold.original {
        if committed == hold.original {
          status := Committed;
        } else if action == Expire {
          status := HoldExpired;
        } else {
          status := Released;
        }
      } else if committed > 0 {
        status := PartiallyCommitted;
      }
      holds := holds[cmd.hold := hold.(committed := committed, released := released, status := status)];
      var id := |txns|;
      txns := txns + [Transaction(cmd.source, action, hold.owner, amount, None, cmd.key, OtherRequest)];
      PostMove(FrozenRow(hold.owner), -amount, id);
      if back > 0 { PostMove(AvailableRow(hold.owner), back, id); }
      if out > 0 { PostMove(CONTROL, out, id); }
    }

    method AllocateAndWrite(cmd: HoldCommand, hold: Hold, amount: int, action: Action, now: Time) returns (reply: Reply)
      requires cmd.hold < |holds| && holds[cmd.hold] == hold && amount > 0
      requires AvailableRow(hold.owner) in balances && FrozenRow(hold.owner) in balances && CONTROL in balances
      modifies this
      ensures var o := PostSettlement(old(Tables()), cmd, hold, amount, action, now);
              reply == ReplyTo(o) && (o.Posted? ==> Tables() == o.state)
    {
      hide SettleParts, OpenParts, SettleMoves, StatusAfter;
      var commit := action == Commit;
      var settled := SettleLots(cmd.hold, amount, commit, now);
      if settled.Fault? { return Refused(settled.error); }
      if settled.remaining != 0 { return Refused(AllocationIncomplete); }
      if -amount + settled.back + settled.out != 0 { return Refused(Unbalanced); }
      if KeyUsed(txns, cmd.key) { return Refused(IdempotencyConflict); }
      MovesLeaveLots(old(Tables()), lots, holdLots,
                     Transaction(cmd.source, action, hold.owner, amount, None, cmd.key, OtherRequest),
                     hold.owner, amount, settled.back, settled.out);
      WriteSettlement(cmd, action, amount, settled.back, settled.out);
      reply := Done;
    }

    method SettleTx(cmd: HoldCommand, action: Action, now: Time) returns (reply: Reply)
      modifies this
      ensures var o := SettleHold(old(Tables()), cmd, action, now);
              reply == ReplyTo(o) && (o.Posted? ==> Tables() == o.state)
    {
      hide EnsureAccounts, PostSettlement;
      var existing := FindTxn(txns, cmd.source, action);
      if existing.Some? { return Replay(existing.value); }
      if cmd.hold >= |holds| { return Refused(HoldNotFound); }
      var hold := holds[cmd.hold];
      var remaining := hold.original - hold.committed - hold.released;
      var amount := if cmd.amount == 0 then remaining else cmd.amount;
      if amount <= 0 || amount > remaining { return Refused(HoldStateConflict); }
      if hold.status == Committed || hold.status == Released || hold.status == HoldExpired {
        return Refused(HoldStateConflict);
      }
      MakeAccounts(hold.owner);
      if balances[FrozenRow(hold.owner)] < amount { return Refused(HoldExceedsFrozen); }
      reply := AllocateAndWrite(cmd, hold, amount, action, now);
    }

    /** Commit, Release and the expiry of a hold. */
    method SettleFunds(cmd: HoldCommand, action: Action, now: Time) returns (reply: Reply)
      modifies this
      ensures var o := SettleHold(old(Tables()), cmd, action, now);
              reply == ReplyTo(o) && Tables() == if o.Posted? then o.state else old(Tables())
    {
      var before := Tables();
      reply := SettleTx(cmd, action, now);
      if reply != Done { Rollback(before); }
    }

    // ----- expiry

    method ExpireLotTx(lot: nat, now: Time) returns (reply: Reply)
      modifies this
      ensures var o := ExpireLot(old(Tables()), lot, now);
              reply == ReplyTo(o) && (o.Posted? ==> Tables() == o.state)
    {
      hide EnsureAccounts;
      if lot >= |lots| || !PastDue(lots[lot], now) || lots[lot].available <= 0 { return NothingToDo; }
      var owner := lots[lot].owner;
      MakeAccounts(owner);
      if !PastDue(lots[lot], now) || lots[lot].available <= 0 { return NothingToDo; }
      var amount := lots[lot].available;
      if balances[AvailableRow(owner)] < amount { return Refused(ExpiringLotExceeds); }
      var source, key := Source(Expiry, Id(lot)), IdempotencyKey(SYSTEM, LotToken(lot));
      lots := lots[lot := lots[lot].(available := 0, expired := lots[lot].expired + amount, status := LotExpired)];
      if FindTxn(txns, source, Expire).Some? || KeyUsed(txns, key) { return Refused(IdempotencyConflict); }
      var id := |txns|;
      txns := txns + [Transaction(source, Expire, owner, amount, None, key, OtherRequest)];
      PostMove(AvailableRow(owner), -amount, id);
      PostMove(CONTROL, amount, id);
      reply := Done;
    }

    method ExpireOneLot(lot: nat, now: Time) returns (reply: Reply)
      modifies this
      ensures reply == ReplyTo(ExpireLot(old(Tables()), lot, now))
      ensures Tables() == Next(old(Tables()), DoExpireLot(lot, now))
    {
      var before := Tables();
      reply := ExpireLotTx(lot, now);
      if reply != Done { Rollback(before); }
    }

    method ExpireDueLots(limit: nat, now: Time) returns (processed: nat, error: Option<Error>)
      modifies this
      ensures Batch(Tables(), processed, error)
              == ExpireLots(old(Tables()), Limited(DueLots(old(lots), now), limit), now)
    {
      hide ExpireLot, DueLots;
      var ids := Limited(DueLots(lots, now), limit);
      processed, error := 0, None;
      ghost var whole := ExpireLots(Tables(), ids, now);
      var i := 0;
      assert ids[0..] == ids;
      while i < |ids|
        invariant 0 <= i <= |ids|
        invariant var rest := ExpireLots(Tables(), ids[i..], now);
                  whole == rest.(processed := processed + rest.processed)
      {
        assert ids[i..][0] == ids[i] && ids[i..][1..] == ids[i + 1..];
        var reply := ExpireOneLot(ids[i], now);
        if reply.Refused? { return processed, Some(reply.error); }
        if reply == Done { processed := processed + 1; }
        i := i + 1;
      }
    }

    method ExpireDueHolds(limit: nat, now: Time) returns (processed: nat, error: Option<Error>)
      modifies this
      ensures Batch(Tables(), processed, error)
              == ExpireHolds(old(Tables()), Limited(DueHolds(old(holds), now), limit), now)
    {
      hide SettleHold, DueHolds;
      var ids := Limited(DueHolds(holds, now), limit);
      processed, error := 0, None;
      ghost var whole := ExpireHolds(Tables(), ids, now);
      var i := 0;
      assert ids[0..] == ids;
      while i < |ids|
        invariant 0 <= i <= |ids|
        invariant var rest := ExpireHolds(Tables(), ids[i..], now);
                  whole == rest.(processed := processed + rest.processed)
      {
        assert ids[i..][0] == ids[i] && ids[i..][1..] == ids[i + 1..];
        var reply := SettleFunds(ExpiryOf(ids[i]), Expire, now);
        i := i + 1;
        if reply.Refused? {
          if reply.error != HoldStateConflict { return processed, Some(reply.error); }
        } else {
          processed := processed + 1;
        }
      }
    }

    // ----- reconciliation

    /** Scans the balance rows in scope and collects the open items. */
    method Reconcile(scope: Scope) returns (scanned: nat, items: set<BalanceKey>, unbalanced: set<nat>)
      ensures items == Mismatches(Tables(), scope) && unbalanced == UnbalancedTxns(Tables())
      ensures scanned == |set row | row in balances && InScope(scope, row)|
    {
      var rows := set row | row in balances && InScope(scope, row);
      scanned, items := |rows|, {};
      var left := rows;
      while left != {}
        invariant left <= rows
        invariant items == set row | row in rows - left && balances[row] != EntrySum(entries, row)
        decreases left
      {
        var row :| row in left;
        left := left - {row};
        if balances[row] != EntrySum(entries, row) {
          items := items + {row};
        }
      }
      unbalanced := UnbalancedTxns(Tables());
    }

    /** Sets the open items one by one to the sums of the entries the transaction sees, unless the job found unbalanced
        transactions. */
    method RepairItems(items: seq<BalanceKey>, seen: seq<Entry>, unbalanced: set<nat>) returns (ok: bool)
      requires forall row :: row in items ==> row in balances
      modifies this`balances
      ensures ok == (unbalanced == {})
      ensures Tables() == if ok then WithSums(old(Tables()), items, seen) else old(Tables())
    {
      if unbalanced != {} { return false; }
      for i := 0 to |items|
        invariant balances.Keys == old(balances).Keys
        invariant forall row :: row in balances ==>
          balances[row] == if row in items[..i] then EntrySum(seen, row) else old(balances)[row]
      {
        assert items[..i + 1] == items[..i] + [items[i]];
        SetBalance(items[i], EntrySum(seen, items[i]));
      }
      assert items[..|items|] == items;
      return true;
    }
  }
}
