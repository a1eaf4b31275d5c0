/** What repeating a command does, whatever was posted in between. */
module LedgerRepeats {
  import opened Machine
  import opened Sums
  import opened LedgerModel
  import opened LedgerLots
  import opened LedgerInvariant
  import opened LedgerSafety
  import opened LedgerFrame
  import opened LedgerMeaning
  import opened LedgerConditions
  import opened LedgerHoldEnds

  /** A posted transfer records what it was asked for. */
  lemma TransferRecords(st: State, t: TransferCommand, credit: bool)
    requires Transfer(st, t, credit).Posted?
    ensures var txns := Transfer(st, t, credit).state.txns;
            && |txns| == |st.txns| + 1 && txns[|st.txns|].source == t.source
            && txns[|st.txns|].action == (if credit then Credit else Debit)
            && txns[|st.txns|].request == TransferRequest(t.owner, t.amount, t.expiresAt, t.note)
  {
    hide Take, FefoOrder, EnsureAccounts, FindTxn, KeyUsed;
  }

  lemma {:induction false} TxnsStay(st: State, cmds: seq<Command>, k: nat)
    requires Core(st) && k < |st.txns|
    ensures k < |Run(st, cmds).txns| && Run(st, cmds).txns[k] == st.txns[k] && Core(Run(st, cmds))
  {
    if cmds != [] {
      hide Core, Next, Apply;
      var was, last := cmds[..|cmds| - 1], cmds[|cmds| - 1];
      TxnsStay(st, was, k);
      var mid := Run(st, was);
      StepKeepsCore(mid, last);
      OneMoreTxn(mid, last);
    }
  }

  lemma OneMoreTxn(st: State, cmd: Command)
    ensures |st.txns| <= |Next(st, cmd).txns| && Next(st, cmd).txns[..|st.txns|] == st.txns
  {
    if Apply(st, cmd).Posted? { CommandRecords(st, cmd); }
  }

  lemma FoundOnce(txns: seq<Transaction>, k: nat, source: Source, action: Action)
    requires UniqueTxns(txns) && k < |txns| && txns[k].source == source && txns[k].action == action
    ensures FindTxn(txns, source, action) == Some(k)
  {
  }

  lemma CoreIsUnique(st: State)
    requires Core(st)
    ensures UniqueTxns(st.txns)
  {
  }

  /** A credit or debit under the source of an earlier one, whatever was posted in between, posts nothing: it answers
      with
      the earlier transaction exactly when customer, amount, expiry and note are the same, and is refused otherwise. */
  lemma RepeatedTransfer(st: State, t: TransferCommand, credit: bool, cmds: seq<Command>, again: TransferCommand)
    requires Core(st) && Transfer(st, t, credit).Posted? && again.source == t.source
    requires AmountAllowed(again.amount)
    ensures var later := Run(Next(st, if credit then DoCredit(t) else DoDebit(t)), cmds);
            Transfer(later, again, credit)
            == if again.owner == t.owner && again.amount == t.amount && again.expiresAt == t.expiresAt
                && again.note == t.note
               then Replayed(|st.txns|) else Rejected(IdempotencyConflict)
  {
    var cmd := if credit then DoCredit(t) else DoDebit(t);
    var next := Next(st, cmd);
    TransferRecords(st, t, credit);
    StepKeepsCore(st, cmd);
    TxnsStay(next, cmds, |st.txns|);
    AssetStays(st, cmd);
    AssetsStay(next, cmds);
    var later := Run(next, cmds);
    CoreIsUnique(later);
    FoundOnce(later.txns, |st.txns|, t.source, if credit then Credit else Debit);
    SameKind(st, t, credit);
    hide Core, Run, Next, PostTransfer, EnsureAccounts, FindTxn, UniqueTxns, TransferBlocked;
  }

  lemma SameKind(st: State, t: TransferCommand, credit: bool)
    requires Transfer(st, t, credit).Posted?
    ensures forall amount :: AmountAllowed(amount) ==>
              Validate(st.asset, amount, t.source, if credit then Credit else Debit).None?
  {
    hide PostTransfer, EnsureAccounts, FindTxn, TransferBlocked;
  }

  lemma AssetStays(st: State, cmd: Command)
    ensures Next(st, cmd).asset == st.asset
  {
    hide Take, SettleParts, FefoOrder, OpenParts, EnsureAccounts, Sum, FindTxn, FindHold;
  }

  lemma {:induction false} AssetsStay(st: State, cmds: seq<Command>)
    ensures Run(st, cmds).asset == st.asset
  {
    if cmds != [] {
      hide Next;
      AssetsStay(st, cmds[..|cmds| - 1]);
      AssetStays(Run(st, cmds[..|cmds| - 1]), cmds[|cmds| - 1]);
    }
  }

  /** A reversal, commit or release under the source of an earlier one answers with the earlier transaction. */
  lemma RepeatedAction(st: State, cmd: Command, cmds: seq<Command>, again: Command)
    requires Core(st) && Apply(st, cmd).Posted? && !cmd.DoExpireLot? && !cmd.DoFreeze? && !cmd.DoCredit?
             && !cmd.DoDebit?
    requires ActionOf(again) == ActionOf(cmd) && SourceAsked(again) == SourceAsked(cmd) && !again.DoExpireLot?
    requires again.DoReverse? ==> again.reverse.original == cmd.reverse.original
    ensures Apply(Run(Next(st, cmd), cmds), again) == Replayed(|st.txns|)
  {
    var next := Next(st, cmd);
    CommandRecords(st, cmd);
    StepKeepsCore(st, cmd);
    TxnsStay(next, cmds, |st.txns|);
    var later := Run(next, cmds);
    CoreIsUnique(later);
    FoundOnce(later.txns, |st.txns|, SourceAsked(cmd), ActionOf(cmd));
    if cmd.DoReverse? {
      Reversible(st, cmd.reverse);
      assert next.txns[cmd.reverse.original] == next.txns[..|st.txns|][cmd.reverse.original];
      TxnsStay(next, cmds, cmd.reverse.original);
    }
    hide Core, Run, Next, PostTransfer, PostSettlement, EnsureAccounts, FindTxn, UniqueTxns, Sum, Wrap64;
  }

  lemma Reversible(st: State, r: ReverseCommand)
    requires ReverseTransfer(st, r).Posted?
    ensures r.source.kind == ManualAdjustment || r.source.kind == ReconciliationTest
    ensures r.original < |st.txns| && (st.txns[r.original].action == Credit || st.txns[r.original].action == Debit)
  {
    hide PostTransfer, EnsureAccounts, FindTxn, Sum, Wrap64;
  }

  // ----- reservations

  predicate ReservedOnce(holds: seq<Hold>) {
    forall i, j :: 0 <= i < j < |holds| ==> holds[i].reservation != holds[j].reservation
  }

  lemma StepReservesOnce(st: State, cmd: Command)
    requires ReservedOnce(st.holds)
    ensures ReservedOnce(Next(st, cmd).holds)
  {
    OnlyFreezesHold(st, cmd);
    forall h: nat | h < |st.holds| ensures Next(st, cmd).holds[h].reservation == st.holds[h].reservation {
      HoldMoves(st, cmd, h);
    }
    if cmd.DoFreeze? && Apply(st, cmd).Posted? {
      FreezeRecords(st, cmd.freeze);
      FreshReservation(st, cmd.freeze);
    }
    hide Next, Apply;
  }

  lemma FreshReservation(st: State, f: FreezeCommand)
    requires FreezeAmount(st, f).Posted?
    ensures forall h :: 0 <= h < |st.holds| ==> st.holds[h].reservation != f.reservation
  {
    hide EnsureAccounts, Take, FefoOrder, FindTxn;
  }

  lemma {:induction false} RunReservesOnce(asset: AssetType, cmds: seq<Command>)
    ensures ReservedOnce(Run(Empty(asset), cmds).holds)
  {
    if cmds != [] {
      hide Next;
      RunReservesOnce(asset, cmds[..|cmds| - 1]);
      StepReservesOnce(Run(Empty(asset), cmds[..|cmds| - 1]), cmds[|cmds| - 1]);
    }
  }

  lemma {:induction false} StaysReservedOnce(st: State, cmds: seq<Command>)
    requires ReservedOnce(st.holds)
    ensures ReservedOnce(Run(st, cmds).holds)
  {
    if cmds != [] {
      hide Next;
      StaysReservedOnce(st, cmds[..|cmds| - 1]);
      StepReservesOnce(Run(st, cmds[..|cmds| - 1]), cmds[|cmds| - 1]);
    }
  }

  /** A freeze under the reservation of an earlier one freezes nothing: it answers with the earlier hold exactly when
      amount and source are the same, and is refused otherwise. */
  lemma RepeatedFreeze(asset: AssetType, before: seq<Command>, f: FreezeCommand, after: seq<Command>,
                       again: FreezeCommand)
    requires FreezeAmount(Run(Empty(asset), before), f).Posted? && again.reservation == f.reservation
    requires AmountAllowed(again.amount) && again.source.kind == ReconciliationTest
    ensures var st := Run(Empty(asset), before);
            FreezeAmount(Run(Next(st, DoFreeze(f)), after), again)
            == if again.amount == f.amount && again.source == f.source then Replayed(|st.holds|)
               else Rejected(IdempotencyConflict)
  {
    var st := Run(Empty(asset), before);
    var next := Next(st, DoFreeze(f));
    var later := Run(next, after);
    RunKeepsInv(asset, before);
    StaysFrozen(st, f, after);
    RunReservesOnce(asset, before);
    StepReservesOnce(st, DoFreeze(f));
    StaysReservedOnce(next, after);
    AssetStays(st, DoFreeze(f));
    AssetsStay(next, after);
    FreezePosts(st, f);
    OnlyHold(later.holds, |st.holds|);
    hide Inv, Core, Run, Next, EnsureAccounts, Take, FefoOrder, FindTxn, FindHold;
  }

  lemma OnlyHold(holds: seq<Hold>, h: nat)
    requires ReservedOnce(holds) && h < |holds|
    ensures FindHold(holds, holds[h].reservation) == Some(h)
  {
  }
}
