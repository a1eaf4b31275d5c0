/** How much of a transfer can be reversed: the cap, and the 64-bit corner that escapes it. */
module LedgerReversal {
  import opened Sums
  import opened Machine
  import opened LedgerModel

  predicate Reversible(t: Transaction) { t.action == Credit || t.action == Debit }

  /** A transfer is bounded as validated and never reversed by more than its amount. */
  ghost predicate Capped(txns: seq<Transaction>) {
    && (forall k :: 0 <= k < |txns| ==>
          txns[k].amount > 0 && (txns[k].reversalOf.Some? ==> txns[k].reversalOf.value < |txns|))
    && (forall k: nat :: k < |txns| && Reversible(txns[k]) ==>
          txns[k].amount <= MAX_INT64 / 2 && Sum(ReversalOf(k), txns) <= txns[k].amount)
  }

  function ReversedAmount(st: State, cmd: ReverseCommand): int
    requires cmd.original < |st.txns|
  {
    if cmd.amount == 0 then st.txns[cmd.original].amount else cmd.amount
  }

  lemma PlainAppend(txns: seq<Transaction>, t: Transaction)
    requires Capped(txns) && t.amount > 0 && t.reversalOf.None? && (Reversible(t) ==> t.amount <= MAX_INT64 / 2)
    ensures Capped(txns + [t])
  {
    forall k: nat | k <= |txns|
      ensures Sum(ReversalOf(k), txns + [t]) == if k < |txns| then Sum(ReversalOf(k), txns) else 0
    {
      SumSnoc(ReversalOf(k), txns, t);
      if k == |txns| { SumZero(ReversalOf(k), txns); }
    }
  }

  lemma ReverseAppend(txns: seq<Transaction>, t: Transaction, original: nat)
    requires Capped(txns) && t.amount > 0 && t.action == Reverse && t.reversalOf == Some(original) && original < |txns|
    requires Reversible(txns[original])
    ensures Capped(txns + [t]) <==> Sum(ReversalOf(original), txns) + t.amount <= txns[original].amount
  {
    forall k: nat | k < |txns|
      ensures Sum(ReversalOf(k), txns + [t]) == Sum(ReversalOf(k), txns) + if k == original then t.amount else 0
    {
      SumSnoc(ReversalOf(k), txns, t);
    }
    assert (txns + [t])[original] == txns[original];
  }

  lemma ReverseTxns(st: State, cmd: ReverseCommand)
    requires ReverseTransfer(st, cmd).Posted?
    ensures cmd.original < |st.txns| && Reversible(st.txns[cmd.original]) && ReversedAmount(st, cmd) > 0
    ensures Wrap64(Sum(ReversalOf(cmd.original), st.txns) + ReversedAmount(st, cmd)) <= st.txns[cmd.original].amount
    ensures ReverseTransfer(st, cmd).state.txns
         == st.txns + [Transaction(cmd.source, Reverse, st.txns[cmd.original].owner, ReversedAmount(st, cmd),
                                   Some(cmd.original), cmd.key, OtherRequest)]
  {
    hide Take, FefoOrder, EnsureAccounts, FindTxn, KeyUsed, Sum, Wrap64, TransferBlocked;
  }

  /** An accepted reversal respects the cap exactly when the running total of reversals does not leave 64 bits. */
  lemma ReversalCap(st: State, cmd: ReverseCommand)
    requires Capped(st.txns) && cmd.amount <= MAX_INT64 && ReverseTransfer(st, cmd).Posted?
    ensures cmd.original < |st.txns|
    ensures Capped(ReverseTransfer(st, cmd).state.txns)
            <==> Sum(ReversalOf(cmd.original), st.txns) <= MAX_INT64 - ReversedAmount(st, cmd)
  {
    ReverseTxns(st, cmd);
    hide ReverseTransfer;
    var t := Transaction(cmd.source, Reverse, st.txns[cmd.original].owner, ReversedAmount(st, cmd), Some(cmd.original),
                         cmd.key, OtherRequest);
    SumNonNegative(ReversalOf(cmd.original), st.txns);
    ReverseAppend(st.txns, t, cmd.original);
  }

  predicate SmallReversal(cmd: Command) {
    cmd.DoReverse? ==> cmd.reverse.amount <= MAX_INT64 / 2
  }

  lemma StepCapped(st: State, cmd: Command)
    requires Capped(st.txns) && SmallReversal(cmd)
    ensures Capped(Next(st, cmd).txns)
  {
    if cmd.DoReverse? {
      if ReverseTransfer(st, cmd.reverse).Posted? { ReversalCap(st, cmd.reverse); }
    } else {
      var st' := Next(st, cmd);
      PlainTxn(st, cmd);
      if st'.txns != st.txns {
        PlainAppend(st.txns, st'.txns[|st.txns|]);
      }
    }
  }

  lemma PlainTxn(st: State, cmd: Command)
    requires !cmd.DoReverse?
    ensures var txns := Next(st, cmd).txns;
            || txns == st.txns
            || (|txns| == |st.txns| + 1 && txns == st.txns + [txns[|st.txns|]]
                && var t := txns[|st.txns|];
                   t.amount > 0 && t.reversalOf.None? && (Reversible(t) ==> t.amount <= MAX_INT64 / 2))
  {
    hide Take, FefoOrder, SettleParts, OpenParts, EnsureAccounts, Sum;
  }

  /** Over any run whose requested reversal amounts pass the bound other commands are validated against,
      no transfer is reversed by more than its amount. */
  lemma {:induction false} RunCapped(asset: AssetType, cmds: seq<Command>)
    requires forall i :: 0 <= i < |cmds| ==> SmallReversal(cmds[i])
    ensures Capped(Run(Empty(asset), cmds).txns)
  {
    if cmds != [] {
      RunCapped(asset, cmds[..|cmds| - 1]);
      StepCapped(Run(Empty(asset), cmds[..|cmds| - 1]), cmds[|cmds| - 1]);
    }
  }
}
