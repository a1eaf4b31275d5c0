/** The repair transaction as it runs: one balance row is locked at a time, while every sum over the entries is a plain
    read of the snapshot that the first of them fixed. */
module LedgerRepairTx {
  import opened Machine
  import opened Sums
  import opened LedgerModel
  import opened LedgerInvariant
  import opened LedgerSafety
  import opened LedgerRepair
  import opened LedgerFrame

  /** `locked` items hold their row lock, `summed` of them have read their sum. */
  datatype RepairTx = RepairTx(db: State, items: seq<BalanceKey>, locked: nat, summed: nat,
                               snapshot: Option<seq<Entry>>)

  datatype RepairEvent = LockNext | SumNext | Post(cmd: Command)

  function Rows(items: seq<BalanceKey>): set<BalanceKey> { set row | row in items }

  /** The rows a command locks, none if it names nothing. */
  function Wanted(db: State, cmd: Command): set<BalanceKey> {
    match OwnerOf(db, cmd)
    case Some(owner) => RowsOf(cmd, owner)
    case None => {}
  }

  /** A posting that needs a row the repair has locked waits; an event that is not possible yet does nothing. */
  function Step(tx: RepairTx, e: RepairEvent): RepairTx {
    match e
    case LockNext => if tx.locked == tx.summed && tx.locked < |tx.items| then tx.(locked := tx.locked + 1) else tx
    case SumNext =>
      if tx.summed < tx.locked then tx.(summed := tx.summed + 1, snapshot := Some(Snapshot(tx))) else tx
    case Post(cmd) =>
      if tx.locked <= |tx.items| && Wanted(tx.db, cmd) !! Rows(tx.items[..tx.locked]) then tx.(db := Next(tx.db, cmd))
      else tx
  }

  function Snapshot(tx: RepairTx): seq<Entry> {
    match tx.snapshot
    case Some(entries) => entries
    case None => tx.db.entries
  }

  function Begin(db: State, items: seq<BalanceKey>): RepairTx { RepairTx(db, items, 0, 0, None) }

  function Steps(db: State, items: seq<BalanceKey>, events: seq<RepairEvent>): RepairTx {
    if events == [] then Begin(db, items) else Step(Steps(db, items, events[..|events| - 1]), events[|events| - 1])
  }

  predicate Finished(tx: RepairTx) { tx.summed == |tx.items| }

  /** The commit publishes one sum per item. */
  function CommitRepair(tx: RepairTx): State {
    WithSums(tx.db, tx.items, Snapshot(tx))
  }

  /** How far the row's entries are from the snapshot. */
  function Moved(tx: RepairTx, row: BalanceKey): int { EntrySum(tx.db.entries, row) - EntrySum(Snapshot(tx), row) }

  /** What one event posts on a row after the first sum and before the row's own lock. */
  function PostedBy(tx: RepairTx, e: RepairEvent, row: BalanceKey): int {
    if e.Post? && tx.snapshot.Some? && tx.locked <= |tx.items| && row !in tx.items[..tx.locked]
    then EntrySum(Step(tx, e).db.entries, row) - EntrySum(tx.db.entries, row)
    else 0
  }

  /** What the postings of a run add up to on a row, of those between the first sum and the row's own lock. */
  function PostedBetween(db: State, items: seq<BalanceKey>, events: seq<RepairEvent>, row: BalanceKey): int {
    if events == [] then 0
    else
      var n := |events| - 1;
      PostedBetween(db, items, events[..n], row) + PostedBy(Steps(db, items, events[..n]), events[n], row)
  }

  // ----- what every step keeps

  ghost predicate TxOk(db: State, tx: RepairTx) {
    && Core(tx.db) && SameDrift(db, tx.db) && db.balances.Keys <= tx.db.balances.Keys
    && tx.summed <= tx.locked <= tx.summed + 1 && tx.locked <= |tx.items|
    && (tx.snapshot.Some? <==> tx.summed > 0)
  }

  /** A posting leaves a row it does not lock as it is, in the balances and in the entries. */
  lemma PostingSpares(db: State, cmd: Command, row: BalanceKey)
    requires Core(db) && row in db.balances && row !in Wanted(db, cmd)
    ensures EntrySum(Next(db, cmd).entries, row) == EntrySum(db.entries, row)
  {
    StepKeepsCore(db, cmd);
    if Apply(db, cmd).Posted? {
      CommandFrame(db, cmd);
      StepKeepsRows(db, cmd);
      hide Core, Next, Apply, OwnerOf, RowsOf;
      assert Drift(Next(db, cmd).balances, Next(db, cmd).entries, row) == Drift(db.balances, db.entries, row);
    }
  }

  lemma StepKeepsTx(db: State, tx: RepairTx, e: RepairEvent)
    requires TxOk(db, tx)
    ensures TxOk(db, Step(tx, e))
  {
    hide Core;
    match e
    case LockNext =>
    case SumNext =>
    case Post(cmd) =>
      StepKeepsCore(tx.db, cmd);
      StepKeepsRows(tx.db, cmd);
      hide Next;
  }

  lemma {:induction false} StepsKeepTx(db: State, items: seq<BalanceKey>, events: seq<RepairEvent>)
    requires Core(db)
    ensures TxOk(db, Steps(db, items, events)) && Steps(db, items, events).items == items
  {
    if events != [] {
      StepsKeepTx(db, items, events[..|events| - 1]);
      StepKeepsTx(db, Steps(db, items, events[..|events| - 1]), events[|events| - 1]);
    }
  }

  /** The row of a locked item takes no posting until the repair ends. */
  lemma LockedRowsRest(db: State, tx: RepairTx, e: RepairEvent, row: BalanceKey)
    requires TxOk(db, tx) && row in tx.items[..tx.locked] && row in db.balances
    ensures EntrySum(Step(tx, e).db.entries, row) == EntrySum(tx.db.entries, row)
  {
    hide Core;
    if e.Post? && Wanted(tx.db, e.cmd) !! Rows(tx.items[..tx.locked]) {
      PostingSpares(tx.db, e.cmd, row);
    }
  }

  lemma StepMoves(db: State, tx: RepairTx, e: RepairEvent, row: BalanceKey)
    requires TxOk(db, tx) && row in db.balances
    ensures Moved(Step(tx, e), row) == Moved(tx, row) + PostedBy(tx, e, row)
  {
    if row in tx.items[..tx.locked] { LockedRowsRest(db, tx, e, row); }
    hide Core, SameDrift, Next, Wanted, EntrySum;
  }

  /** The entries of an item's row are ahead of the snapshot by exactly what was posted between the first sum and the
      row's lock. */
  lemma {:induction false} MovedIsPosted(db: State, items: seq<BalanceKey>, events: seq<RepairEvent>, row: BalanceKey)
    requires Core(db) && row in db.balances
    ensures Moved(Steps(db, items, events), row) == PostedBetween(db, items, events, row)
  {
    if events != [] {
      var n := |events| - 1;
      MovedIsPosted(db, items, events[..n], row);
      StepsKeepTx(db, items, events[..n]);
      StepMoves(db, Steps(db, items, events[..n]), events[n], row);
      hide Core, TxOk, Moved, PostedBy, Step;
    }
  }

  // ----- what the repair leaves

  /** The repair loses exactly what was posted on an item's row between the first sum and the item's own lock. */
  lemma RepairLoses(db: State, items: seq<BalanceKey>, events: seq<RepairEvent>, row: BalanceKey)
    requires Core(db) && forall row :: row in items ==> row in db.balances
    requires Finished(Steps(db, items, events))
    ensures var repaired := CommitRepair(Steps(db, items, events));
            Drift(repaired.balances, repaired.entries, row)
            == if row in items then -PostedBetween(db, items, events, row) else Drift(db.balances, db.entries, row)
  {
    StepsKeepTx(db, items, events);
    if row in items { MovedIsPosted(db, items, events, row); }
    var tx := Steps(db, items, events);
    hide Core, Steps, PostedBetween;
    assert Drift(tx.db.balances, tx.db.entries, row) == Drift(db.balances, db.entries, row);
  }

  /** Exactly when the repair restores the whole invariant: nothing outside the items was wrong, and on no item's row
      the postings between the first sum and the row's lock add up to anything. */
  lemma RepairRestoresExactly(db: State, items: seq<BalanceKey>, events: seq<RepairEvent>)
    requires Core(db) && forall row :: row in items ==> row in db.balances
    requires Finished(Steps(db, items, events))
    ensures Inv(CommitRepair(Steps(db, items, events)))
            <==> && (forall row :: row !in items ==> Drift(db.balances, db.entries, row) == 0)
                 && (forall row :: row in items ==> PostedBetween(db, items, events, row) == 0)
  {
    StepsKeepTx(db, items, events);
    var tx := Steps(db, items, events);
    var repaired := CommitRepair(tx);
    CorruptionKeepsCore(tx.db, repaired);
    forall row
      ensures Drift(repaired.balances, repaired.entries, row)
              == if row in items then -PostedBetween(db, items, events, row) else Drift(db.balances, db.entries, row)
    {
      RepairLoses(db, items, events, row);
    }
    hide Core, Steps, Drift, PostedBetween, CommitRepair;
  }

  /** The first item's lock comes before the first sum. */
  lemma {:induction false} FirstItemIsSafe(db: State, items: seq<BalanceKey>, events: seq<RepairEvent>)
    requires Core(db) && items != []
    ensures PostedBetween(db, items, events, items[0]) == 0
  {
    if events != [] {
      var n := |events| - 1;
      FirstItemIsSafe(db, items, events[..n]);
      StepsKeepTx(db, items, events[..n]);
      hide Core, Step, Steps;
      var tx := Steps(db, items, events[..n]);
      assert tx.locked > 0 ==> tx.items[..tx.locked][0] == items[0];
    }
  }

  /** With a single open item nothing can be lost, whatever is posted meanwhile. */
  lemma OneItemIsSafe(db: State, item: BalanceKey, events: seq<RepairEvent>)
    requires Core(db) && item in db.balances && Finished(Steps(db, [item], events))
    ensures Inv(CommitRepair(Steps(db, [item], events)))
            <==> forall row :: row != item ==> Drift(db.balances, db.entries, row) == 0
  {
    RepairRestoresExactly(db, [item], events);
    FirstItemIsSafe(db, [item], events);
    hide Core, Drift, Steps, PostedBetween;
    assert [item][0] == item;
  }

  // ----- a guard

  /** From the first sum on nothing is posted on any item's row. */
  predicate Quiet(db: State, items: seq<BalanceKey>, events: seq<RepairEvent>) {
    events == []
    || var n := |events| - 1;
       var tx := Steps(db, items, events[..n]);
       Quiet(db, items, events[..n])
       && (events[n].Post? && tx.snapshot.Some? ==> Wanted(tx.db, events[n].cmd) !! Rows(items))
  }

  lemma {:induction false} QuietPostsNothing(db: State, items: seq<BalanceKey>, events: seq<RepairEvent>,
                                             row: BalanceKey)
    requires Core(db) && Quiet(db, items, events) && row in items && row in db.balances
    ensures PostedBetween(db, items, events, row) == 0
  {
    if events != [] {
      var n := |events| - 1;
      var tx := Steps(db, items, events[..n]);
      StepsKeepTx(db, items, events[..n]);
      QuietPostsNothing(db, items, events[..n], row);
      if events[n].Post? && tx.snapshot.Some? {
        PostingSpares(tx.db, events[n].cmd, row);
      }
      hide Core, Next, Wanted, EntrySum;
    }
  }

  /** A repair whose later rows stay quiet ends in a sound ledger when its items cover the corruption. */
  lemma QuietRepairRestores(db: State, items: seq<BalanceKey>, events: seq<RepairEvent>)
    requires Core(db) && forall row :: row in items ==> row in db.balances
    requires Finished(Steps(db, items, events)) && Quiet(db, items, events)
    ensures Inv(CommitRepair(Steps(db, items, events)))
            <==> forall row :: row !in items ==> Drift(db.balances, db.entries, row) == 0
  {
    RepairRestoresExactly(db, items, events);
    forall row | row in items ensures PostedBetween(db, items, events, row) == 0 {
      QuietPostsNothing(db, items, events, row);
    }
  }

  // ----- from the corruption to the sound ledger

  /** Reconciling a corrupted ledger, posting anything before and beside the repair: the whole invariant is back exactly
      when the corruption lies within the scope and nothing of the postings beside the repair is lost. */
  lemma ReconcileAndRepair(corrupted: State, scope: Scope, between: seq<Command>, items: seq<BalanceKey>,
                           events: seq<RepairEvent>)
    requires Core(corrupted) && Rows(items) == Mismatches(corrupted, scope)
    requires Finished(Steps(Run(corrupted, between), items, events))
    ensures Inv(CommitRepair(Steps(Run(corrupted, between), items, events)))
            <==> && (forall row :: row in corrupted.balances && !InScope(scope, row) ==>
                     Drift(corrupted.balances, corrupted.entries, row) == 0)
                 && (forall row :: row in items ==> PostedBetween(Run(corrupted, between), items, events, row) == 0)
  {
    var db := Run(corrupted, between);
    RunKeepsCore(corrupted, between);
    RunKeepsRows(corrupted, between);
    forall row ensures row in items <==> row in Mismatches(corrupted, scope) {
      assert row in items <==> row in Rows(items);
    }
    RepairRestoresExactly(db, items, events);
    hide Core, Steps, PostedBetween, CommitRepair, Run;
    forall row ensures Drift(db.balances, db.entries, row) == Drift(corrupted.balances, corrupted.entries, row) {
    }
    forall row | row !in corrupted.balances ensures Drift(corrupted.balances, corrupted.entries, row) == 0 {
      MissingRowsAgree(corrupted, row);
    }
  }

  /** From any corruption of balance amounts in a sound ledger, a full-scope repair that loses nothing ends in a sound
      ledger, and every later run stays sound. */
  lemma RepairThenRun(st: State, corrupted: State, between: seq<Command>, items: seq<BalanceKey>,
                      events: seq<RepairEvent>,
                      after: seq<Command>)
    requires Inv(st) && OnlyAmountsDiffer(st, corrupted) && Rows(items) == Mismatches(corrupted, WholeLedger)
    requires Finished(Steps(Run(corrupted, between), items, events))
    requires forall row :: row in items ==> PostedBetween(Run(corrupted, between), items, events, row) == 0
    ensures Inv(Run(CommitRepair(Steps(Run(corrupted, between), items, events)), after))
  {
    CorruptionKeepsCore(st, corrupted);
    ReconcileAndRepair(corrupted, WholeLedger, between, items, events);
    var repaired := CommitRepair(Steps(Run(corrupted, between), items, events));
    RunKeepsCore(repaired, after);
    hide Core, PostedBetween, Steps;
    assert SameDrift(repaired, Run(repaired, after));
  }

  lemma {:induction false} AloneChangesNothing(db: State, items: seq<BalanceKey>, events: seq<RepairEvent>)
    requires forall k :: 0 <= k < |events| ==> !events[k].Post?
    ensures var tx := Steps(db, items, events); tx.db == db && tx.items == items && Snapshot(tx) == db.entries
  {
    if events != [] {
      AloneChangesNothing(db, items, events[..|events| - 1]);
    }
  }

  /** Without postings in between the transaction is the repair in one step. */
  lemma AloneIsRepair(db: State, items: seq<BalanceKey>, events: seq<RepairEvent>)
    requires (forall k :: 0 <= k < |events| ==> !events[k].Post?) && Finished(Steps(db, items, events))
    ensures CommitRepair(Steps(db, items, events)) == Repair(db, Rows(items))
  {
    AloneChangesNothing(db, items, events);
  }

  // ----- a posting that is lost

  /** The control row is the second item; a credit to another customer commits after the first sum. */
  function CreditInBetween(t: TransferCommand): seq<RepairEvent> {
    [LockNext, SumNext, Post(DoCredit(t)), LockNext, SumNext]
  }

  lemma CreditMovesControl(db: State, t: TransferCommand)
    requires Core(db) && Transfer(db, t, true).Posted?
    ensures t.amount > 0
    ensures EntrySum(Next(db, DoCredit(t)).entries, CONTROL) == EntrySum(db.entries, CONTROL) - t.amount
  {
    StepKeepsCore(db, DoCredit(t));
    var st' := Next(db, DoCredit(t));
    assert Drift(st'.balances, st'.entries, CONTROL) == Drift(db.balances, db.entries, CONTROL);
    EnsureBalances(db, t.owner);
    hide Core, EnsureAccounts, FindTxn, KeyUsed, SameDrift;
  }

  lemma StepsAt(db: State, items: seq<BalanceKey>, events: seq<RepairEvent>, n: nat)
    requires n < |events|
    ensures Steps(db, items, events[..n + 1]) == Step(Steps(db, items, events[..n]), events[n])
    ensures Steps(db, items, events[..0]) == Begin(db, items)
  {
    assert events[..n + 1][..n] == events[..n];
  }

  /** With at least two items the first lock and sum fix the snapshot, and the next ones do not. */
  lemma LocksAndSums(db: State, items: seq<BalanceKey>, seen: seq<Entry>)
    requires |items| == 2
    ensures Step(Step(Begin(db, items), LockNext), SumNext) == RepairTx(db, items, 1, 1, Some(db.entries))
    ensures Step(Step(RepairTx(db, items, 1, 1, Some(seen)), LockNext), SumNext)
            == RepairTx(db, items, 2, 2, Some(seen))
  {
  }

  lemma CreditStep(db: State, c: nat, t: TransferCommand, seen: seq<Entry>)
    requires t.owner != c
    ensures var tx := RepairTx(db, [AvailableRow(c), CONTROL], 1, 1, Some(seen));
            Step(tx, Post(DoCredit(t))) == tx.(db := Next(db, DoCredit(t)))
  {
    hide Next;
    assert [AvailableRow(c), CONTROL][..1] == [AvailableRow(c)];
    assert Wanted(db, DoCredit(t)) == {AvailableRow(t.owner), CONTROL};
  }

  lemma FiveSteps(db: State, items: seq<BalanceKey>, a: RepairEvent, b: RepairEvent, c: RepairEvent, d: RepairEvent,
                  e: RepairEvent)
    ensures Steps(db, items, [a, b, c, d, e]) == Step(Step(Step(Step(Step(Begin(db, items), a), b), c), d), e)
  {
    hide Next, Step, Steps;
    var events := [a, b, c, d, e];
    StepsAt(db, items, events, 0);
    StepsAt(db, items, events, 1);
    StepsAt(db, items, events, 2);
    StepsAt(db, items, events, 3);
    StepsAt(db, items, events, 4);
    assert events[..5] == events;
  }

  lemma CreditSteps(db: State, c: nat, t: TransferCommand)
    requires t.owner != c
    ensures Steps(db, [AvailableRow(c), CONTROL], CreditInBetween(t))
            == RepairTx(Next(db, DoCredit(t)), [AvailableRow(c), CONTROL], 2, 2, Some(db.entries))
  {
    hide Next, Step;
    var items := [AvailableRow(c), CONTROL];
    FiveSteps(db, items, LockNext, SumNext, Post(DoCredit(t)), LockNext, SumNext);
    LocksAndSums(db, items, db.entries);
    CreditStep(db, c, t, db.entries);
    LocksAndSums(Next(db, DoCredit(t)), items, db.entries);
  }

  /** Repairing a customer's row and then the control row loses the credit another customer received in between: the
      control row ends up ahead of its entries by the credited amount. */
  lemma CreditIsLost(db: State, c: nat, t: TransferCommand)
    requires Core(db) && AvailableRow(c) in db.balances && CONTROL in db.balances
    requires t.owner != c && Transfer(db, t, true).Posted?
    ensures var tx := Steps(db, [AvailableRow(c), CONTROL], CreditInBetween(t));
            var repaired := CommitRepair(tx);
            && Finished(tx) && tx.db == Next(db, DoCredit(t)) && t.amount > 0
            && Drift(repaired.balances, repaired.entries, CONTROL) == t.amount && !Inv(repaired)
  {
    var items, e := [AvailableRow(c), CONTROL], CreditInBetween(t);
    CreditMovesControl(db, t);
    CreditSteps(db, c, t);
    MovedIsPosted(db, items, e, CONTROL);
    RepairLoses(db, items, e, CONTROL);
    hide Core, Next, Transfer, Steps, PostedBetween, CommitRepair, EntrySum;
  }
}
