/** Manual adjustments: the order, its posting and the idempotent reply are one database transaction, with the posting
    as a savepoint inside it. */
module Adjustments {
  import opened Machine
  import opened Sums
  import opened LedgerModel
  import opened LedgerInvariant

  datatype AdjustmentStatus = Pending | Executing | Succeeded | Rejection | Failed

  datatype Adjustment = Adjustment(owner: nat, amount: int, credit: bool, status: AdjustmentStatus,
                                   txn: Option<nat>, failure: Option<Error>, note: string)

  datatype Order = Order(owner: nat, amount: int, credit: bool, note: string)

  /** An idempotency key is unique per administrator; the reply names the adjustment it created. */
  datatype Caller = Caller(admin: nat, key: string)

  datatype Reply = Reply(order: Order, id: nat)

  datatype System = System(ledger: State, rows: seq<Adjustment>, replies: map<Caller, Reply>)

  datatype Outcome = Answered(state: System, id: nat, failure: Option<Error>) | Refused(error: Error)

  function Limit(asset: AssetType): int { if asset == Balance then 50000 else 100000 }

  function ActionOf(credit: bool): Action { if credit then Credit else Debit }

  function SourceOf(id: nat): Source { Source(ManualAdjustment, Id(id)) }

  function PostingOf(row: Adjustment, id: nat, caller: Caller, registered: bool): TransferCommand {
    TransferCommand(row.owner, row.amount, SourceOf(id), IdempotencyKey(caller.admin, Given(caller.key)), registered,
                    None, row.note)
  }

  /** Business refusals are recorded on the adjustment; any other error rolls the whole transaction back. */
  predicate Recorded(e: Error) {
    e == InsufficientAvailable || e == AmountInvalid || e == AmountOverflow || e == AssetTypeInvalid
        || e == SourceNotAllowed || e == MemberNotFound
  }

  function SetRow(s: System, id: nat, row: Adjustment): System
    requires id < |s.rows|
  {
    s.(rows := s.rows[id := row])
  }

  /** Executes a pending or interrupted adjustment. */
  function Execute(s: System, id: nat, caller: Caller, registered: bool): Outcome
    requires id < |s.rows|
  {
    var row := s.rows[id];
    match Transfer(s.ledger, PostingOf(row, id, caller, registered), row.credit)
    case Posted(st) =>
      Answered(SetRow(s.(ledger := st), id, row.(status := Succeeded, txn := Some(|s.ledger.txns|), failure := None)),
               id, None)
    case Replayed(t) => Answered(SetRow(s, id, row.(status := Succeeded, txn := Some(t), failure := None)), id, None)
    case Skipped => Refused(RowMissing)
    case Rejected(e) =>
      if Recorded(e) then Answered(SetRow(s, id, row.(status := Failed, failure := Some(e))), id, Some(e))
      else Refused(e)
  }

  function Submit(s: System, caller: Caller, order: Order, registered: bool): Outcome {
    if order.amount <= 0 || order.amount > Limit(s.ledger.asset) then Refused(AmountInvalid)
    else if caller in s.replies then
      var reply := s.replies[caller];
      if reply.order != order || reply.id >= |s.rows| then Refused(IdempotencyConflict)
      else
        (match s.rows[reply.id].status
         case Succeeded => Answered(s, reply.id, None)
         case Rejection => Answered(s, reply.id, None)
         case Failed => Answered(s, reply.id, s.rows[reply.id].failure)
         case _ => Execute(s, reply.id, caller, registered))
    else if !registered then Refused(MemberNotFound)
    else
      var id := |s.rows|;
      Execute(s.(rows :=
                 s.rows + [Adjustment(order.owner, order.amount, order.credit, Pending, None, None, order.note)],
                 replies := s.replies[caller := Reply(order, id)]),
              id, caller, registered)
  }

  datatype Event = DoSubmit(caller: Caller, order: Order, registered: bool) | Post(cmd: Command)

  /** Direct credits and debits of other callers carry other sources. */
  predicate Foreign(cmd: Command) {
    match cmd
    case DoCredit(t) => t.source.kind != ManualAdjustment
    case DoDebit(t) => t.source.kind != ManualAdjustment
    case _ => true
  }

  function Fire(s: System, e: Event): System {
    match e
    case DoSubmit(caller, order, registered) =>
      (match Submit(s, caller, order, registered)
       case Answered(s', _, _) => s'
       case Refused(_) => s)
    case Post(cmd) => if Foreign(cmd) then s.(ledger := Next(s.ledger, cmd)) else s
  }

  function Trace(s: System, events: seq<Event>): System {
    if events == [] then s else Fire(Trace(s, events[..|events| - 1]), events[|events| - 1])
  }

  // ----- the invariant

  /** The transaction is the posting of adjustment `id`. */
  predicate IsPosting(t: Transaction, rows: seq<Adjustment>, id: nat) {
    id < |rows| && t.source == SourceOf(id) && t.action == ActionOf(rows[id].credit) && t.owner == rows[id].owner
        && t.amount == rows[id].amount
  }

  predicate Direct(t: Transaction) { t.source.kind == ManualAdjustment && (t.action == Credit || t.action == Debit) }

  /** Every direct posting belongs to a succeeded adjustment that links to it. */
  predicate PostingsOk(txns: seq<Transaction>, rows: seq<Adjustment>) {
    forall k: nat :: k < |txns| && Direct(txns[k]) ==>
      txns[k].source.id.Id? && LinksTo(txns, rows, txns[k].source.id.n, k)
  }

  predicate LinksTo(txns: seq<Transaction>, rows: seq<Adjustment>, id: nat, k: nat) {
    k < |txns| && IsPosting(txns[k], rows, id) && rows[id].status == Succeeded && rows[id].txn == Some(k)
  }

  predicate RowOk(txns: seq<Transaction>, rows: seq<Adjustment>, id: nat)
    requires id < |rows|
  {
    if rows[id].status == Succeeded then rows[id].txn.Some? && LinksTo(txns, rows, id, rows[id].txn.value)
    else rows[id].txn.None?
  }

  ghost predicate Ok(s: System) {
    Core(s.ledger) && PostingsOk(s.ledger.txns, s.rows)
        && forall id: nat :: id < |s.rows| ==> RowOk(s.ledger.txns, s.rows, id)
  }

  predicate Appends(st: State, st': State) {
    |st.txns| <= |st'.txns| <= |st.txns| + 1 && forall k: nat :: k < |st.txns| ==> st'.txns[k] == st.txns[k]
  }

  lemma ForeignAppends(st: State, cmd: Command)
    requires Foreign(cmd)
    ensures Appends(st, Next(st, cmd))
    ensures |Next(st, cmd).txns| > |st.txns| ==> !Direct(Next(st, cmd).txns[|st.txns|])
  {
    hide Take, SettleParts, FefoOrder, OpenParts, EnsureAccounts, Sum, FindTxn, FindHold;
  }

  lemma PostKeeps(s: System, cmd: Command)
    requires Ok(s) && Foreign(cmd)
    ensures Ok(s.(ledger := Next(s.ledger, cmd)))
  {
    ForeignAppends(s.ledger, cmd);
    StepKeepsCore(s.ledger, cmd);
    hide Core, Next, LinksTo, IsPosting;
    var txns := Next(s.ledger, cmd).txns;
    forall id: nat | id < |s.rows| ensures RowOk(txns, s.rows, id) {
      assert RowOk(s.ledger.txns, s.rows, id);
      if s.rows[id].status == Succeeded { LinkStays(s.ledger.txns, txns, s.rows, id, s.rows[id].txn.value); }
    }
    forall k: nat | k < |txns| && Direct(txns[k])
      ensures txns[k].source.id.Id? && LinksTo(txns, s.rows, txns[k].source.id.n, k)
    {
      assert txns[k] == s.ledger.txns[k] && LinksTo(s.ledger.txns, s.rows, txns[k].source.id.n, k);
      LinkStays(s.ledger.txns, txns, s.rows, txns[k].source.id.n, k);
    }
  }

  lemma LinkStays(txns: seq<Transaction>, txns': seq<Transaction>, rows: seq<Adjustment>, id: nat, k: nat)
    requires LinksTo(txns, rows, id, k) && |txns| <= |txns'| && txns'[k] == txns[k]
    ensures LinksTo(txns', rows, id, k)
  {
  }

  /** Only a succeeded adjustment has been posted, so executing an unfinished one is never a replay. */
  lemma PostedMeansSucceeded(s: System, id: nat)
    requires Ok(s) && id < |s.rows|
    ensures FindTxn(s.ledger.txns, SourceOf(id), ActionOf(s.rows[id].credit)).Some? ==> s.rows[id].status == Succeeded
    ensures s.rows[id].status != Succeeded ==> s.rows[id].txn.None?
    ensures Core(s.ledger)
  {
    hide Core;
    assert RowOk(s.ledger.txns, s.rows, id);
    var found := FindTxn(s.ledger.txns, SourceOf(id), ActionOf(s.rows[id].credit));
    if found.Some? {
      assert Direct(s.ledger.txns[found.value]) && LinksTo(s.ledger.txns, s.rows, id, found.value);
    }
  }

  lemma TransferAppends(st: State, cmd: TransferCommand, credit: bool)
    requires Transfer(st, cmd, credit).Posted?
    ensures Transfer(st, cmd, credit).state.txns
         == st.txns + [Transaction(cmd.source, ActionOf(credit), cmd.owner, cmd.amount, None, cmd.key, RequestOf(cmd))]
  {
    hide Take, FefoOrder, EnsureAccounts, FindTxn;
  }

  lemma NeverReplayed(st: State, cmd: TransferCommand, credit: bool)
    requires FindTxn(st.txns, cmd.source, ActionOf(credit)).None?
    ensures !Transfer(st, cmd, credit).Replayed?
  {
    hide Take, FefoOrder, EnsureAccounts, FindTxn;
  }

  lemma ExecuteKeeps(s: System, id: nat, caller: Caller, registered: bool)
    requires Ok(s) && id < |s.rows| && s.rows[id].status != Succeeded && Execute(s, id, caller, registered).Answered?
    ensures Ok(Execute(s, id, caller, registered).state)
  {
    hide Ok, Core, Transfer, FindTxn;
    var row := s.rows[id];
    var cmd := PostingOf(row, id, caller, registered);
    var s' := Execute(s, id, caller, registered).state;
    PostedMeansSucceeded(s, id);
    NeverReplayed(s.ledger, cmd, row.credit);
    if Transfer(s.ledger, cmd, row.credit).Posted? {
      StepKeepsCore(s.ledger, if row.credit then DoCredit(cmd) else DoDebit(cmd));
      TransferAppends(s.ledger, cmd, row.credit);
    }
    RowsFollow(s, s', id);
  }

  /** Only the executed row changes; a new posting is the one it links to. */
  lemma RowsFollow(s: System, s': System, id: nat)
    requires Ok(s) && Core(s'.ledger) && id < |s.rows| && s.rows[id].status != Succeeded && Appends(s.ledger, s'.ledger)
    requires |s'.rows| == |s.rows| && (forall d: nat :: d < |s.rows| && d != id ==> s'.rows[d] == s.rows[d])
    requires s'.rows[id].owner == s.rows[id].owner && s'.rows[id].amount == s.rows[id].amount
             && s'.rows[id].credit == s.rows[id].credit
    requires if |s'.ledger.txns| > |s.ledger.txns| then LinksTo(s'.ledger.txns, s'.rows, id, |s.ledger.txns|)
             else s'.rows[id].status != Succeeded && s'.rows[id].txn.None?
    ensures Ok(s')
  {
    hide Core;
    forall d: nat | d < |s'.rows| ensures RowOk(s'.ledger.txns, s'.rows, d) {
      assert RowOk(s.ledger.txns, s.rows, d);
    }
    forall k: nat | k < |s'.ledger.txns| && Direct(s'.ledger.txns[k])
      ensures s'.ledger.txns[k].source.id.Id? && LinksTo(s'.ledger.txns, s'.rows, s'.ledger.txns[k].source.id.n, k)
    {
      if k < |s.ledger.txns| {
        assert s'.ledger.txns[k] == s.ledger.txns[k];
        assert LinksTo(s.ledger.txns, s.rows, s.ledger.txns[k].source.id.n, k);
      }
    }
  }

  lemma CreatedOk(s: System, row: Adjustment, replies: map<Caller, Reply>)
    requires Ok(s) && row.status == Pending && row.txn.None?
    ensures Ok(s.(rows := s.rows + [row], replies := replies))
  {
    hide Core;
    var s' := s.(rows := s.rows + [row], replies := replies);
    forall d: nat | d < |s'.rows| ensures RowOk(s'.ledger.txns, s'.rows, d) {
      if d < |s.rows| { assert RowOk(s.ledger.txns, s.rows, d); }
    }
    forall k: nat | k < |s.ledger.txns| && Direct(s.ledger.txns[k])
      ensures s.ledger.txns[k].source.id.Id? && LinksTo(s'.ledger.txns, s'.rows, s.ledger.txns[k].source.id.n, k)
    {
      assert LinksTo(s.ledger.txns, s.rows, s.ledger.txns[k].source.id.n, k);
    }
  }

  lemma SubmitKeeps(s: System, caller: Caller, order: Order, registered: bool)
    requires Ok(s) && Submit(s, caller, order, registered).Answered?
    ensures Ok(Submit(s, caller, order, registered).state)
  {
    hide Ok, Execute;
    if caller in s.replies {
      var id := s.replies[caller].id;
      if s.rows[id].status == Pending || s.rows[id].status == Executing {
        ExecuteKeeps(s, id, caller, registered);
      }
    } else {
      var row := Adjustment(order.owner, order.amount, order.credit, Pending, None, None, order.note);
      var replies := s.replies[caller := Reply(order, |s.rows|)];
      CreatedOk(s, row, replies);
      ExecuteKeeps(s.(rows := s.rows + [row], replies := replies), |s.rows|, caller, registered);
    }
  }

  /** In every run a succeeded adjustment links to its own posting, with its owner, direction and amount, and every
      direct posting is the one of a succeeded adjustment; unfinished orders from before are taken up like new ones. */
  lemma {:induction false} TraceKeeps(s: System, events: seq<Event>)
    requires Ok(s)
    ensures Ok(Trace(s, events))
  {
    if events != [] {
      hide Ok, Submit, Next;
      var n := |events| - 1;
      TraceKeeps(s, events[..n]);
      var mid := Trace(s, events[..n]);
      match events[n]
      case DoSubmit(caller, order, registered) =>
        if Submit(mid, caller, order, registered).Answered? { SubmitKeeps(mid, caller, order, registered); }
      case Post(cmd) => if Foreign(cmd) { PostKeeps(mid, cmd); }
    }
  }

  /** What the transactions credit (or, negative, debit) directly for adjustment `id`. */
  function PostedFor(id: nat): Transaction -> int {
    (t: Transaction) => if Direct(t) && t.source == SourceOf(id)
        then (if t.action == Credit then t.amount else -t.amount) else 0
  }

  function Owed(row: Adjustment): int {
    if row.status != Succeeded then 0 else if row.credit then row.amount else -row.amount
  }

  lemma {:induction false} PostedUpTo(txns: seq<Transaction>, rows: seq<Adjustment>, id: nat, n: nat)
    requires PostingsOk(txns, rows) && id < |rows| && RowOk(txns, rows, id) && n <= |txns|
    ensures Sum(PostedFor(id), txns[..n]) == if rows[id].txn.Some? && rows[id].txn.value < n then Owed(rows[id]) else 0
  {
    if n > 0 {
      PostedUpTo(txns, rows, id, n - 1);
      assert txns[..n] == txns[..n - 1] + [txns[n - 1]];
      SumSnoc(PostedFor(id), txns[..n - 1], txns[n - 1]);
      hide Sum;
      if Direct(txns[n - 1]) && txns[n - 1].source == SourceOf(id) {
        assert LinksTo(txns, rows, id, n - 1);
      } else if rows[id].txn.Some? {
        assert LinksTo(txns, rows, id, rows[id].txn.value);
      }
    }
  }

  /** In every run an adjustment has moved exactly its amount once if it succeeded, and nothing otherwise. */
  lemma PostedExactlyOnce(s: System, events: seq<Event>, id: nat)
    requires Ok(s) && id < |Trace(s, events).rows|
    ensures var t := Trace(s, events); Sum(PostedFor(id), t.ledger.txns) == Owed(t.rows[id])
  {
    TraceKeeps(s, events);
    var t := Trace(s, events);
    assert RowOk(t.ledger.txns, t.rows, id);
    PostedUpTo(t.ledger.txns, t.rows, id, |t.ledger.txns|);
    assert t.ledger.txns[..|t.ledger.txns|] == t.ledger.txns;
  }

  /** Submitting again under the same key, whatever was posted in between, touches nothing and gives the same answer. */
  lemma SubmitTwice(s: System, caller: Caller, order: Order, registered: bool, later: seq<Event>, again: bool)
    requires Ok(s) && Submit(s, caller, order, registered).Answered?
    ensures var first := Submit(s, caller, order, registered);
            var mid := Trace(first.state, later);
            first.id < |mid.rows| && Submit(mid, caller, order, again) == Answered(mid, first.id, first.failure)
  {
    var first := Submit(s, caller, order, registered);
    SubmitRecords(s, caller, order, registered);
    FinishedStays(first.state, caller, first.id, later);
    hide Transfer;
  }

  predicate Finished(row: Adjustment) { row.status == Succeeded || row.status == Rejection || row.status == Failed }

  predicate Recalls(s: System, caller: Caller, id: nat) {
    caller in s.replies && s.replies[caller].id == id && id < |s.rows| && Finished(s.rows[id])
  }

  lemma NextAsset(st: State, cmd: Command)
    ensures Next(st, cmd).asset == st.asset
  {
    hide Take, SettleParts, FefoOrder, OpenParts, EnsureAccounts, Sum, FindTxn, FindHold;
  }

  /** What an execution leaves on the order, whichever way it ends. */
  lemma ExecuteFinishes(s: System, id: nat, caller: Caller, registered: bool)
    requires id < |s.rows| && Execute(s, id, caller, registered).Answered?
    ensures var o := Execute(s, id, caller, registered);
            && o.id == id && |o.state.rows| == |s.rows| && o.state.replies == s.replies
               && o.state.ledger.asset == s.ledger.asset
            && (forall d: nat :: d < |s.rows| && d != id ==> o.state.rows[d] == s.rows[d])
            && Finished(o.state.rows[id])
            && o.failure == if o.state.rows[id].status == Failed then o.state.rows[id].failure else None
  {
    var row := s.rows[id];
    NextAsset(s.ledger, if row.credit then DoCredit(PostingOf(row, id, caller, registered))
              else DoDebit(PostingOf(row, id, caller, registered)));
    hide Transfer;
  }

  lemma SubmitRecords(s: System, caller: Caller, order: Order, registered: bool)
    requires Submit(s, caller, order, registered).Answered?
    ensures var first := Submit(s, caller, order, registered);
            && Recalls(first.state, caller, first.id) && first.state.replies[caller].order == order
            && first.state.ledger.asset == s.ledger.asset && 0 < order.amount <= Limit(s.ledger.asset)
            && first.failure == if first.state.rows[first.id].status == Failed then first.state.rows[first.id].failure
               else None
  {
    hide Execute;
    if caller in s.replies {
      var id := s.replies[caller].id;
      if !Finished(s.rows[id]) { ExecuteFinishes(s, id, caller, registered); }
    } else {
      var row := Adjustment(order.owner, order.amount, order.credit, Pending, None, None, order.note);
      ExecuteFinishes(s.(rows := s.rows + [row], replies := s.replies[caller := Reply(order, |s.rows|)]), |s.rows|,
                      caller, registered);
    }
  }

  lemma FinishedStep(s: System, caller: Caller, id: nat, e: Event)
    requires Recalls(s, caller, id)
    ensures var t := Fire(s, e);
            Recalls(t, caller, id) && t.rows[id] == s.rows[id] && t.replies[caller] == s.replies[caller]
                && t.ledger.asset == s.ledger.asset
  {
    hide Execute, Next;
    match e
    case Post(cmd) => NextAsset(s.ledger, cmd);
    case DoSubmit(c, order, registered) =>
      if Submit(s, c, order, registered).Answered? {
        if c in s.replies {
          if !Finished(s.rows[s.replies[c].id]) { ExecuteFinishes(s, s.replies[c].id, c, registered); }
        } else {
          var row := Adjustment(order.owner, order.amount, order.credit, Pending, None, None, order.note);
          ExecuteFinishes(s.(rows := s.rows + [row], replies := s.replies[c := Reply(order, |s.rows|)]), |s.rows|, c,
                          registered);
        }
      }
  }

  lemma {:induction false} FinishedStays(s: System, caller: Caller, id: nat, events: seq<Event>)
    requires Recalls(s, caller, id)
    ensures var t := Trace(s, events);
            Recalls(t, caller, id) && t.rows[id] == s.rows[id] && t.replies[caller] == s.replies[caller]
                && t.ledger.asset == s.ledger.asset
  {
    if events != [] {
      hide Fire;
      var n := |events| - 1;
      FinishedStays(s, caller, id, events[..n]);
      FinishedStep(Trace(s, events[..n]), caller, id, events[n]);
    }
  }

  // ----- what a submission is answered

  /** A new order is answered only within its asset's limit and for a registered customer. It then adds one row with
      what
      was ordered: succeeded with its posting, or failed with the refusal and without one; and the same key with another
      order is refused. */
  lemma NewOrder(s: System, caller: Caller, order: Order, registered: bool)
    requires caller !in s.replies && Submit(s, caller, order, registered).Answered?
    ensures var r := Submit(s, caller, order, registered);
            && 1 <= order.amount <= (if s.ledger.asset == Balance then 50000 else 100000) && registered
            && r.id == |s.rows| && |r.state.rows| == |s.rows| + 1 && r.state.rows[..|s.rows|] == s.rows
            && r.state.replies == s.replies[caller := Reply(order, |s.rows|)]
            && var row := r.state.rows[|s.rows|];
               && row.owner == order.owner && row.amount == order.amount && row.credit == order.credit
                  && row.note == order.note
               && row.failure == r.failure && (row.status == if r.failure.None? then Succeeded else Failed)
               && (r.failure.Some? ==>
                     && row.txn.None? && r.state.ledger == s.ledger
                     && r.failure.value in {InsufficientAvailable, AmountInvalid, AmountOverflow, AssetTypeInvalid,
                                            SourceNotAllowed, MemberNotFound})
  {
    hide Transfer;
  }

  lemma OtherOrder(s: System, caller: Caller, order: Order, registered: bool)
    requires caller in s.replies && s.replies[caller].order != order
    ensures Submit(s, caller, order, registered).Refused? && Fire(s, DoSubmit(caller, order, registered)) == s
  {
    hide Transfer;
  }

  /** In every run no adjustment is for more than its asset's limit. */
  predicate Limited(s: System) {
    forall id :: 0 <= id < |s.rows| ==> 1 <= s.rows[id].amount <= (if s.ledger.asset == Balance then 50000 else 100000)
  }

  lemma StepKeepsLimits(s: System, e: Event)
    requires Limited(s)
    ensures Limited(Fire(s, e))
  {
    match e
    case DoSubmit(caller, order, registered) =>
      SubmitAsset(s, caller, order, registered);
      if Submit(s, caller, order, registered).Answered? { SubmitAmounts(s, caller, order, registered); }
      hide Submit;
    case Post(cmd) =>
      NextAsset(s.ledger, cmd);
      hide Next;
  }

  lemma ExecuteAmounts(s: System, id: nat, caller: Caller, registered: bool)
    requires id < |s.rows| && Execute(s, id, caller, registered).Answered?
    ensures var rows := Execute(s, id, caller, registered).state.rows;
            |rows| == |s.rows| && forall j :: 0 <= j < |rows| ==> rows[j].amount == s.rows[j].amount
  {
    hide Transfer;
  }

  lemma SubmitAmounts(s: System, caller: Caller, order: Order, registered: bool)
    requires Submit(s, caller, order, registered).Answered?
    ensures var rows := Submit(s, caller, order, registered).state.rows;
            && |s.rows| <= |rows| <= |s.rows| + 1
               && (forall j :: 0 <= j < |s.rows| ==> rows[j].amount == s.rows[j].amount)
            && 1 <= order.amount <= (if s.ledger.asset == Balance then 50000 else 100000)
            && (|rows| > |s.rows| ==> rows[|s.rows|].amount == order.amount)
  {
    hide Execute;
    if caller in s.replies {
      var id := s.replies[caller].id;
      if Execute(s, id, caller, registered).Answered? { ExecuteAmounts(s, id, caller, registered); }
    } else {
      var id := |s.rows|;
      var row := Adjustment(order.owner, order.amount, order.credit, Pending, None, None, order.note);
      var next := s.(rows := s.rows + [row], replies := s.replies[caller := Reply(order, id)]);
      if Execute(next, id, caller, registered).Answered? { ExecuteAmounts(next, id, caller, registered); }
    }
  }

  lemma SubmitAsset(s: System, caller: Caller, order: Order, registered: bool)
    ensures Fire(s, DoSubmit(caller, order, registered)).ledger.asset == s.ledger.asset
  {
    hide Execute;
    if Submit(s, caller, order, registered).Answered? {
      if caller in s.replies {
        var id := s.replies[caller].id;
        if Execute(s, id, caller, registered).Answered? { ExecuteFinishes(s, id, caller, registered); }
      } else {
        var row := Adjustment(order.owner, order.amount, order.credit, Pending, None, None, order.note);
        var next := s.(rows := s.rows + [row], replies := s.replies[caller := Reply(order, |s.rows|)]);
        ExecuteFinishes(next, |s.rows|, caller, registered);
      }
    }
  }

  lemma {:induction false} RunKeepsLimits(s: System, events: seq<Event>)
    requires Limited(s)
    ensures Limited(Trace(s, events))
  {
    if events != [] {
      hide Limited, Fire;
      RunKeepsLimits(s, events[..|events| - 1]);
      StepKeepsLimits(Trace(s, events[..|events| - 1]), events[|events| - 1]);
    }
  }
}
