/** Issuing compensations: any number of workers, each of which may crash or fall behind its lease between
    claiming a row, crediting the ledger and marking the row. */
module CompensationWorker {
  import opened Sums
  import opened Ordering
  import opened Machine
  import opened LedgerModel
  import opened LedgerInvariant

  const LEASE: int := 30

  datatype CompStatus = Approved | Issuing | Issued | Failed

  datatype Compensation = Compensation(no: string, owner: nat, amount: int, assetType: string, status: CompStatus,
                                       txn: Option<nat>, lockedUntil: Option<Time>, nextRetry: Option<Time>,
                                       attempts: nat)

  /** `Refused` is a worker whose credit returned an error and that has not yet written so. */
  datatype Worker = Free | Claimed(comp: nat) | Credited(comp: nat, txn: nat) | Refused(comp: nat)

  datatype System = System(ledger: State, comps: seq<Compensation>, workers: seq<Worker>)

  /** What a worker hears of its credit: its outcome, an error although it committed, or an error before it ran. */
  datatype Reply = Heard | Lost | NotRun

  datatype Event =
    | Create(row: Compensation)
    | Post(cmd: Command)
    | Claim(worker: nat, comp: nat, now: Time)
    | Issue(worker: nat, registered: bool, reply: Reply)
    | MarkIssued(worker: nat)
    | MarkRefused(worker: nat, retryAt: Time)
    | Crash(worker: nat)

  predicate Elapsed(t: Option<Time>, now: Time) { t.None? || t.value <= now }

  predicate Claimable(c: Compensation, now: Time) {
    (c.status == Approved || c.status == Issuing) && Elapsed(c.nextRetry, now) && Elapsed(c.lockedUntil, now)
  }

  /** The asset type this worker can issue. */
  predicate Issuable(c: Compensation) { c.assetType == "balance" && c.amount > 0 }

  function CreditCommand(comps: seq<Compensation>, c: nat, registered: bool): TransferCommand
    requires c < |comps|
  {
    TransferCommand(comps[c].owner, comps[c].amount, Source(SourceType.Compensation, Id(c)),
                    IdempotencyKey(SYSTEM, Given("compensation-" + comps[c].no)), registered, None, comps[c].no)
  }

  function Claim1(c: Compensation, now: Time): Compensation {
    c.(status := Issuing, lockedUntil := Some(now + LEASE), attempts := c.attempts + 1)
  }

  /** Written whatever the row's status is by now. */
  function Invalid(c: Compensation): Compensation { c.(status := Failed, lockedUntil := None) }

  /** Written whatever the row's status is by now. */
  function RetryLater(c: Compensation, at: Time): Compensation {
    c.(status := Approved, nextRetry := Some(at), lockedUntil := None)
  }

  /** Written only to a row that is being issued. */
  function MarkedIssued(c: Compensation, txn: nat): Compensation {
    if c.status == Issuing then c.(status := Issued, txn := Some(txn), nextRetry := None, lockedUntil := None) else c
  }

  /** The transactions of other callers do not use this worker's source. */
  predicate Foreign(cmd: Command) {
    match cmd
    case DoCredit(t) => t.source.kind != SourceType.Compensation
    case DoDebit(t) => t.source.kind != SourceType.Compensation
    case DoReverse(r) => true
    case DoFreeze(f) => true
    case DoCommit(h, _) => h.source.kind != SourceType.Compensation
    case DoRelease(h, _) => h.source.kind != SourceType.Compensation
    case DoExpireHold(_, _) => true
    case DoExpireLot(_, _) => true
  }

  function With(s: System, w: nat, worker: Worker): System
    requires w < |s.workers|
  {
    s.(workers := s.workers[w := worker])
  }

  function Row(s: System, c: nat, row: Compensation): System
    requires c < |s.comps|
  {
    s.(comps := s.comps[c := row])
  }

  function Fire(s: System, e: Event): System {
    match e
    case Create(row) =>
      if row.status == Approved && row.txn.None? then s.(comps := s.comps + [row]) else s
    case Post(cmd) =>
      if Foreign(cmd) then s.(ledger := Next(s.ledger, cmd)) else s
    case Claim(w, c, now) =>
      if w < |s.workers| && s.workers[w].Free? && c < |s.comps| && Claimable(s.comps[c], now)
      then Row(With(s, w, Claimed(c)), c, Claim1(s.comps[c], now)) else s
    case Issue(w, registered, reply) =>
      if w >= |s.workers| || !s.workers[w].Claimed? || s.workers[w].comp >= |s.comps| then s
      else
        var c := s.workers[w].comp;
        if !Issuable(s.comps[c]) then Row(With(s, w, Free), c, Invalid(s.comps[c]))
        else if reply == NotRun then With(s, w, Refused(c))
        else
          (match Transfer(s.ledger, CreditCommand(s.comps, c, registered), true)
           case Posted(st) =>
             With(s, w, if reply == Heard then Credited(c, |s.ledger.txns|) else Refused(c)).(ledger := st)
           case Replayed(t) => With(s, w, if reply == Heard then Credited(c, t) else Refused(c))
           case _ => With(s, w, Refused(c)))
    case MarkIssued(w) =>
      if w < |s.workers| && s.workers[w].Credited? && s.workers[w].comp < |s.comps|
      then Row(With(s, w, Free), s.workers[w].comp, MarkedIssued(s.comps[s.workers[w].comp], s.workers[w].txn)) else s
    case MarkRefused(w, at) =>
      if w < |s.workers| && s.workers[w].Refused? && s.workers[w].comp < |s.comps|
      then Row(With(s, w, Free), s.workers[w].comp, RetryLater(s.comps[s.workers[w].comp], at)) else s
    case Crash(w) =>
      if w < |s.workers| then With(s, w, Free) else s
  }

  function Trace(s: System, events: seq<Event>): System {
    if events == [] then s else Fire(Trace(s, events[..|events| - 1]), events[|events| - 1])
  }

  function Start(workers: nat): System {
    System(Empty(Balance), [], seq(workers, _ => Free))
  }

  // ----- the invariant

  predicate IsCreditFor(t: Transaction, comps: seq<Compensation>, c: nat) {
    && c < |comps| && Issuable(comps[c]) && t.source == Source(SourceType.Compensation, Id(c)) && t.action == Credit
    && t.owner == comps[c].owner && t.amount == comps[c].amount <= MAX_INT64 / 2
    && t.request == RequestOf(CreditCommand(comps, c, true))
  }

  /** Every transaction under this worker's source is the credit of an issuable compensation. */
  predicate CreditsOk(txns: seq<Transaction>, comps: seq<Compensation>) {
    forall k: nat :: k < |txns| && txns[k].source.kind == SourceType.Compensation ==>
      txns[k].source.id.Id? && IsCreditFor(txns[k], comps, txns[k].source.id.n)
  }

  predicate LinkOk(txns: seq<Transaction>, comps: seq<Compensation>, c: nat, t: nat) {
    t < |txns| && IsCreditFor(txns[t], comps, c)
  }

  predicate RowOk(txns: seq<Transaction>, comps: seq<Compensation>, c: nat)
    requires c < |comps|
  {
    && (comps[c].txn.Some? ==> LinkOk(txns, comps, c, comps[c].txn.value))
    && (comps[c].status == Issued ==> comps[c].txn.Some?)
  }

  predicate WorkerOk(txns: seq<Transaction>, comps: seq<Compensation>, w: Worker) {
    match w
    case Free => true
    case Claimed(c) => c < |comps|
    case Credited(c, t) => LinkOk(txns, comps, c, t)
    case Refused(c) => c < |comps|
  }

  ghost predicate Ok(s: System) {
    && Core(s.ledger) && s.ledger.asset == Balance
    && CreditsOk(s.ledger.txns, s.comps)
    && (forall c: nat :: c < |s.comps| ==> RowOk(s.ledger.txns, s.comps, c))
    && (forall w: nat :: w < |s.workers| ==> WorkerOk(s.ledger.txns, s.comps, s.workers[w]))
  }

  /** Rows keep their owner, amount, type and number. */
  predicate SameRow(a: Compensation, b: Compensation) {
    a.no == b.no && a.owner == b.owner && a.amount == b.amount && a.assetType == b.assetType
  }

  predicate RowsGrow(comps: seq<Compensation>, comps': seq<Compensation>) {
    |comps| <= |comps'| && forall c: nat :: c < |comps| ==> SameRow(comps[c], comps'[c])
  }

  predicate TxnsGrow(txns: seq<Transaction>, txns': seq<Transaction>) {
    |txns| <= |txns'| && forall k: nat :: k < |txns| ==> txns'[k] == txns[k]
  }

  lemma LinkStays(txns: seq<Transaction>, txns': seq<Transaction>, comps: seq<Compensation>, comps': seq<Compensation>,
                  c: nat, t: nat)
    requires LinkOk(txns, comps, c, t) && RowsGrow(comps, comps') && TxnsGrow(txns, txns')
    ensures LinkOk(txns', comps', c, t)
  {
    assert SameRow(comps[c], comps'[c]);
  }

  /** An accepted command adds one transaction, under the source it was given. */
  predicate AddsOne(st: State, st': State, foreign: bool) {
    && TxnsGrow(st.txns, st'.txns) && |st'.txns| <= |st.txns| + 1 && st'.asset == st.asset
    && (foreign && |st'.txns| > |st.txns| ==> st'.txns[|st.txns|].source.kind != SourceType.Compensation)
  }

  lemma StepAddsOne(st: State, cmd: Command)
    ensures AddsOne(st, Next(st, cmd), Foreign(cmd))
  {
    hide Take, SettleParts, FefoOrder, OpenParts, EnsureAccounts, Sum, FindTxn, FindHold;
  }

  lemma AllLinksStay(s: System, s': System, c: nat)
    requires Ok(s) && c < |s.comps| && RowsGrow(s.comps, s'.comps) && TxnsGrow(s.ledger.txns, s'.ledger.txns)
    ensures s.comps[c].txn.Some? ==> LinkOk(s'.ledger.txns, s'.comps, c, s.comps[c].txn.value)
    ensures s.comps[c].status == Issued ==> s.comps[c].txn.Some?
  {
    assert RowOk(s.ledger.txns, s.comps, c);
    if s.comps[c].txn.Some? { LinkStays(s.ledger.txns, s'.ledger.txns, s.comps, s'.comps, c, s.comps[c].txn.value); }
  }

  lemma WorkerStays(s: System, s': System, w: nat)
    requires Ok(s) && w < |s.workers| && RowsGrow(s.comps, s'.comps) && TxnsGrow(s.ledger.txns, s'.ledger.txns)
    ensures WorkerOk(s'.ledger.txns, s'.comps, s.workers[w])
  {
    assert WorkerOk(s.ledger.txns, s.comps, s.workers[w]);
    if s.workers[w].Credited? {
      LinkStays(s.ledger.txns, s'.ledger.txns, s.comps, s'.comps, s.workers[w].comp, s.workers[w].txn);
    }
  }

  lemma CreditsStay(txns: seq<Transaction>, txns': seq<Transaction>, comps: seq<Compensation>,
                    comps': seq<Compensation>)
    requires CreditsOk(txns, comps) && RowsGrow(comps, comps') && TxnsGrow(txns, txns') && |txns'| <= |txns| + 1
    requires |txns'| > |txns| && txns'[|txns|].source.kind == SourceType.Compensation ==>
               txns'[|txns|].source.id.Id? && IsCreditFor(txns'[|txns|], comps', txns'[|txns|].source.id.n)
    ensures CreditsOk(txns', comps')
  {
    forall k: nat | k < |txns'| && txns'[k].source.kind == SourceType.Compensation
      ensures txns'[k].source.id.Id? && IsCreditFor(txns'[k], comps', txns'[k].source.id.n)
    {
      if k < |txns| {
        assert txns'[k] == txns[k] && IsCreditFor(txns[k], comps, txns[k].source.id.n);
        assert SameRow(comps[txns[k].source.id.n], comps'[txns[k].source.id.n]);
      }
    }
  }

  /** Steps that leave the ledger alone and touch at most one row and one worker. */
  lemma RowStep(s: System, s': System, c: nat, w: nat)
    requires Ok(s) && s'.ledger == s.ledger && RowsGrow(s.comps, s'.comps) && |s'.comps| == |s.comps|
    requires w < |s.workers| && |s'.workers| == |s.workers|
             && (forall v: nat :: v < |s.workers| && v != w ==> s'.workers[v] == s.workers[v])
    requires c < |s.comps| && (forall d: nat :: d < |s.comps| && d != c ==> s'.comps[d] == s.comps[d])
    requires s'.comps[c].txn == s.comps[c].txn
             || (s'.comps[c].txn.Some? && LinkOk(s.ledger.txns, s.comps, c, s'.comps[c].txn.value))
    requires s'.comps[c].status == Issued ==> s.comps[c].status == Issued || s'.comps[c].txn.Some?
    requires s'.comps[c].txn.None? ==> s.comps[c].txn.None?
    requires s'.workers[w] == Free || s'.workers[w] == Claimed(c) || s'.workers[w] == Refused(c)
             || s'.workers[w] == s.workers[w]
             || (s'.workers[w].Credited? && LinkOk(s.ledger.txns, s.comps, s'.workers[w].comp, s'.workers[w].txn))
    ensures Ok(s')
  {
    hide Core, LinkOk, CreditsOk;
    CreditsStay(s.ledger.txns, s.ledger.txns, s.comps, s'.comps);
    forall d: nat | d < |s'.comps| ensures RowOk(s'.ledger.txns, s'.comps, d) {
      AllLinksStay(s, s', d);
      if d == c && s'.comps[c].txn != s.comps[c].txn {
        LinkStays(s.ledger.txns, s.ledger.txns, s.comps, s'.comps, c, s'.comps[c].txn.value);
      }
    }
    forall v: nat | v < |s'.workers| ensures WorkerOk(s'.ledger.txns, s'.comps, s'.workers[v]) {
      WorkerStays(s, s', v);
      if s'.workers[v].Credited? && s'.workers[v] != s.workers[v] {
        LinkStays(s.ledger.txns, s.ledger.txns, s.comps, s'.comps, s'.workers[v].comp, s'.workers[v].txn);
      }
    }
  }

  /** Steps of the ledger: at most one worker moves, to a credit that is there or to an error. */
  lemma LedgerStep(s: System, s': System, w: nat)
    requires Ok(s) && Core(s'.ledger) && s'.ledger.asset == Balance && s'.comps == s.comps
    requires TxnsGrow(s.ledger.txns, s'.ledger.txns) && CreditsOk(s'.ledger.txns, s.comps)
    requires |s'.workers| == |s.workers|
             && (forall v: nat :: v < |s.workers| && v != w ==> s'.workers[v] == s.workers[v])
    requires w < |s.workers| ==>
               s'.workers[w] == s.workers[w] || (s'.workers[w].Refused? && s'.workers[w].comp < |s.comps|)
               || (s'.workers[w].Credited? && LinkOk(s'.ledger.txns, s.comps, s'.workers[w].comp, s'.workers[w].txn))
    ensures Ok(s')
  {
    hide Core, LinkOk, CreditsOk;
    forall d: nat | d < |s'.comps| ensures RowOk(s'.ledger.txns, s'.comps, d) {
      AllLinksStay(s, s', d);
    }
    forall v: nat | v < |s'.workers| ensures WorkerOk(s'.ledger.txns, s'.comps, s'.workers[v]) {
      WorkerStays(s, s', v);
    }
  }

  lemma CreateKeeps(s: System, row: Compensation)
    requires Ok(s)
    ensures Ok(Fire(s, Create(row)))
  {
    hide Core, LinkOk, CreditsOk;
    var s' := Fire(s, Create(row));
    CreditsStay(s.ledger.txns, s.ledger.txns, s.comps, s'.comps);
    forall c: nat | c < |s'.comps| ensures RowOk(s'.ledger.txns, s'.comps, c) {
      if c < |s.comps| { AllLinksStay(s, s', c); }
    }
    forall v: nat | v < |s'.workers| ensures WorkerOk(s'.ledger.txns, s'.comps, s'.workers[v]) {
      WorkerStays(s, s', v);
    }
  }

  lemma PostKeeps(s: System, cmd: Command)
    requires Ok(s) && Foreign(cmd)
    ensures Ok(s.(ledger := Next(s.ledger, cmd)))
  {
    StepKeepsCore(s.ledger, cmd);
    StepAddsOne(s.ledger, cmd);
    hide Core, LinkOk, CreditsOk, Next;
    CreditsStay(s.ledger.txns, Next(s.ledger, cmd).txns, s.comps, s.comps);
    LedgerStep(s, s.(ledger := Next(s.ledger, cmd)), |s.workers|);
  }

  lemma PostedCredit(st: State, comps: seq<Compensation>, c: nat, registered: bool)
    requires c < |comps| && Issuable(comps[c])
    requires Transfer(st, CreditCommand(comps, c, registered), true).Posted?
    ensures LinkOk(Transfer(st, CreditCommand(comps, c, registered), true).state.txns, comps, c, |st.txns|)
  {
    hide FindTxn, EnsureAccounts;
  }

  lemma ReplayedCredit(st: State, comps: seq<Compensation>, c: nat, registered: bool)
    requires CreditsOk(st.txns, comps) && c < |comps|
    requires Transfer(st, CreditCommand(comps, c, registered), true).Replayed?
    ensures LinkOk(st.txns, comps, c, Transfer(st, CreditCommand(comps, c, registered), true).row)
  {
    var t := Transfer(st, CreditCommand(comps, c, registered), true).row;
    assert st.txns[t].source == Source(SourceType.Compensation, Id(c));
  }

  lemma IssueKeeps(s: System, w: nat, registered: bool, reply: Reply)
    requires Ok(s)
    ensures Ok(Fire(s, Issue(w, registered, reply)))
  {
    var s' := Fire(s, Issue(w, registered, reply));
    if w < |s.workers| && s.workers[w].Claimed? && s.workers[w].comp < |s.comps| {
      var c := s.workers[w].comp;
      var cmd := CreditCommand(s.comps, c, registered);
      var o := Transfer(s.ledger, cmd, true);
      if Issuable(s.comps[c]) && reply != NotRun && o.Posted? {
        StepKeepsCore(s.ledger, DoCredit(cmd));
        StepAddsOne(s.ledger, DoCredit(cmd));
        PostedCredit(s.ledger, s.comps, c, registered);
        hide Core, Transfer;
        CreditsStay(s.ledger.txns, o.state.txns, s.comps, s.comps);
        LedgerStep(s, s', w);
      } else {
        if o.Replayed? { ReplayedCredit(s.ledger, s.comps, c, registered); }
        hide Core, Transfer, LinkOk, CreditsOk;
        RowStep(s, s', c, w);
      }
    }
  }

  lemma FireKeeps(s: System, e: Event)
    requires Ok(s)
    ensures Ok(Fire(s, e))
  {
    match e
    case Create(row) => CreateKeeps(s, row);
    case Post(cmd) => if Foreign(cmd) { PostKeeps(s, cmd); }
    case Claim(w, c, now) =>
      hide Core, LinkOk, CreditsOk;
      if Fire(s, e) != s { RowStep(s, Fire(s, e), c, w); }
    case Issue(w, registered, reply) => IssueKeeps(s, w, registered, reply);
    case MarkIssued(w) =>
      hide Core, LinkOk, CreditsOk;
      if w < |s.workers| && s.workers[w].Credited? && s.workers[w].comp < |s.comps| {
        assert WorkerOk(s.ledger.txns, s.comps, s.workers[w]);
        RowStep(s, Fire(s, e), s.workers[w].comp, w);
      }
    case MarkRefused(w, at) =>
      hide Core, LinkOk, CreditsOk;
      if w < |s.workers| && s.workers[w].Refused? && s.workers[w].comp < |s.comps| {
        RowStep(s, Fire(s, e), s.workers[w].comp, w);
      }
    case Crash(w) =>
      hide Core, LinkOk, CreditsOk;
      if w < |s.workers| { CrashKeeps(s, w); }
  }

  lemma CrashKeeps(s: System, w: nat)
    requires Ok(s) && w < |s.workers|
    ensures Ok(With(s, w, Free))
  {
  }

  lemma {:induction false} TraceKeeps(workers: nat, events: seq<Event>)
    ensures Ok(Trace(Start(workers), events))
  {
    if events == [] {
      EmptyHolds(Balance);
    } else {
      TraceKeeps(workers, events[..|events| - 1]);
      FireKeeps(Trace(Start(workers), events[..|events| - 1]), events[|events| - 1]);
    }
  }

  // ----- at most one credit, and the link of an issued row

  /** What a transaction credits under the source of compensation `c`. */
  function CreditOf(c: nat): Transaction -> int {
    (t: Transaction) => if t.source == Source(SourceType.Compensation, Id(c)) then t.amount else 0
  }

  ghost predicate HasCredit(txns: seq<Transaction>, c: nat) {
    exists k: nat :: k < |txns| && txns[k].source == Source(SourceType.Compensation, Id(c))
  }

  lemma {:induction false} OneCreditSum(txns: seq<Transaction>, comps: seq<Compensation>, c: nat)
    requires UniqueTxns(txns) && CreditsOk(txns, comps) && c < |comps|
    ensures Sum(CreditOf(c), txns) == if HasCredit(txns, c) then comps[c].amount else 0
  {
    if txns == [] {
    } else {
      var n := |txns| - 1;
      assert UniqueTxns(txns[..n]) && CreditsOk(txns[..n], comps);
      OneCreditSum(txns[..n], comps, c);
      var last := txns[n];
      if last.source == Source(SourceType.Compensation, Id(c)) {
        assert forall k: nat :: k < |txns| && txns[k].source == last.source ==> IsCreditFor(txns[k], comps, c);
        assert !HasCredit(txns[..n], c);
      } else {
        assert HasCredit(txns, c) ==> HasCredit(txns[..n], c) by {
          if k: nat :| k < |txns| && txns[k].source == Source(SourceType.Compensation, Id(c)) {
            assert txns[..n][k] == txns[k];
          }
        }
        assert HasCredit(txns[..n], c) ==> HasCredit(txns, c) by {
          if k: nat :| k < n && txns[..n][k].source == Source(SourceType.Compensation, Id(c)) {
            assert txns[k] == txns[..n][k];
          }
        }
      }
    }
  }

  /** In every run each compensation has been credited with nothing or with exactly its amount; what an issued row
      links to is that credit, to its customer; and a row this worker cannot issue is never credited. */
  lemma CreditedAtMostOnce(workers: nat, events: seq<Event>, c: nat)
    requires c < |Trace(Start(workers), events).comps|
    ensures var s := Trace(Start(workers), events);
            && (Sum(CreditOf(c), s.ledger.txns) == 0 || Sum(CreditOf(c), s.ledger.txns) == s.comps[c].amount)
            && (s.comps[c].status == Issued ==>
                  && s.comps[c].txn.Some? && LinkOk(s.ledger.txns, s.comps, c, s.comps[c].txn.value)
                  && Sum(CreditOf(c), s.ledger.txns) == s.comps[c].amount)
            && (!Issuable(s.comps[c]) ==> Sum(CreditOf(c), s.ledger.txns) == 0 && s.comps[c].status != Issued)
  {
    TraceKeeps(workers, events);
    var s := Trace(Start(workers), events);
    OneCreditSum(s.ledger.txns, s.comps, c);
    assert RowOk(s.ledger.txns, s.comps, c);
    if HasCredit(s.ledger.txns, c) {
      var k: nat :| k < |s.ledger.txns| && s.ledger.txns[k].source == Source(SourceType.Compensation, Id(c));
      assert IsCreditFor(s.ledger.txns[k], s.comps, c);
    }
    if s.comps[c].status == Issued {
      assert s.ledger.txns[s.comps[c].txn.value].source == Source(SourceType.Compensation, Id(c));
    }
  }

  /** Once credited, every later attempt finds that same credit and posts nothing: the worker that hears so marks the
      row with it, one that does not will write `approved`. */
  lemma LaterAttemptsReplay(s: System, w: nat, registered: bool, reply: Reply)
    requires Ok(s) && w < |s.workers| && s.workers[w].Claimed? && HasCredit(s.ledger.txns, s.workers[w].comp)
    ensures var c := s.workers[w].comp;
            c < |s.comps| && exists t: nat ::
              LinkOk(s.ledger.txns, s.comps, c, t)
              && Fire(s, Issue(w, registered, reply))
                 == With(s, w, if reply == Heard then Credited(c, t) else Refused(c))
  {
    assert WorkerOk(s.ledger.txns, s.comps, s.workers[w]);
    var c := s.workers[w].comp;
    var k: nat :| k < |s.ledger.txns| && s.ledger.txns[k].source == Source(SourceType.Compensation, Id(c));
    assert IsCreditFor(s.ledger.txns[k], s.comps, c);
    var cmd := CreditCommand(s.comps, c, registered);
    var found := FindTxn(s.ledger.txns, cmd.source, Credit);
    assert IsCreditFor(s.ledger.txns[found.value], s.comps, c);
    ReplayedCredit(s.ledger, s.comps, c, registered);
  }

  // ----- `issued` can be left again

  /** A row leaves `issued` exactly when a worker whose own credit returned an error earlier writes so now. */
  lemma IssuedIsLeft(s: System, e: Event, c: nat)
    requires Ok(s) && c < |s.comps| && s.comps[c].status == Issued
    ensures c < |Fire(s, e).comps|
    ensures Fire(s, e).comps[c].status != Issued
            <==> e.MarkRefused? && e.worker < |s.workers| && s.workers[e.worker] == Refused(c)
    ensures Fire(s, e).comps[c].txn == s.comps[c].txn
  {
    hide Core, Transfer, Next;
    assert RowOk(s.ledger.txns, s.comps, c);
    assert IsCreditFor(s.ledger.txns[s.comps[c].txn.value], s.comps, c);
    forall w: nat | w < |s.workers| ensures WorkerOk(s.ledger.txns, s.comps, s.workers[w]) {
    }
  }

  const LATE: Compensation := Compensation.Compensation("CP1", 7, 5, "balance", Approved, None, None, None, 0)

  /** The worker of a rejected credit falls behind its lease, another issues the row, then the first one reports. */
  const LATE_REPORT: seq<Event> := [
    Create(LATE), Claim(0, 0, 0), Issue(0, false, Heard),
    Claim(1, 0, LEASE), Issue(1, true, Heard), MarkIssued(1),
    MarkRefused(0, LEASE)]

  lemma TraceAt(s: System, events: seq<Event>, n: nat)
    requires n < |events|
    ensures Trace(s, events[..n + 1]) == Fire(Trace(s, events[..n]), events[n])
    ensures Trace(s, events[..0]) == s
  {
    assert events[..n + 1][..n] == events[..n];
  }

  /** On an empty ledger the credit of a small compensation is refused for an unknown customer and posted for a known
      one. */
  lemma FirstCredit(comps: seq<Compensation>, registered: bool)
    requires |comps| == 1 && 0 < comps[0].amount < 100
    ensures var o := Transfer(Empty(Balance), CreditCommand(comps, 0, registered), true);
            if registered then o.Posted? && |o.state.txns| == 1 && Sum(CreditOf(0), o.state.txns) == comps[0].amount
            else o == Rejected(MemberNotFound)
  {
    if registered {
      var o := Transfer(Empty(Balance), CreditCommand(comps, 0, registered), true);
      SumSnoc(CreditOf(0), [], o.state.txns[0]);
      assert o.state.txns == [] + [o.state.txns[0]];
    }
  }

  /** Two workers suffice for a credited row to end up approved again, still carrying its transaction. */
  lemma IssuedIsNotAbsorbing()
    ensures Trace(Start(2), LATE_REPORT[..6]).comps == [LATE.(status := Issued, txn := Some(0), attempts := 2)]
    ensures Trace(Start(2), LATE_REPORT).comps
            == [LATE.(status := Approved, txn := Some(0), nextRetry := Some(LEASE), attempts := 2)]
    ensures Sum(CreditOf(0), Trace(Start(2), LATE_REPORT).ledger.txns) == 5
  {
    hide Transfer, Trace, Sum;
    var s0 := Start(2);
    TraceAt(s0, LATE_REPORT, 0);
    TraceAt(s0, LATE_REPORT, 1);
    TraceAt(s0, LATE_REPORT, 2);
    TraceAt(s0, LATE_REPORT, 3);
    TraceAt(s0, LATE_REPORT, 4);
    TraceAt(s0, LATE_REPORT, 5);
    TraceAt(s0, LATE_REPORT, 6);
    assert LATE_REPORT[..7] == LATE_REPORT;
    var s2 := Trace(s0, LATE_REPORT[..2]);
    assert s2.comps == [LATE.(status := Issuing, lockedUntil := Some(LEASE), attempts := 1)];
    FirstCredit(s2.comps, false);
    var s3 := Trace(s0, LATE_REPORT[..3]);
    assert s3.workers == [Refused(0), Free] && s3.ledger == Empty(Balance);
    var s4 := Trace(s0, LATE_REPORT[..4]);
    FirstCredit(s4.comps, true);
    var s5 := Trace(s0, LATE_REPORT[..5]);
    assert s5.workers == [Refused(0), Credited(0, 0)];
  }

  // ----- leases and retries

  /** Which events write the row, other than a claim. */
  predicate Writes(s: System, e: Event, c: nat) {
    match e
    case Issue(w, _, _) => w < |s.workers| && s.workers[w] == Claimed(c)
    case MarkIssued(w) => w < |s.workers| && s.workers[w].Credited? && s.workers[w].comp == c
    case MarkRefused(w, _) => w < |s.workers| && s.workers[w] == Refused(c)
    case _ => false
  }

  /** A claim takes a row that is approved or being issued, whose retry time has come and whose lease has run out, and
      leases it for 30 seconds. */
  lemma ClaimsExactly(s: System, w: nat, c: nat, now: Time)
    ensures Fire(s, Claim(w, c, now)) != s
            <==> && w < |s.workers| && s.workers[w].Free? && c < |s.comps|
                 && (s.comps[c].status == Approved || s.comps[c].status == Issuing)
                 && (s.comps[c].nextRetry.Some? ==> s.comps[c].nextRetry.value <= now)
                 && (s.comps[c].lockedUntil.Some? ==> s.comps[c].lockedUntil.value <= now)
    ensures Fire(s, Claim(w, c, now)) != s ==>
              && Fire(s, Claim(w, c, now)).workers == s.workers[w := Claimed(c)]
              && Fire(s, Claim(w, c, now)).comps
                 == s.comps[c :=
                            s.comps[c].(status := Issuing, lockedUntil := Some(now + 30),
                                        attempts := s.comps[c].attempts + 1)]
  {
  }

  predicate Leased(s: System, c: nat, until: Time) {
    c < |s.comps| && s.comps[c].status == Issuing && s.comps[c].lockedUntil == Some(until)
  }

  lemma LeaseStep(s: System, e: Event, c: nat, until: Time)
    requires Leased(s, c, until) && !Writes(s, e, c) && (e.Claim? ==> e.now < until)
    ensures Leased(Fire(s, e), c, until) && Fire(s, e).comps[c] == s.comps[c]
  {
    hide Transfer, Next;
  }

  /** While a row's lease lasts and its own worker writes nothing, every other claim of it is passed over. */
  lemma {:induction false} LeaseHolds(s: System, events: seq<Event>, c: nat, until: Time, w: nat, now: Time)
    requires Leased(s, c, until) && now < until
    requires forall i :: 0 <= i < |events| ==>
               && !Writes(Trace(s, events[..i]), events[i], c) && (events[i].Claim? ==> events[i].now < until)
    ensures Leased(Trace(s, events), c, until) && Fire(Trace(s, events), Claim(w, c, now)) == Trace(s, events)
  {
    if events != [] {
      var n := |events| - 1;
      forall i | 0 <= i < n
        ensures !Writes(Trace(s, events[..n][..i]), events[..n][i], c)
                && (events[..n][i].Claim? ==> events[..n][i].now < until)
      {
        assert events[..n][..i] == events[..i];
      }
      hide Fire, Writes;
      LeaseHolds(s, events[..n], c, until, w, now);
      LeaseStep(Trace(s, events[..n]), events[n], c, until);
    }
    NoSecondClaim(Trace(s, events), c, until, w, now);
  }

  lemma NoSecondClaim(s: System, c: nat, until: Time, w: nat, now: Time)
    requires Leased(s, c, until) && now < until
    ensures Fire(s, Claim(w, c, now)) == s
  {
  }

  /** What an attempt asks of the ledger: the row's amount for its customer, without an expiry, under its own source. */
  lemma CreditsTheRow(comps: seq<Compensation>, c: nat, registered: bool)
    requires c < |comps|
    ensures var t := CreditCommand(comps, c, registered);
            && t.owner == comps[c].owner && t.amount == comps[c].amount && t.expiresAt.None?
               && t.registered == registered
            && t.source == Source(SourceType.Compensation, Id(c))
            && t.key == IdempotencyKey(0, Given("compensation-" + comps[c].no))
  {
  }

  /** What the three final writes leave on the row. */
  lemma WritesExactly(s: System, w: nat, at: Time)
    requires w < |s.workers| && (s.workers[w].Credited? || s.workers[w].Refused?) && s.workers[w].comp < |s.comps|
    ensures var c := s.workers[w].comp;
            var row := s.comps[c];
            if s.workers[w].Refused?
            then && Fire(s, MarkRefused(w, at)).comps[c]
                == row.(status := Approved, nextRetry := Some(at), lockedUntil := None)
                 && Fire(s, MarkRefused(w, at)).workers[w].Free?
            else && Fire(s, MarkIssued(w)).comps[c]
                    == (if row.status != Issuing then row
                        else row.(status := Issued, txn := Some(s.workers[w].txn), nextRetry := None,
                                  lockedUntil := None))
                 && Fire(s, MarkIssued(w)).workers[w].Free?
  {
  }
}
