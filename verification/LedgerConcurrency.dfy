/** Interleaved database transactions over the ledger. A transaction locks rows one at a time and remembers what it
    read; when it commits, it writes absolute values computed from that memory. */
module LedgerConcurrency {
  import opened Sums
  import opened Ordering
  import opened Machine
  import opened LedgerModel
  import opened LedgerLots
  import opened LedgerInvariant
  import opened LedgerSafety
  import opened LedgerRepair
  import opened LedgerHolds
  import opened LedgerFrame

  // ----- processes

  /** What a transaction has read. Remembered rows and accounts are locked by it; the owner, the row its key was looked
      up with and the sum of earlier reversals may come from plain reads. */
  datatype Memory = Memory(owner: Option<nat>, balances: map<BalanceKey, int>,
                           lots: map<nat, Lot>, scannedLots: bool,
                           holds: map<nat, Hold>, parts: map<nat, HoldLot>, scannedParts: bool,
                           originals: set<nat>, accounts: set<Account>,
                           looked: Option<Option<nat>>, reversed: Option<int>)

  datatype Process = Idle | Busy(cmd: Command, mem: Memory)

  datatype System = System(db: State, procs: seq<Process>, log: seq<Command>)

  datatype Lock =
    | BalanceLock(row: BalanceKey) | LotLock(lot: nat) | HoldLock(hold: nat)
    | PartLock(part: nat) | TxnLock(txn: nat) | AccountLock(account: Account)

  predicate HasLock(mem: Memory, lock: Lock) {
    match lock
    case BalanceLock(row) => row in mem.balances
    case LotLock(lot) => lot in mem.lots
    case HoldLock(hold) => hold in mem.holds
    case PartLock(part) => part in mem.parts
    case TxnLock(txn) => txn in mem.originals
    case AccountLock(account) => account in mem.accounts
  }

  /** A row lock is granted when no other transaction has it. */
  predicate Free(s: System, p: nat, lock: Lock) {
    forall q: nat :: q < |s.procs| && q != p && s.procs[q].Busy? ==> !HasLock(s.procs[q].mem, lock)
  }

  function NoMemory(owner: Option<nat>): Memory {
    Memory(owner, map[], map[], false, map[], map[], false, {}, {}, None, None)
  }

  // ----- what a transaction sees and writes

  /** The tables as this transaction sees them: remembered rows as they were read, and no row its scans did not
      return. */
  function View(db: State, cmd: Command, mem: Memory): State {
    db.(balances := map row | row in db.balances :: if row in mem.balances then mem.balances[row] else db.balances[row],
        lots := seq(|db.lots|, i requires 0 <= i < |db.lots| =>
                  if i in mem.lots then mem.lots[i]
                  else if mem.scannedLots && mem.owner == Some(db.lots[i].owner) then db.lots[i].(available := 0)
                  else db.lots[i]),
        holds := seq(|db.holds|, i requires 0 <= i < |db.holds| =>
                     if i in mem.holds then mem.holds[i] else db.holds[i]),
        holdLots := seq(|db.holdLots|, k requires 0 <= k < |db.holdLots| =>
                      var a := db.holdLots[k];
                      if k in mem.parts then mem.parts[k]
                      else if mem.scannedParts && HoldOf(cmd) == Some(a.hold) && Pending(a) > 0
                        then a.(released := a.amount - a.committed)
                      else a))
  }

  /** The row the command's key was used for before: a transaction, or a hold for a freeze. */
  function Existing(db: State, cmd: Command): Option<nat> {
    match cmd
    case DoCredit(t) => FindTxn(db.txns, t.source, Credit)
    case DoDebit(t) => FindTxn(db.txns, t.source, Debit)
    case DoReverse(r) => FindTxn(db.txns, r.source, Reverse)
    case DoFreeze(f) => FindHold(db.holds, f.reservation)
    case DoCommit(h, _) => FindTxn(db.txns, h.source, Commit)
    case DoRelease(h, _) => FindTxn(db.txns, h.source, Release)
    case DoExpireHold(h, _) => FindTxn(db.txns, ExpiryOf(h).source, Expire)
    case DoExpireLot(_, _) => None
  }

  /** What the transaction does with what it remembers: it answers with the row its lookup found, or goes on to post.
      The lookups inside the posting are the unique indexes, which see every committed row. */
  function Effect(db: State, cmd: Command, mem: Memory): Outcome {
    if mem.looked.Some? && mem.looked.value.Some? then Replayed(mem.looked.value.value)
    else
      match cmd
      case DoReverse(r) =>
        if mem.reversed.Some? then ReverseSeeing(View(db, cmd, mem), r, mem.reversed.value)
        else Apply(View(db, cmd, mem), cmd)
      case _ => Apply(View(db, cmd, mem), cmd)
  }

  /** The commit overwrites the locked rows with the computed values, inserts the new rows and leaves all other rows
      alone. */
  function Written(db: State, mem: Memory, st: State): State {
    st.(balances := map row | row in st.balances ::
          if row in mem.balances || row !in db.balances then st.balances[row] else db.balances[row],
        lots := seq(|st.lots|, i requires 0 <= i < |st.lots| =>
                    if i < |db.lots| && i !in mem.lots then db.lots[i] else st.lots[i]),
        holds := seq(|st.holds|, i requires 0 <= i < |st.holds| =>
                     if i < |db.holds| && i !in mem.holds then db.holds[i] else st.holds[i]),
        holdLots := seq(|st.holdLots|, k requires 0 <= k < |st.holdLots| =>
                      if k < |db.holdLots| && k !in mem.parts then db.holdLots[k] else st.holdLots[k]))
  }

  /** Every lot the transaction updates is one it has locked. */
  predicate LotsLocked(was: seq<Lot>, now: seq<Lot>, mem: Memory) {
    |was| <= |now| && forall i: nat :: i < |was| && now[i] != was[i] ==> i in mem.lots
  }

  /** The transaction has taken the locks its code takes before it writes. */
  predicate Ready(db: State, cmd: Command, mem: Memory) {
    && mem.owner.Some? && RowsOf(cmd, mem.owner.value) <= mem.balances.Keys
    && (cmd.DoDebit? || cmd.DoFreeze? ==> mem.scannedLots)
    && (cmd.DoReverse? ==> cmd.reverse.original in mem.originals)
    && (cmd.DoReverse? && cmd.reverse.original < |db.txns| && db.txns[cmd.reverse.original].action == Credit ==>
        mem.scannedLots)
    && (HoldOf(cmd).Some? ==> HoldOf(cmd).value in mem.holds && mem.scannedParts)
    && (cmd.DoExpireLot? ==> cmd.lot in mem.lots)
    && (!cmd.DoExpireLot? ==> mem.looked.Some?) && (cmd.DoReverse? ==> mem.reversed.Some?)
    && (!cmd.DoFreeze? ==> {Customer(mem.owner.value), Platform} <= mem.accounts)
    && var o := Effect(db, cmd, mem);
       o.Posted? ==> LotsLocked(View(db, cmd, mem).lots, o.state.lots, mem)
  }

  // ----- steps

  datatype Event =
    | Begin(cmd: Command)
    | Look | PeekLot | LockHold | LockOriginal | LockAccount(account: Account)
    | LockBalance(row: BalanceKey) | ScanLots | ScanParts | LockLot(lot: nat)
    | CommitTx | Abort

  function Set(s: System, p: nat, process: Process): System
    requires p < |s.procs|
  {
    s.(procs := s.procs[p := process])
  }

  function MatchedLots(db: State, owner: nat): map<nat, Lot> {
    map i: nat | i < |db.lots| && HasAvailable(db.lots, owner)(i) :: db.lots[i]
  }

  function MatchedParts(db: State, hold: nat): map<nat, HoldLot> {
    map k: nat | k < |db.holdLots| && IsOpenPart(db.holdLots, hold)(k) :: db.holdLots[k]
  }

  /** One step of one process; a step whose lock is taken by another process waits. */
  function Fire(s: System, p: nat, e: Event): System {
    if p >= |s.procs| then s
    else match s.procs[p]
      case Idle =>
        if e.Begin? then
          Set(s, p, Busy(e.cmd,
                         NoMemory(if e.cmd.DoCredit? || e.cmd.DoDebit? || e.cmd.DoFreeze? then OwnerOf(s.db, e.cmd)
                                  else None)))
        else s
      case Busy(cmd, mem) =>
        match e
        case Begin(_) => s
        case Abort => Set(s, p, Idle)
        case Look =>
          // plain reads; a reversal makes them after it has locked the original
          if mem.looked.Some? || (cmd.DoReverse? && cmd.reverse.original !in mem.originals) then s
          else
            var reversed := if cmd.DoReverse? then Some(Sum(ReversalOf(cmd.reverse.original), s.db.txns)) else None;
            Set(s, p, Busy(cmd, mem.(looked := Some(Existing(s.db, cmd)), reversed := reversed)))
        case LockAccount(account) =>
          if !Free(s, p, AccountLock(account)) then s
          else Set(s, p, Busy(cmd, mem.(accounts := mem.accounts + {account})))
        case PeekLot =>
          // the unlocked read of a lot: only its owner is kept
          if !cmd.DoExpireLot? then s
          else if cmd.lot >= |s.db.lots| || !PastDue(s.db.lots[cmd.lot], cmd.now) || s.db.lots[cmd.lot].available <= 0
            then Set(s, p, Idle)
          else Set(s, p, Busy(cmd, mem.(owner := Some(s.db.lots[cmd.lot].owner))))
        case LockHold =>
          if HoldOf(cmd).None? || !Free(s, p, HoldLock(HoldOf(cmd).value)) then s
          else
            var h := HoldOf(cmd).value;
            if h >= |s.db.holds| then Set(s, p, Idle)
            else Set(s, p, Busy(cmd, mem.(owner := Some(s.db.holds[h].owner), holds := mem.holds[h := s.db.holds[h]])))
        case LockOriginal =>
          if !cmd.DoReverse? || !Free(s, p, TxnLock(cmd.reverse.original)) then s
          else
            var t := cmd.reverse.original;
            if t >= |s.db.txns| then Set(s, p, Idle)
            else Set(s, p, Busy(cmd, mem.(owner := Some(s.db.txns[t].owner), originals := mem.originals + {t})))
        case LockBalance(row) =>
          if !Free(s, p, BalanceLock(row)) then s
          else Set(s, p, Busy(cmd, mem.(balances := mem.balances[row := Bal(s.db.balances, row)])))
        case ScanLots =>
          if mem.owner.None? || AvailableRow(mem.owner.value) !in mem.balances
             || (exists i: nat :: i in MatchedLots(s.db, mem.owner.value) && !Free(s, p, LotLock(i))) then s
          else Set(s, p, Busy(cmd, mem.(lots := mem.lots + MatchedLots(s.db, mem.owner.value), scannedLots := true)))
        case ScanParts =>
          if HoldOf(cmd).None? || HoldOf(cmd).value !in mem.holds
             || (exists k: nat :: k in MatchedParts(s.db, HoldOf(cmd).value) && !Free(s, p, PartLock(k))) then s
          else Set(s, p,
                   Busy(cmd, mem.(parts := mem.parts + MatchedParts(s.db, HoldOf(cmd).value), scannedParts := true)))
        case LockLot(lot) =>
          // expiry skips a locked lot, the settlement of a hold waits for it
          if lot >= |s.db.lots| then s
          else if !Free(s, p, LotLock(lot)) then (if cmd.DoExpireLot? then Set(s, p, Idle) else s)
          else Set(s, p, Busy(cmd, mem.(lots := mem.lots[lot := s.db.lots[lot]])))
        case CommitTx =>
          if !Ready(s.db, cmd, mem) then s
          else
            match Effect(s.db, cmd, mem)
            case Posted(st) => Set(System(Written(s.db, mem, st), s.procs, s.log + [cmd]), p, Idle)
            case _ => Set(s, p, Idle)
  }

  function Interleave(s: System, schedule: seq<(nat, Event)>): System {
    if schedule == [] then s
    else var n := |schedule| - 1; Fire(Interleave(s, schedule[..n]), schedule[n].0, schedule[n].1)
  }

  function Start(asset: AssetType, n: nat): System {
    System(Empty(asset), seq(n, _ => Idle), [])
  }

  // ----- memory stays current

  ghost predicate KnowsOwner(db: State, cmd: Command, mem: Memory) {
    mem.owner.Some? ==> OwnerOf(db, cmd) == mem.owner
  }

  predicate BalancesCurrent(db: State, mem: Memory) {
    forall row :: row in mem.balances ==> mem.balances[row] == Bal(db.balances, row)
  }

  predicate LotsCurrent(db: State, mem: Memory) {
    && (forall i: nat :: i in mem.lots ==> i < |db.lots| && mem.lots[i] == db.lots[i])
    && (mem.scannedLots ==>
          && mem.owner.Some? && AvailableRow(mem.owner.value) in mem.balances
          && forall i: nat :: i < |db.lots| && HasAvailable(db.lots, mem.owner.value)(i) ==> i in mem.lots)
  }

  predicate HoldsCurrent(db: State, mem: Memory) {
    forall h: nat :: h in mem.holds ==> h < |db.holds| && mem.holds[h] == db.holds[h]
  }

  predicate PartsCurrent(db: State, cmd: Command, mem: Memory) {
    && (forall k: nat :: k in mem.parts ==> k < |db.holdLots| && mem.parts[k] == db.holdLots[k])
    && (mem.scannedParts ==>
          && HoldOf(cmd).Some? && HoldOf(cmd).value in mem.holds
          && forall k: nat :: k < |db.holdLots| && IsOpenPart(db.holdLots, HoldOf(cmd).value)(k) ==> k in mem.parts)
  }

  /** A row found is still there, and no reversal was added to an original this transaction has locked. */
  predicate LookCurrent(db: State, cmd: Command, mem: Memory) {
    && (mem.looked.Some? && mem.looked.value.Some? ==> Existing(db, cmd).Some?)
    && (mem.reversed.Some? ==>
          && cmd.DoReverse? && cmd.reverse.original in mem.originals
          && mem.reversed.value == Sum(ReversalOf(cmd.reverse.original), db.txns))
  }

  ghost predicate Coherent(db: State, cmd: Command, mem: Memory) {
    && KnowsOwner(db, cmd, mem) && BalancesCurrent(db, mem) && LotsCurrent(db, mem) && HoldsCurrent(db, mem)
    && PartsCurrent(db, cmd, mem) && LookCurrent(db, cmd, mem)
  }

  ghost predicate Exclusive(a: Memory, b: Memory) {
    forall lock :: !(HasLock(a, lock) && HasLock(b, lock))
  }

  ghost predicate Sound(start: State, s: System) {
    && s.db == Run(start, s.log)
    && (forall p: nat :: p < |s.procs| && s.procs[p].Busy? ==> Coherent(s.db, s.procs[p].cmd, s.procs[p].mem))
    && (forall p: nat, q: nat :: p < |s.procs| && q < |s.procs| && p != q && s.procs[p].Busy? && s.procs[q].Busy?
          ==> Exclusive(s.procs[p].mem, s.procs[q].mem))
  }

  lemma ViewLots(db: State, cmd: Command, mem: Memory)
    requires LotsOk(db.lots) && LotsCurrent(db, mem)
    ensures View(db, cmd, mem).lots == db.lots
  {
    var v := View(db, cmd, mem);
    forall i: nat | i < |db.lots| ensures v.lots[i] == db.lots[i] {
      assert LotOk(db.lots[i]);
    }
  }

  lemma ViewParts(db: State, cmd: Command, mem: Memory)
    requires PartsOk(db.holdLots) && PartsCurrent(db, cmd, mem)
    ensures View(db, cmd, mem).holdLots == db.holdLots
  {
    var v := View(db, cmd, mem);
    forall k: nat | k < |db.holdLots| ensures v.holdLots[k] == db.holdLots[k] {
      assert PartOk(db.holdLots[k]);
      assert HoldOf(cmd).Some? ==>
               IsOpenPart(db.holdLots, HoldOf(cmd).value)(k)
               == (db.holdLots[k].hold == HoldOf(cmd).value && Pending(db.holdLots[k]) > 0);
    }
  }

  /** A coherent memory is exactly the current database: nothing it read is stale and no row is missing from its
      scans. */
  lemma ViewIsCurrent(db: State, cmd: Command, mem: Memory)
    requires Core(db) && Coherent(db, cmd, mem)
    ensures View(db, cmd, mem) == db
  {
    CoreParts(db);
    ViewLots(db, cmd, mem);
    ViewParts(db, cmd, mem);
    hide Core, LotsCurrent, PartsCurrent, LookCurrent, KnowsOwner, HoldOf;
    var v := View(db, cmd, mem);
    assert v.balances == db.balances && v.holds == db.holds;
  }

  /** A command whose key was used before does not post. */
  lemma UsedKeysDoNotPost(db: State, cmd: Command)
    requires Existing(db, cmd).Some?
    ensures !Apply(db, cmd).Posted?
  {
    hide EnsureAccounts, PostTransfer, PostSettlement, Take, Sum, Validate;
  }

  /** So what the transaction does, though it rests on plain reads of its lookup and of the sum of earlier reversals, is
      what the command does to the current database. */
  lemma EffectIsCurrent(db: State, cmd: Command, mem: Memory)
    requires Core(db) && Coherent(db, cmd, mem)
    ensures Effect(db, cmd, mem).Posted? <==> Apply(db, cmd).Posted?
    ensures Effect(db, cmd, mem).Posted? ==> Effect(db, cmd, mem) == Apply(db, cmd)
  {
    ViewIsCurrent(db, cmd, mem);
    hide Core, View, Existing, ReverseSeeing, KnowsOwner, BalancesCurrent, LotsCurrent, HoldsCurrent, PartsCurrent,
      Transfer, FreezeAmount, SettleHold, ExpireLot;
    if Existing(db, cmd).Some? { UsedKeysDoNotPost(db, cmd); }
  }

  /** Rows the transaction has not locked are rows it does not change. */
  lemma WrittenIsAll(db: State, cmd: Command, mem: Memory, st: State, owner: nat)
    requires Frame(db, st, cmd, owner) && RowsOf(cmd, owner) <= mem.balances.Keys && LotsLocked(db.lots, st.lots, mem)
    requires HoldOf(cmd).Some? ==> HoldOf(cmd).value in mem.holds && mem.scannedParts
    requires PartsCurrent(db, cmd, mem)
    ensures Written(db, mem, st) == st
  {
    hide MayChangeLot, SameGrant, SamePart;
    var w := Written(db, mem, st);
    assert w.balances == st.balances;
    assert w.lots == st.lots;
    assert w.holds == st.holds;
    assert w.holdLots == st.holdLots;
  }

  /** So a commit, though it writes absolute values, is one step of the ledger on the current database. */
  lemma CommitIsStep(db: State, cmd: Command, mem: Memory)
    requires Core(db) && Coherent(db, cmd, mem) && Ready(db, cmd, mem) && Effect(db, cmd, mem).Posted?
    ensures Apply(db, cmd).Posted? && Frame(db, Next(db, cmd), cmd, mem.owner.value)
    ensures Written(db, mem, Effect(db, cmd, mem).state) == Next(db, cmd)
    ensures LotsLocked(db.lots, Next(db, cmd).lots, mem)
  {
    ViewIsCurrent(db, cmd, mem);
    EffectIsCurrent(db, cmd, mem);
    CommandFrame(db, cmd);
    hide Core, Apply, Frame, View, Effect, Written, LotsLocked, RowsOf, OwnerOf, PartsCurrent, LookCurrent;
    WrittenIsAll(db, cmd, mem, Next(db, cmd), mem.owner.value);
  }

  /** A commit leaves the memory of every other transaction current. */
  lemma OthersStayCurrent(db: State, cmd: Command, mem: Memory, other: Command, theirs: Memory)
    requires Core(db) && Coherent(db, cmd, mem) && Ready(db, cmd, mem) && Effect(db, cmd, mem).Posted?
    requires Coherent(db, other, theirs) && Exclusive(mem, theirs)
    ensures Coherent(Next(db, cmd), other, theirs)
  {
    CommitIsStep(db, cmd, mem);
    ReadyLocks(db, cmd, mem);
    hide Core, Frame, Coherent, Effect, Written;
    StayCurrent(db, cmd, mem, Next(db, cmd), other, theirs);
  }

  lemma StayCurrent(db: State, cmd: Command, mem: Memory, db': State, other: Command, theirs: Memory)
    requires mem.owner.Some? && RowsOf(cmd, mem.owner.value) <= mem.balances.Keys
             && AvailableRow(mem.owner.value) in mem.balances
    requires HoldOf(cmd).Some? ==> HoldOf(cmd).value in mem.holds && mem.scannedParts
    requires cmd.DoReverse? ==> cmd.reverse.original in mem.originals
    requires Coherent(db, cmd, mem) && Frame(db, db', cmd, mem.owner.value) && LotsLocked(db.lots, db'.lots, mem)
    requires Coherent(db, other, theirs) && Exclusive(mem, theirs)
    ensures Coherent(db', other, theirs)
  {
    hide Exclusive, RowsOf, OwnerOf, HoldOf, LotsLocked, LotsKept, PartsKept,
      LotsCurrent, PartsCurrent, BalancesCurrent, HoldsCurrent, LookCurrent, BalancesKept, HoldsKept, TxnsKept;
    OtherBalancesCurrent(db, cmd, mem, db', theirs);
    OtherLotsCurrent(db, cmd, mem, db', theirs);
    OtherPartsCurrent(db, cmd, mem, db', other, theirs);
    OtherLookCurrent(db, cmd, mem, db', other, theirs);
    OwnerStays(db, cmd, db', mem.owner.value, other);
  }

  /** Rows that are kept can still be found. */
  lemma StillFound(db: State, cmd: Command, db': State, other: Command)
    requires TxnsKept(db, db', cmd) && HoldsKept(db, db', cmd) && Existing(db, other).Some?
    ensures Existing(db', other).Some?
  {
    hide HoldOf;
    var row := Existing(db, other).value;
    match other
    case DoFreeze(f) => assert db'.holds[row].reservation == f.reservation;
    case DoExpireLot(_, _) =>
    case _ => assert db'.txns[row] == db.txns[row];
  }

  /** Only a transaction that has locked the original adds a reversal of it. */
  lemma OtherLookCurrent(db: State, cmd: Command, mem: Memory, db': State, other: Command, theirs: Memory)
    requires TxnsKept(db, db', cmd) && HoldsKept(db, db', cmd) && LookCurrent(db, other, theirs)
             && Exclusive(mem, theirs)
    requires cmd.DoReverse? ==> cmd.reverse.original in mem.originals
    ensures LookCurrent(db', other, theirs)
  {
    if Existing(db, other).Some? { StillFound(db, cmd, db', other); }
    if theirs.reversed.Some? {
      var original := other.reverse.original;
      assert !(HasLock(mem, TxnLock(original)) && HasLock(theirs, TxnLock(original)));
      assert db.txns == db'.txns[..|db.txns|];
      if |db'.txns| > |db.txns| {
        assert db'.txns == db.txns + [db'.txns[|db.txns|]];
        SumSnoc(ReversalOf(original), db.txns, db'.txns[|db.txns|]);
      } else {
        assert db'.txns == db.txns;
      }
    }
    hide Sum, Existing;
  }

  lemma ReadyLocks(db: State, cmd: Command, mem: Memory)
    requires Ready(db, cmd, mem)
    ensures mem.owner.Some? && RowsOf(cmd, mem.owner.value) <= mem.balances.Keys
            && AvailableRow(mem.owner.value) in mem.balances
    ensures HoldOf(cmd).Some? ==> HoldOf(cmd).value in mem.holds && mem.scannedParts
    ensures cmd.DoReverse? ==> cmd.reverse.original in mem.originals
  {
    hide View, Apply, Effect;
    assert AvailableRow(mem.owner.value) in RowsOf(cmd, mem.owner.value);
  }

  lemma OtherBalancesCurrent(db: State, cmd: Command, mem: Memory, db': State, theirs: Memory)
    requires mem.owner.Some? && BalancesKept(db, db', RowsOf(cmd, mem.owner.value)) && HoldsKept(db, db', cmd)
    requires RowsOf(cmd, mem.owner.value) <= mem.balances.Keys && (HoldOf(cmd).Some? ==> HoldOf(cmd).value in mem.holds)
    requires BalancesCurrent(db, theirs) && HoldsCurrent(db, theirs) && Exclusive(mem, theirs)
    ensures BalancesCurrent(db', theirs) && HoldsCurrent(db', theirs)
  {
    hide RowsOf;
    forall row | row in theirs.balances ensures theirs.balances[row] == Bal(db'.balances, row) {
      assert !(HasLock(mem, BalanceLock(row)) && HasLock(theirs, BalanceLock(row)));
    }
    forall h: nat | h in theirs.holds ensures h < |db'.holds| && theirs.holds[h] == db'.holds[h] {
      assert !(HasLock(mem, HoldLock(h)) && HasLock(theirs, HoldLock(h)));
    }
  }

  lemma OwnerStays(db: State, cmd: Command, db': State, owner: nat, other: Command)
    requires Frame(db, db', cmd, owner)
    ensures OwnerOf(db, other).Some? ==> OwnerOf(db', other) == OwnerOf(db, other)
  {
  }

  lemma OtherLotsCurrent(db: State, cmd: Command, mem: Memory, db': State, theirs: Memory)
    requires mem.owner.Some? && LotsKept(db, db', cmd, mem.owner.value) && LotsLocked(db.lots, db'.lots, mem)
    requires AvailableRow(mem.owner.value) in mem.balances && LotsCurrent(db, theirs) && Exclusive(mem, theirs)
    ensures LotsCurrent(db', theirs)
  {
    forall i: nat | i in theirs.lots ensures i < |db'.lots| && theirs.lots[i] == db'.lots[i] {
      assert !(HasLock(mem, LotLock(i)) && HasLock(theirs, LotLock(i)));
    }
    if theirs.scannedLots {
      var row := AvailableRow(theirs.owner.value);
      assert !(HasLock(mem, BalanceLock(row)) && HasLock(theirs, BalanceLock(row)));
      assert theirs.owner != mem.owner;
    }
  }

  lemma OtherPartsCurrent(db: State, cmd: Command, mem: Memory, db': State, other: Command, theirs: Memory)
    requires PartsKept(db, db', cmd)
    requires HoldOf(cmd).Some? ==> HoldOf(cmd).value in mem.holds && mem.scannedParts
    requires PartsCurrent(db, cmd, mem) && PartsCurrent(db, other, theirs) && HoldsCurrent(db, theirs)
             && Exclusive(mem, theirs)
    ensures PartsCurrent(db', other, theirs)
  {
    forall k: nat | k in theirs.parts ensures k < |db'.holdLots| && theirs.parts[k] == db'.holdLots[k] {
      assert !(HasLock(mem, PartLock(k)) && HasLock(theirs, PartLock(k)));
    }
    if theirs.scannedParts {
      var h := HoldOf(other).value;
      assert !(HasLock(mem, HoldLock(h)) && HasLock(theirs, HoldLock(h)));
    }
  }

  // ----- every interleaving

  lemma Stops(start: State, s: System, p: nat)
    requires Sound(start, s) && p < |s.procs|
    ensures Sound(start, Set(s, p, Idle))
  {
    hide Coherent, Exclusive, Run;
  }

  ghost predicate Granted(s: System, p: nat, was: Memory, mem: Memory) {
    forall lock :: HasLock(mem, lock) ==> HasLock(was, lock) || Free(s, p, lock)
  }

  /** A process that only takes free locks and keeps a coherent memory keeps the system sound. */
  lemma Advances(start: State, s: System, p: nat, mem: Memory)
    requires Sound(start, s) && p < |s.procs| && s.procs[p].Busy?
    requires Coherent(s.db, s.procs[p].cmd, mem) && Granted(s, p, s.procs[p].mem, mem)
    ensures Sound(start, Set(s, p, Busy(s.procs[p].cmd, mem)))
  {
    hide Coherent, Run, HasLock;
    var s' := Set(s, p, Busy(s.procs[p].cmd, mem));
    forall q: nat | q < |s.procs| && q != p && s.procs[q].Busy?
      ensures Exclusive(mem, s.procs[q].mem) && Exclusive(s.procs[q].mem, mem)
    {
      forall lock ensures !(HasLock(mem, lock) && HasLock(s.procs[q].mem, lock)) {
        assert Exclusive(s.procs[p].mem, s.procs[q].mem);
      }
    }
  }

  lemma Begins(start: State, s: System, p: nat, cmd: Command)
    requires Sound(start, s) && p < |s.procs| && s.procs[p].Idle?
    ensures Sound(start, Fire(s, p, Begin(cmd)))
  {
    hide Run;
  }

  /** After a commit the log grew by its command and every other memory is still current. */
  lemma CommitPosts(start: State, s: System, p: nat)
    requires Sound(start, s) && Core(s.db) && p < |s.procs| && s.procs[p].Busy?
    requires Ready(s.db, s.procs[p].cmd, s.procs[p].mem)
    requires Effect(s.db, s.procs[p].cmd, s.procs[p].mem).Posted?
    ensures Sound(start, Set(System(Next(s.db, s.procs[p].cmd), s.procs, s.log + [s.procs[p].cmd]), p, Idle))
  {
    var cmd, mem := s.procs[p].cmd, s.procs[p].mem;
    hide Core, Apply, View, Effect, Ready, Coherent, Exclusive, Written, Next;
    var log := s.log + [cmd];
    assert log[..|log| - 1] == s.log;
    assert Run(start, log) == Next(s.db, cmd);
    forall q: nat | q < |s.procs| && q != p && s.procs[q].Busy?
      ensures Coherent(Next(s.db, cmd), s.procs[q].cmd, s.procs[q].mem)
    {
      OthersStayCurrent(s.db, cmd, mem, s.procs[q].cmd, s.procs[q].mem);
    }
  }

  lemma CommitFires(s: System, p: nat)
    requires p < |s.procs| && s.procs[p].Busy?
    ensures var cmd, mem := s.procs[p].cmd, s.procs[p].mem;
            Fire(s, p, CommitTx)
            == if !Ready(s.db, cmd, mem) then s
               else match Effect(s.db, cmd, mem)
                    case Posted(st) => Set(System(Written(s.db, mem, st), s.procs, s.log + [cmd]), p, Idle)
                    case _ => Set(s, p, Idle)
  {
    hide Ready, Apply, View, Effect, Written;
  }

  lemma CommitKeeps(start: State, s: System, p: nat)
    requires Sound(start, s) && Core(s.db) && p < |s.procs| && s.procs[p].Busy?
    ensures Sound(start, Fire(s, p, CommitTx))
  {
    var cmd, mem := s.procs[p].cmd, s.procs[p].mem;
    assert Coherent(s.db, cmd, mem);
    CommitFires(s, p);
    hide Fire, Core, Apply, View, Effect, Ready, Coherent, Exclusive, Written, Sound, Next;
    if Ready(s.db, cmd, mem) && Effect(s.db, cmd, mem).Posted? {
      CommitIsStep(s.db, cmd, mem);
      CommitPosts(start, s, p);
    } else {
      Stops(start, s, p);
    }
  }

  lemma FireKeeps(start: State, s: System, p: nat, e: Event)
    requires Sound(start, s) && Core(s.db)
    ensures Sound(start, Fire(s, p, e))
  {
    if p < |s.procs| && s.procs[p].Idle? {
      if e.Begin? { Begins(start, s, p, e.cmd); }
    } else if p < |s.procs| {
      if e.CommitTx? {
        CommitKeeps(start, s, p);
      } else {
        hide Core, Sound, Ready, Apply, View, Effect, Written;
        LockKeeps(start, s, p, e);
      }
    }
  }

  /** The process waits, ends, or holds more locks and still remembers only current rows. */
  ghost predicate SafeStep(s: System, p: nat, s': System)
    requires p < |s.procs| && s.procs[p].Busy?
  {
    || s' == s || s' == Set(s, p, Idle)
    || (p < |s'.procs| && s'.procs[p].Busy? && s' == Set(s, p, Busy(s.procs[p].cmd, s'.procs[p].mem))
        && Coherent(s.db, s.procs[p].cmd, s'.procs[p].mem) && Granted(s, p, s.procs[p].mem, s'.procs[p].mem))
  }

  lemma BalanceStep(s: System, p: nat, cmd: Command, mem: Memory, row: BalanceKey)
    requires p < |s.procs| && s.procs[p] == Busy(cmd, mem) && Coherent(s.db, cmd, mem)
    ensures SafeStep(s, p, Fire(s, p, LockBalance(row)))
  {
    hide Coherent, Ready, Apply, View, Effect, Written, OwnerOf;
    MoreBalances(s.db, cmd, mem, row);
  }

  lemma LookStep(s: System, p: nat, cmd: Command, mem: Memory)
    requires p < |s.procs| && s.procs[p] == Busy(cmd, mem) && Coherent(s.db, cmd, mem)
    ensures SafeStep(s, p, Fire(s, p, Look))
  {
    hide Coherent, Ready, Apply, View, Effect, Written, OwnerOf, Existing, Sum;
    if mem.looked.None? && (cmd.DoReverse? ==> cmd.reverse.original in mem.originals) { Looked(s.db, cmd, mem); }
  }

  lemma Looked(db: State, cmd: Command, mem: Memory)
    requires Coherent(db, cmd, mem) && (cmd.DoReverse? ==> cmd.reverse.original in mem.originals)
    ensures var reversed := if cmd.DoReverse? then Some(Sum(ReversalOf(cmd.reverse.original), db.txns)) else None;
            Coherent(db, cmd, mem.(looked := Some(Existing(db, cmd)), reversed := reversed))
  {
    hide OwnerOf, HoldOf, Existing, Sum;
  }

  lemma AccountStep(s: System, p: nat, cmd: Command, mem: Memory, account: Account)
    requires p < |s.procs| && s.procs[p] == Busy(cmd, mem) && Coherent(s.db, cmd, mem)
    ensures SafeStep(s, p, Fire(s, p, LockAccount(account)))
  {
    hide Coherent, Ready, Apply, View, Effect, Written, OwnerOf;
    MoreAccounts(s.db, cmd, mem, account);
  }

  lemma MoreAccounts(db: State, cmd: Command, mem: Memory, account: Account)
    requires Coherent(db, cmd, mem)
    ensures Coherent(db, cmd, mem.(accounts := mem.accounts + {account}))
  {
    hide OwnerOf, HoldOf, Existing, Sum;
  }

  lemma MoreBalances(db: State, cmd: Command, mem: Memory, row: BalanceKey)
    requires Coherent(db, cmd, mem)
    ensures Coherent(db, cmd, mem.(balances := mem.balances[row := Bal(db.balances, row)]))
  {
    hide OwnerOf, HoldOf, Existing, Sum;
  }

  lemma MoreLots(db: State, cmd: Command, mem: Memory, lot: nat)
    requires Coherent(db, cmd, mem) && lot < |db.lots|
    ensures Coherent(db, cmd, mem.(lots := mem.lots[lot := db.lots[lot]]))
  {
    hide OwnerOf, HoldOf, Existing, Sum;
  }

  lemma AllLots(db: State, cmd: Command, mem: Memory)
    requires Coherent(db, cmd, mem) && mem.owner.Some? && AvailableRow(mem.owner.value) in mem.balances
    ensures Coherent(db, cmd, mem.(lots := mem.lots + MatchedLots(db, mem.owner.value), scannedLots := true))
  {
    hide OwnerOf, HoldOf, Existing, Sum;
  }

  lemma AllParts(db: State, cmd: Command, mem: Memory)
    requires Coherent(db, cmd, mem) && HoldOf(cmd).Some? && HoldOf(cmd).value in mem.holds
    ensures Coherent(db, cmd, mem.(parts := mem.parts + MatchedParts(db, HoldOf(cmd).value), scannedParts := true))
  {
    hide OwnerOf, HoldOf, Existing, Sum;
  }

  lemma KnownHold(db: State, cmd: Command, mem: Memory)
    requires Coherent(db, cmd, mem) && HoldOf(cmd).Some? && HoldOf(cmd).value < |db.holds|
    ensures Coherent(db, cmd,
                     mem.(owner := Some(db.holds[HoldOf(cmd).value].owner),
                          holds := mem.holds[HoldOf(cmd).value := db.holds[HoldOf(cmd).value]]))
  {
  }

  lemma KnownOriginal(db: State, cmd: Command, mem: Memory)
    requires Coherent(db, cmd, mem) && cmd.DoReverse? && cmd.reverse.original < |db.txns|
    ensures Coherent(db, cmd,
                     mem.(owner := Some(db.txns[cmd.reverse.original].owner),
                          originals := mem.originals + {cmd.reverse.original}))
  {
    hide HoldOf;
  }

  lemma KnownLot(db: State, cmd: Command, mem: Memory)
    requires Coherent(db, cmd, mem) && cmd.DoExpireLot? && cmd.lot < |db.lots|
    ensures Coherent(db, cmd, mem.(owner := Some(db.lots[cmd.lot].owner)))
  {
    hide HoldOf;
  }

  lemma ScanLotsStep(s: System, p: nat, cmd: Command, mem: Memory)
    requires p < |s.procs| && s.procs[p] == Busy(cmd, mem) && Coherent(s.db, cmd, mem)
    ensures SafeStep(s, p, Fire(s, p, ScanLots))
  {
    hide Coherent, Ready, Apply, View, Effect, Written, OwnerOf;
    if mem.owner.Some? && AvailableRow(mem.owner.value) in mem.balances { AllLots(s.db, cmd, mem); }
  }

  lemma ScanPartsStep(s: System, p: nat, cmd: Command, mem: Memory)
    requires p < |s.procs| && s.procs[p] == Busy(cmd, mem) && Coherent(s.db, cmd, mem)
    ensures SafeStep(s, p, Fire(s, p, ScanParts))
  {
    hide Coherent, Ready, Apply, View, Effect, Written, OwnerOf;
    if HoldOf(cmd).Some? && HoldOf(cmd).value in mem.holds { AllParts(s.db, cmd, mem); }
  }

  lemma LotStep(s: System, p: nat, cmd: Command, mem: Memory, lot: nat)
    requires p < |s.procs| && s.procs[p] == Busy(cmd, mem) && Coherent(s.db, cmd, mem)
    ensures SafeStep(s, p, Fire(s, p, LockLot(lot)))
  {
    hide Coherent, Ready, Apply, View, Effect, Written, OwnerOf;
    if lot < |s.db.lots| { MoreLots(s.db, cmd, mem, lot); }
  }

  lemma HoldStepKeeps(s: System, p: nat, cmd: Command, mem: Memory)
    requires p < |s.procs| && s.procs[p] == Busy(cmd, mem) && Coherent(s.db, cmd, mem)
    ensures SafeStep(s, p, Fire(s, p, LockHold))
  {
    hide Coherent, Ready, Apply, View, Effect, Written, OwnerOf;
    if HoldOf(cmd).Some? && HoldOf(cmd).value < |s.db.holds| { KnownHold(s.db, cmd, mem); }
  }

  lemma OriginalStep(s: System, p: nat, cmd: Command, mem: Memory)
    requires p < |s.procs| && s.procs[p] == Busy(cmd, mem) && Coherent(s.db, cmd, mem)
    ensures SafeStep(s, p, Fire(s, p, LockOriginal))
  {
    hide Coherent, Ready, Apply, View, Effect, Written, OwnerOf;
    if cmd.DoReverse? && cmd.reverse.original < |s.db.txns| { KnownOriginal(s.db, cmd, mem); }
  }

  lemma PeekStep(s: System, p: nat, cmd: Command, mem: Memory)
    requires p < |s.procs| && s.procs[p] == Busy(cmd, mem) && Coherent(s.db, cmd, mem)
    ensures SafeStep(s, p, Fire(s, p, PeekLot))
  {
    hide Coherent, Ready, Apply, View, Effect, Written, OwnerOf;
    if cmd.DoExpireLot? && cmd.lot < |s.db.lots| { KnownLot(s.db, cmd, mem); }
  }

  lemma LockKeeps(start: State, s: System, p: nat, e: Event)
    requires Sound(start, s) && p < |s.procs| && s.procs[p].Busy? && !e.CommitTx?
    ensures Sound(start, Fire(s, p, e))
  {
    var cmd, mem, s' := s.procs[p].cmd, s.procs[p].mem, Fire(s, p, e);
    assert Coherent(s.db, cmd, mem);
    hide Sound, Coherent, Granted, Ready, Apply, View, Effect, Written;
    assert SafeStep(s, p, s') by {
      hide Fire;
      match e
      case Begin(_) => WaitStep(s, p, e);
      case Abort => WaitStep(s, p, e);
      case CommitTx =>
      case Look => LookStep(s, p, cmd, mem);
      case LockAccount(account) => AccountStep(s, p, cmd, mem, account);
      case PeekLot => PeekStep(s, p, cmd, mem);
      case LockHold => HoldStepKeeps(s, p, cmd, mem);
      case LockOriginal => OriginalStep(s, p, cmd, mem);
      case LockBalance(row) => BalanceStep(s, p, cmd, mem, row);
      case ScanLots => ScanLotsStep(s, p, cmd, mem);
      case ScanParts => ScanPartsStep(s, p, cmd, mem);
      case LockLot(lot) => LotStep(s, p, cmd, mem, lot);
    }
    hide Fire;
    Stops(start, s, p);
    if s' != s && s' != Set(s, p, Idle) {
      Advances(start, s, p, s'.procs[p].mem);
    }
  }

  lemma WaitStep(s: System, p: nat, e: Event)
    requires p < |s.procs| && s.procs[p].Busy? && (e.Begin? || e.Abort?)
    ensures SafeStep(s, p, Fire(s, p, e))
  {
  }

  lemma {:induction false} InterleavingIsSerial(asset: AssetType, n: nat, schedule: seq<(nat, Event)>)
    ensures var s := Interleave(Start(asset, n), schedule);
            Sound(Empty(asset), s) && s.db == Run(Empty(asset), s.log) && Inv(s.db)
  {
    if schedule == [] {
      EmptyHolds(asset);
    } else {
      var m := |schedule| - 1;
      InterleavingIsSerial(asset, n, schedule[..m]);
      var s := Interleave(Start(asset, n), schedule[..m]);
      FireKeeps(Empty(asset), s, schedule[m].0, schedule[m].1);
      RunKeepsInv(asset, Interleave(Start(asset, n), schedule).log);
    }
  }

  // ----- why the locks are needed

  function BalanceMemory(balances: map<BalanceKey, int>): Memory {
    NoMemory(None).(balances := balances)
  }

  /** A credit committed from remembered balances leaves exactly the staleness of the memory behind as drift. */
  lemma StaleCreditDrifts(db: State, t: TransferCommand, balances: map<BalanceKey, int>, row: BalanceKey)
    requires balances.Keys == {AvailableRow(t.owner), CONTROL} && balances.Keys <= db.balances.Keys
    requires var mem := BalanceMemory(balances); Apply(View(db, DoCredit(t), mem), DoCredit(t)).Posted?
    ensures var mem := BalanceMemory(balances);
            var db' := Written(db, mem, Apply(View(db, DoCredit(t), mem), DoCredit(t)).state);
            Drift(db'.balances, db'.entries, row)
            == Drift(db.balances, db.entries, row) + if row in balances then balances[row] - Bal(db.balances, row)
                else 0
  {
    var cmd, mem := DoCredit(t), BalanceMemory(balances);
    var v := View(db, cmd, mem);
    var id := |v.txns|;
    var v1 := AddTxn(v.(balances := EnsureAccounts(v.balances, t.owner)),
                     Transaction(t.source, Credit, t.owner, t.amount, None, t.key, RequestOf(t)));
    EnsureBalances(v, t.owner);
    EnsureKeepsRows(v, t.owner);
    hide Sum, FindTxn, EnsureAccounts;
    var v2 := Move(v1, id, AvailableRow(t.owner), t.amount);
    var v3 := Move(v2, id, CONTROL, -t.amount);
    MoveSums(v1, id, AvailableRow(t.owner), t.amount, row);
    MoveSums(v2, id, CONTROL, -t.amount, row);
    var st := Apply(v, cmd).state;
    assert st.entries == v3.entries && st.balances == v3.balances;
    hide Apply, Transfer, PostTransfer;
    var db' := Written(db, mem, st);
    assert db'.entries == v3.entries;
    assert Bal(v1.balances, row) == Bal(v.balances, row);
  }

  /** So without the row locks an update can be lost: the projection survives exactly when the memory was current. */
  lemma StaleCreditIsLost(db: State, t: TransferCommand, balances: map<BalanceKey, int>)
    requires Inv(db) && balances.Keys == {AvailableRow(t.owner), CONTROL} && balances.Keys <= db.balances.Keys
    requires var mem := BalanceMemory(balances); Apply(View(db, DoCredit(t), mem), DoCredit(t)).Posted?
    ensures var mem := BalanceMemory(balances);
            Projected(Written(db, mem, Apply(View(db, DoCredit(t), mem), DoCredit(t)).state))
            <==> BalancesCurrent(db, mem)
  {
    hide Core, Drift, View, Written, Apply;
    var mem := BalanceMemory(balances);
    var db' := Written(db, mem, Apply(View(db, DoCredit(t), mem), DoCredit(t)).state);
    forall row
      ensures Drift(db'.balances, db'.entries, row)
              == if row in balances then balances[row] - Bal(db.balances, row) else 0
    {
      StaleCreditDrifts(db, t, balances, row);
    }
  }
}
