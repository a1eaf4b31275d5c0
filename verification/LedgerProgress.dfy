/** The lock programs of the postings: run alone, each of them commits with the outcome of the sequential ledger. */
module LedgerProgress {
  import opened Sums
  import opened Ordering
  import opened Machine
  import opened LedgerModel
  import opened LedgerLots
  import opened LedgerInvariant
  import opened LedgerSafety
  import opened LedgerFrame
  import opened LedgerConcurrency

  // ----- programs

  /** The lots a settlement reaches before its amount is used up, in the order of its loop. */
  function Visited(holdLots: seq<HoldLot>, order: seq<nat>, remaining: int, commit: bool): seq<nat>
    decreases |order|
  {
    if order == [] || remaining <= 0 || order[0] >= |holdLots| then []
    else
      var a := holdLots[order[0]];
      var use := Min(Pending(a), remaining);
      if use == 0 then Visited(holdLots, order[1..], remaining, commit)
      else [a.lot] + Visited(holdLots[order[0] := SettlePart(a, use, commit)], order[1..], remaining - use, commit)
  }

  function LockLots(lots: seq<nat>): seq<Event> { seq(|lots|, k requires 0 <= k < |lots| => LockLot(lots[k])) }

  function LockRows(rows: seq<BalanceKey>): seq<Event> {
    seq(|rows|, k requires 0 <= k < |rows| => LockBalance(rows[k]))
  }

  /** The two account rows, in the order of their ids. */
  function LockAccounts(owner: nat, platformFirst: bool): seq<Event> {
    if platformFirst then [LockAccount(Platform), LockAccount(Customer(owner))]
    else [LockAccount(Customer(owner)), LockAccount(Platform)]
  }

  function AccountsAndRows(owner: nat, platformFirst: bool, rows: seq<BalanceKey>): seq<Event> {
    LockAccounts(owner, platformFirst) + LockRows(rows)
  }

  function SettleRowsOf(owner: nat): seq<BalanceKey> { [AvailableRow(owner), FrozenRow(owner), CONTROL] }

  function SettleProgram(db: State, h: HoldCommand, commit: bool, platformFirst: bool): seq<Event> {
    if h.hold >= |db.holds| then [Look, LockHold]
    else
      [Look, LockHold] + AccountsAndRows(db.holds[h.hold].owner, platformFirst, SettleRowsOf(db.holds[h.hold].owner))
      + [ScanParts] + LockLots(VisitedLots(db, h, commit))
  }

  function VisitedLots(db: State, h: HoldCommand, commit: bool): seq<nat>
    requires h.hold < |db.holds|
  {
    Visited(db.holdLots, OpenParts(db.holdLots, h.hold), ActionAmount(db.holds[h.hold], h.amount), commit)
  }

  /** The lookups and locks each posting takes between its begin and its commit, in the order of its code. */
  function Locks(db: State, cmd: Command, platformFirst: bool): seq<Event> {
    match cmd
    case DoCredit(t) => [Look] + AccountsAndRows(t.owner, platformFirst, [AvailableRow(t.owner), CONTROL])
    case DoDebit(t) => [Look] + AccountsAndRows(t.owner, platformFirst, [AvailableRow(t.owner), CONTROL]) + [ScanLots]
    case DoReverse(r) =>
      if r.original >= |db.txns| then [LockOriginal]
      else
        var owner, scan := db.txns[r.original].owner, db.txns[r.original].action == Credit;
        [LockOriginal, Look] + AccountsAndRows(owner, platformFirst, [AvailableRow(owner), CONTROL])
        + if scan then [ScanLots] else []
    case DoFreeze(f) => [Look] + LockRows([AvailableRow(f.owner), FrozenRow(f.owner)]) + [ScanLots]
    case DoCommit(h, _) => SettleProgram(db, h, true, platformFirst)
    case DoRelease(h, _) => SettleProgram(db, h, false, platformFirst)
    case DoExpireHold(h, _) => SettleProgram(db, ExpiryOf(h), false, platformFirst)
    case DoExpireLot(l, _) =>
      if l >= |db.lots| then [PeekLot]
      else
        var owner := db.lots[l].owner;
        [PeekLot] + AccountsAndRows(owner, platformFirst, [AvailableRow(owner), CONTROL]) + LockLots([l])
  }

  function Program(db: State, cmd: Command, platformFirst: bool): seq<Event> {
    [Begin(cmd)] + Locks(db, cmd, platformFirst) + [CommitTx]
  }

  /** One process takes its steps while no other moves. */
  function Play(s: System, p: nat, events: seq<Event>): System
    decreases |events|
  {
    if events == [] then s else Play(Fire(s, p, events[0]), p, events[1..])
  }

  lemma {:induction false} PlayAppend(s: System, p: nat, a: seq<Event>, b: seq<Event>)
    ensures Play(s, p, a + b) == Play(Play(s, p, a), p, b)
    decreases |a|
  {
    hide Fire;
    if a == [] {
      assert a + b == b;
    } else {
      assert (a + b)[1..] == a[1..] + b;
      PlayAppend(Fire(s, p, a[0]), p, a[1..], b);
    }
  }

  function Schedule(p: nat, events: seq<Event>): seq<(nat, Event)> {
    seq(|events|, k requires 0 <= k < |events| => (p, events[k]))
  }

  /** Playing alone is one of the interleavings. */
  lemma {:induction false} PlayIsInterleaving(s: System, p: nat, events: seq<Event>)
    ensures Play(s, p, events) == Interleave(s, Schedule(p, events))
  {
    hide Fire;
    if events != [] {
      var n := |events| - 1;
      assert Schedule(p, events)[..n] == Schedule(p, events[..n]);
      assert events == events[..n] + [events[n]];
      PlayAppend(s, p, events[..n], [events[n]]);
      PlayIsInterleaving(s, p, events[..n]);
      assert Play(Play(s, p, events[..n]), p, [events[n]]) == Fire(Play(s, p, events[..n]), p, events[n]);
    }
  }

  // ----- one process alone

  predicate Alone(s: System, p: nat) {
    p < |s.procs| && forall q :: 0 <= q < |s.procs| && q != p ==> s.procs[q].Idle?
  }

  function With(s: System, p: nat, cmd: Command, mem: Memory): System
    requires p < |s.procs|
  {
    Set(s, p, Busy(cmd, mem))
  }

  // what one lookup or lock adds to the memory

  function Looking(db: State, cmd: Command, mem: Memory): Memory {
    mem.(looked := Some(Existing(db, cmd)),
         reversed := if cmd.DoReverse? then Some(Sum(ReversalOf(cmd.reverse.original), db.txns)) else None)
  }

  function Accounted(mem: Memory, owner: nat): Memory { mem.(accounts := mem.accounts + {Customer(owner), Platform}) }

  function Rowed(db: State, mem: Memory, rows: seq<BalanceKey>): Memory {
    mem.(balances := mem.balances + Balances(db, rows))
  }

  function Scanned(db: State, owner: nat, mem: Memory): Memory {
    mem.(lots := mem.lots + MatchedLots(db, owner), scannedLots := true)
  }

  function Holding(db: State, mem: Memory, hold: nat): Memory
    requires hold < |db.holds|
  {
    mem.(owner := Some(db.holds[hold].owner), holds := mem.holds[hold := db.holds[hold]])
  }

  function PartsScanned(db: State, mem: Memory, hold: nat): Memory {
    mem.(parts := mem.parts + MatchedParts(db, hold), scannedParts := true)
  }

  function Lotted(db: State, mem: Memory, lots: seq<nat>): Memory { mem.(lots := mem.lots + KnownLots(db, lots)) }

  function Naming(db: State, mem: Memory, original: nat): Memory
    requires original < |db.txns|
  {
    mem.(owner := Some(db.txns[original].owner), originals := mem.originals + {original})
  }

  function Balances(db: State, rows: seq<BalanceKey>): map<BalanceKey, int> {
    map row | row in rows :: Bal(db.balances, row)
  }

  function KnownLots(db: State, lots: seq<nat>): map<nat, Lot> { map i | i in lots && i < |db.lots| :: db.lots[i] }

  lemma OneRow(s: System, p: nat, cmd: Command, mem: Memory, row: BalanceKey)
    requires Alone(s, p)
    ensures Fire(With(s, p, cmd, mem), p, LockBalance(row))
            == With(s, p, cmd, mem.(balances := mem.balances[row := Bal(s.db.balances, row)]))
  {
    hide Ready, View, Effect, Written, Apply;
  }

  lemma OneLot(s: System, p: nat, cmd: Command, mem: Memory, lot: nat)
    requires Alone(s, p)
    ensures Fire(With(s, p, cmd, mem), p, LockLot(lot))
         == With(s, p, cmd, if lot < |s.db.lots| then mem.(lots := mem.lots[lot := s.db.lots[lot]]) else mem)
  {
    hide Ready, View, Effect, Written, Apply;
  }

  lemma OneScan(s: System, p: nat, cmd: Command, mem: Memory, owner: nat)
    requires Alone(s, p) && mem.owner == Some(owner) && AvailableRow(owner) in mem.balances
    ensures Fire(With(s, p, cmd, mem), p, ScanLots) == With(s, p, cmd, Scanned(s.db, owner, mem))
  {
    hide Ready, View, Effect, Written, Apply;
  }

  lemma OnePartScan(s: System, p: nat, cmd: Command, mem: Memory, hold: nat)
    requires Alone(s, p) && HoldOf(cmd) == Some(hold) && hold in mem.holds
    ensures Fire(With(s, p, cmd, mem), p, ScanParts)
         == With(s, p, cmd, PartsScanned(s.db, mem, hold))
  {
    hide Ready, View, Effect, Written, Apply;
  }

  lemma OneHold(s: System, p: nat, cmd: Command, mem: Memory, hold: nat)
    requires Alone(s, p) && HoldOf(cmd) == Some(hold)
    ensures Fire(With(s, p, cmd, mem), p, LockHold)
         == if hold >= |s.db.holds| then Set(s, p, Idle)
            else With(s, p, cmd, Holding(s.db, mem, hold))
  {
    hide Ready, View, Effect, Written, Apply;
  }

  lemma OneOriginal(s: System, p: nat, cmd: Command, mem: Memory)
    requires Alone(s, p) && cmd.DoReverse?
    ensures Fire(With(s, p, cmd, mem), p, LockOriginal)
         == var t := cmd.reverse.original;
            if t >= |s.db.txns| then Set(s, p, Idle)
            else With(s, p, cmd, Naming(s.db, mem, t))
  {
    hide Ready, View, Effect, Written, Apply;
  }

  lemma OneLook(s: System, p: nat, cmd: Command, mem: Memory)
    requires Alone(s, p) && mem.looked.None? && (cmd.DoReverse? ==> cmd.reverse.original in mem.originals)
    ensures Fire(With(s, p, cmd, mem), p, Look) == With(s, p, cmd, Looking(s.db, cmd, mem))
  {
    hide Ready, View, Effect, Written, Apply, Existing, Sum;
  }

  lemma OneAccount(s: System, p: nat, cmd: Command, mem: Memory, account: Account)
    requires Alone(s, p)
    ensures Fire(With(s, p, cmd, mem), p, LockAccount(account))
            == With(s, p, cmd, mem.(accounts := mem.accounts + {account}))
  {
    hide Ready, View, Effect, Written, Apply;
  }

  lemma PlayAccounts(s: System, p: nat, cmd: Command, mem: Memory, owner: nat, platformFirst: bool)
    requires Alone(s, p)
    ensures Play(With(s, p, cmd, mem), p, LockAccounts(owner, platformFirst)) == With(s, p, cmd, Accounted(mem, owner))
  {
    hide Fire, With;
    var first, second := if platformFirst then Platform else Customer(owner), if platformFirst then Customer(owner)
        else Platform;
    var mid := mem.(accounts := mem.accounts + {first});
    assert LockAccounts(owner, platformFirst) == [LockAccount(first)] + [LockAccount(second)];
    PlayAppend(With(s, p, cmd, mem), p, [LockAccount(first)], [LockAccount(second)]);
    PlayOne(With(s, p, cmd, mem), p, LockAccount(first));
    OneAccount(s, p, cmd, mem, first);
    PlayOne(With(s, p, cmd, mid), p, LockAccount(second));
    OneAccount(s, p, cmd, mid, second);
    assert mem.accounts + {first} + {second} == mem.accounts + {Customer(owner), Platform};
  }

  lemma PlayAccountsAndRows(s: System, p: nat, cmd: Command, mem: Memory, owner: nat, platformFirst: bool,
                            rows: seq<BalanceKey>)
    requires Alone(s, p)
    ensures Play(With(s, p, cmd, mem), p, AccountsAndRows(owner, platformFirst, rows))
         == With(s, p, cmd, Rowed(s.db, Accounted(mem, owner), rows))
  {
    hide Fire, With, LockAccounts, LockRows;
    PlayAppend(With(s, p, cmd, mem), p, LockAccounts(owner, platformFirst), LockRows(rows));
    PlayAccounts(s, p, cmd, mem, owner, platformFirst);
    PlayRows(s, p, cmd, Accounted(mem, owner), rows);
  }

  lemma BalancesNext(db: State, was: map<BalanceKey, int>, rows: seq<BalanceKey>)
    requires rows != []
    ensures was[rows[0] := Bal(db.balances, rows[0])] + Balances(db, rows[1..]) == was + Balances(db, rows)
  {
  }

  lemma {:induction false} PlayRows(s: System, p: nat, cmd: Command, mem: Memory, rows: seq<BalanceKey>)
    requires Alone(s, p)
    ensures Play(With(s, p, cmd, mem), p, LockRows(rows)) == With(s, p, cmd, Rowed(s.db, mem, rows))
    decreases |rows|
  {
    hide Fire, Alone, With;
    if rows == [] {
      assert mem.balances + Balances(s.db, []) == mem.balances;
    } else {
      var next := mem.(balances := mem.balances[rows[0] := Bal(s.db.balances, rows[0])]);
      OneRow(s, p, cmd, mem, rows[0]);
      BalancesNext(s.db, mem.balances, rows);
      hide Balances;
      assert LockRows(rows)[1..] == LockRows(rows[1..]);
      PlayRows(s, p, cmd, next, rows[1..]);
    }
  }

  lemma KnownNext(db: State, was: map<nat, Lot>, lots: seq<nat>)
    requires lots != []
    ensures (if lots[0] < |db.lots| then was[lots[0] := db.lots[lots[0]]] else was) + KnownLots(db, lots[1..])
            == was + KnownLots(db, lots)
  {
  }

  lemma {:induction false} PlayLots(s: System, p: nat, cmd: Command, mem: Memory, lots: seq<nat>)
    requires Alone(s, p)
    ensures Play(With(s, p, cmd, mem), p, LockLots(lots)) == With(s, p, cmd, Lotted(s.db, mem, lots))
    decreases |lots|
  {
    hide Fire, Alone, With;
    if lots == [] {
      assert mem.lots + KnownLots(s.db, []) == mem.lots;
    } else {
      var next := if lots[0] < |s.db.lots| then mem.(lots := mem.lots[lots[0] := s.db.lots[lots[0]]]) else mem;
      OneLot(s, p, cmd, mem, lots[0]);
      KnownNext(s.db, mem.lots, lots);
      hide KnownLots;
      assert LockLots(lots)[1..] == LockLots(lots[1..]);
      PlayLots(s, p, cmd, next, lots[1..]);
    }
  }

  lemma PlayOne(s: System, p: nat, e: Event)
    ensures Play(s, p, [e]) == Fire(s, p, e)
  {
    hide Fire;
    assert [e][1..] == [];
  }

  /** Taking locks writes nothing. */
  lemma {:induction false} LocksKeepSound(start: State, s: System, p: nat, events: seq<Event>)
    requires Sound(start, s) && Core(s.db) && forall e :: e in events ==> !e.CommitTx?
    ensures Sound(start, Play(s, p, events))
    decreases |events|
  {
    if events != [] {
      FireKeeps(start, s, p, events[0]);
      hide Sound, Core, Ready, View, Effect, Written, Apply;
      assert Fire(s, p, events[0]).db == s.db;
      hide Fire;
      LocksKeepSound(start, Fire(s, p, events[0]), p, events[1..]);
    }
  }

  // ----- which lots a posting changes

  lemma GrantKeepsLots(st: State, t: Transaction, delta: int, expiresAt: Option<Time>)
    requires delta > 0
    ensures PostTransfer(st, t, delta, expiresAt).Posted?
    ensures var lots := PostTransfer(st, t, delta, expiresAt).state.lots;
            |st.lots| <= |lots| && forall i :: 0 <= i < |st.lots| ==> lots[i] == st.lots[i]
  {
  }

  lemma CreditKeepsLots(st: State, t: TransferCommand, mem: Memory)
    requires Transfer(st, t, true).Posted?
    ensures LotsLocked(st.lots, Transfer(st, t, true).state.lots, mem)
  {
    hide PostTransfer, EnsureAccounts, FindTxn, KeyUsed, TransferBlocked;
    GrantKeepsLots(st.(balances := EnsureAccounts(st.balances, t.owner)),
                   Transaction(t.source, Credit, t.owner, t.amount, None, t.key, RequestOf(t)), t.amount, t.expiresAt);
  }

  lemma ReverseDebitKeepsLots(st: State, r: ReverseCommand, mem: Memory)
    requires ReverseTransfer(st, r).Posted? && r.original < |st.txns| && st.txns[r.original].action == Debit
    ensures LotsLocked(st.lots, ReverseTransfer(st, r).state.lots, mem)
  {
    hide PostTransfer, EnsureAccounts, FindTxn, KeyUsed, TransferBlocked, Sum, Wrap64;
    var original := st.txns[r.original];
    var amount := if r.amount == 0 then original.amount else r.amount;
    GrantKeepsLots(st.(balances := EnsureAccounts(st.balances, original.owner)),
                   Transaction(r.source, Reverse, original.owner, amount, Some(r.original), r.key, OtherRequest),
                   amount, None);
  }

  /** A posting that takes from lots takes from lots its scan found. */
  lemma ScannedLots(db: State, cmd: Command, owner: nat, mem: Memory)
    requires Core(db) && Apply(db, cmd).Posted? && OwnerOf(db, cmd) == Some(owner) && HoldOf(cmd).None?
             && !cmd.DoExpireLot?
    requires MatchedLots(db, owner).Keys <= mem.lots.Keys
    ensures LotsLocked(db.lots, Next(db, cmd).lots, mem)
  {
    CommandFrame(db, cmd);
    hide Core, Apply, Next, OwnerOf;
    forall i: nat | i < |db.lots| && Next(db, cmd).lots[i] != db.lots[i] ensures i in mem.lots {
      assert i in MatchedLots(db, owner);
    }
  }

  lemma {:induction false} VisitedCovers(lots: seq<Lot>, holdLots: seq<HoldLot>, order: seq<nat>, remaining: int,
                                         commit: bool, now: Time, back: int, out: int)
    requires SettleParts(lots, holdLots, order, remaining, commit, now, back, out).Settled? && remaining >= 0
    ensures var r := SettleParts(lots, holdLots, order, remaining, commit, now, back, out);
            |r.lots| == |lots|
            && forall i: nat :: i < |lots| && r.lots[i] != lots[i] ==> i in Visited(holdLots, order, remaining, commit)
    decreases |order|
  {
    if order != [] && remaining != 0 {
      var a := holdLots[order[0]];
      var use := Min(Pending(a), remaining);
      if use == 0 {
        VisitedCovers(lots, holdLots, order[1..], remaining, commit, now, back, out);
      } else {
        var goesBack := GoesBack(lots[a.lot], commit, now);
        VisitedCovers(lots[a.lot := SettleLot(lots[a.lot], use, commit, now)],
                      holdLots[order[0] := SettlePart(a, use, commit)],
                      order[1..], remaining - use, commit, now,
                      if goesBack then back + use else back, if goesBack then out else out + use);
      }
    }
  }

  lemma SettleVisits(db: State, h: HoldCommand, action: Action, now: Time, mem: Memory)
    requires SettleHold(db, h, action, now).Posted?
    ensures h.hold < |db.holds|
    ensures KnownLots(db, VisitedLots(db, h, action == Commit)).Keys <= mem.lots.Keys
            ==> LotsLocked(db.lots, SettleHold(db, h, action, now).state.lots, mem)
  {
    hide SettleParts, Visited, OpenParts, EnsureAccounts, FindTxn, StatusAfter;
    VisitedCovers(db.lots, db.holdLots, OpenParts(db.holdLots, h.hold), ActionAmount(db.holds[h.hold], h.amount),
                  action == Commit, now, 0, 0);
  }

  lemma ExpiryLots(db: State, lot: nat, now: Time, mem: Memory)
    requires Apply(db, DoExpireLot(lot, now)).Posted? && lot in mem.lots
    ensures LotsLocked(db.lots, Next(db, DoExpireLot(lot, now)).lots, mem)
  {
    hide EnsureAccounts, FindTxn;
  }

  // ----- the memory after the locks

  /** The memory a program ends with, none when it gives up because the row it names is missing or not due. */
  function Remembered(db: State, cmd: Command): Option<Memory> {
    match cmd
    case DoCredit(t) => Some(TransferMemory(db, cmd, NoMemory(Some(t.owner)), t.owner, false))
    case DoDebit(t) => Some(TransferMemory(db, cmd, NoMemory(Some(t.owner)), t.owner, true))
    case DoReverse(r) =>
      if r.original >= |db.txns| then None
      else
        var original := db.txns[r.original];
        Some(TransferMemory(db, cmd, Naming(db, NoMemory(None), r.original), original.owner, original.action == Credit))
    case DoFreeze(f) =>
      Some(Scanned(db, f.owner,
                   Rowed(db, Looking(db, cmd, NoMemory(Some(f.owner))), [AvailableRow(f.owner), FrozenRow(f.owner)])))
    case DoCommit(h, _) => SettleMemory(db, cmd, h, true)
    case DoRelease(h, _) => SettleMemory(db, cmd, h, false)
    case DoExpireHold(h, _) => SettleMemory(db, cmd, ExpiryOf(h), false)
    case DoExpireLot(l, now) =>
      if l >= |db.lots| || !PastDue(db.lots[l], now) || db.lots[l].available <= 0 then None
      else
        var owner := db.lots[l].owner;
        Some(Lotted(db, Rowed(db, Accounted(NoMemory(Some(owner)), owner), [AvailableRow(owner), CONTROL]), [l]))
  }

  function TransferMemory(db: State, cmd: Command, start: Memory, owner: nat, scan: bool): Memory {
    var mem := Rowed(db, Accounted(Looking(db, cmd, start), owner), [AvailableRow(owner), CONTROL]);
    if scan then Scanned(db, owner, mem) else mem
  }

  function SettleMemory(db: State, cmd: Command, h: HoldCommand, commit: bool): Option<Memory> {
    if h.hold >= |db.holds| then None
    else
      var owner, held := db.holds[h.hold].owner, Holding(db, Looking(db, cmd, NoMemory(None)), h.hold);
      Some(Lotted(db, PartsScanned(db, Rowed(db, Accounted(held, owner), SettleRowsOf(owner)), h.hold),
                  VisitedLots(db, h, commit)))
  }

  /** An idle process that sees nothing to begin stays idle. */
  lemma {:induction false} NothingToDo(s: System, p: nat, events: seq<Event>)
    requires p < |s.procs| && s.procs[p].Idle? && forall e :: e in events ==> !e.Begin?
    ensures Play(s, p, events) == s
    decreases |events|
  {
    hide Ready, View, Effect, Written, Apply;
    if events != [] {
      NothingToDo(s, p, events[1..]);
    }
  }

  /** The lookup, the accounts, two balance rows, and the lot scan if there is one. */
  lemma PlayTransfer(s: System, p: nat, cmd: Command, mem: Memory, owner: nat, platformFirst: bool, scan: bool)
    requires Alone(s, p) && mem.owner == Some(owner) && mem.looked.None?
    requires cmd.DoReverse? ==> cmd.reverse.original in mem.originals
    ensures Play(With(s, p, cmd, mem), p, [Look] + AccountsAndRows(owner, platformFirst, [AvailableRow(owner), CONTROL])
                 + if scan then [ScanLots] else [])
         == With(s, p, cmd, TransferMemory(s.db, cmd, mem, owner, scan))
  {
    var rows, s0 := [AvailableRow(owner), CONTROL], With(s, p, cmd, mem);
    var tail: seq<Event> := if scan then [ScanLots] else [];
    hide Fire, With, Alone, AccountsAndRows;
    PlayAppend(s0, p, [Look] + AccountsAndRows(owner, platformFirst, rows), tail);
    PlayAppend(s0, p, [Look], AccountsAndRows(owner, platformFirst, rows));
    PlayOne(s0, p, Look);
    OneLook(s, p, cmd, mem);
    PlayAccountsAndRows(s, p, cmd, Looking(s.db, cmd, mem), owner, platformFirst, rows);
    if scan {
      var read := TransferMemory(s.db, cmd, mem, owner, false);
      assert AvailableRow(owner) in rows;
      OneScan(s, p, cmd, read, owner);
      PlayOne(With(s, p, cmd, read), p, ScanLots);
    }
  }

  lemma PlayFreeze(s: System, p: nat, cmd: Command, f: FreezeCommand)
    requires Alone(s, p) && cmd == DoFreeze(f)
    ensures Play(With(s, p, cmd, NoMemory(Some(f.owner))), p,
                 [Look] + LockRows([AvailableRow(f.owner), FrozenRow(f.owner)]) + [ScanLots])
         == With(s, p, cmd, Remembered(s.db, cmd).value)
  {
    var rows, s0 := [AvailableRow(f.owner), FrozenRow(f.owner)], With(s, p, cmd, NoMemory(Some(f.owner)));
    hide Fire, With, Alone, LockRows;
    PlayAppend(s0, p, [Look] + LockRows(rows), [ScanLots]);
    PlayAppend(s0, p, [Look], LockRows(rows));
    PlayOne(s0, p, Look);
    OneLook(s, p, cmd, NoMemory(Some(f.owner)));
    var looked := Looking(s.db, cmd, NoMemory(Some(f.owner)));
    PlayRows(s, p, cmd, looked, rows);
    assert AvailableRow(f.owner) in rows;
    OneScan(s, p, cmd, Rowed(s.db, looked, rows), f.owner);
    PlayOne(With(s, p, cmd, Rowed(s.db, looked, rows)), p, ScanLots);
  }

  lemma PlaySettle(s: System, p: nat, cmd: Command, h: HoldCommand, commit: bool, platformFirst: bool)
    requires Alone(s, p) && s.procs[p].Idle? && HoldOf(cmd) == Some(h.hold)
    ensures Play(With(s, p, cmd, NoMemory(None)), p, SettleProgram(s.db, h, commit, platformFirst))
         == match SettleMemory(s.db, cmd, h, commit)
            case Some(mem) => With(s, p, cmd, mem)
            case None => s
  {
    hide Fire, VisitedLots, AccountsAndRows, LockLots;
    var s0, looked := With(s, p, cmd, NoMemory(None)), Looking(s.db, cmd, NoMemory(None));
    PlayAppend(s0, p, [Look], [LockHold]);
    PlayOne(s0, p, Look);
    OneLook(s, p, cmd, NoMemory(None));
    PlayOne(With(s, p, cmd, looked), p, LockHold);
    OneHold(s, p, cmd, looked, h.hold);
    assert [Look, LockHold] == [Look] + [LockHold];
    if h.hold >= |s.db.holds| {
      assert s.procs[p := Idle] == s.procs;
    } else {
      hide With, Alone;
      var owner, held := s.db.holds[h.hold].owner, Holding(s.db, looked, h.hold);
      var rows, lots := SettleRowsOf(owner), LockLots(VisitedLots(s.db, h, commit));
      var locks := AccountsAndRows(owner, platformFirst, rows);
      PlayAppend(s0, p, [Look, LockHold] + locks + [ScanParts], lots);
      PlayAppend(s0, p, [Look, LockHold] + locks, [ScanParts]);
      PlayAppend(s0, p, [Look, LockHold], locks);
      PlayAccountsAndRows(s, p, cmd, held, owner, platformFirst, rows);
      var read := Rowed(s.db, Accounted(held, owner), rows);
      PlayOne(With(s, p, cmd, read), p, ScanParts);
      OnePartScan(s, p, cmd, read, h.hold);
      PlayLots(s, p, cmd, PartsScanned(s.db, read, h.hold), VisitedLots(s.db, h, commit));
    }
  }

  lemma PlayReverse(s: System, p: nat, r: ReverseCommand, platformFirst: bool)
    requires Alone(s, p) && s.procs[p].Idle?
    ensures Play(With(s, p, DoReverse(r), NoMemory(None)), p, Locks(s.db, DoReverse(r), platformFirst))
         == match Remembered(s.db, DoReverse(r))
            case Some(mem) => With(s, p, DoReverse(r), mem)
            case None => s
  {
    hide Fire, AccountsAndRows, TransferMemory;
    var cmd := DoReverse(r);
    var s0 := With(s, p, cmd, NoMemory(None));
    OneOriginal(s, p, cmd, NoMemory(None));
    PlayOne(s0, p, LockOriginal);
    if r.original >= |s.db.txns| {
      assert s.procs[p := Idle] == s.procs;
    } else {
      hide With, Alone;
      var owner, scan := s.db.txns[r.original].owner, s.db.txns[r.original].action == Credit;
      var locks := AccountsAndRows(owner, platformFirst, [AvailableRow(owner), CONTROL]);
      var steps := [Look] + locks + if scan then [ScanLots] else [];
      assert Locks(s.db, cmd, platformFirst) == [LockOriginal] + steps;
      PlayAppend(s0, p, [LockOriginal], steps);
      PlayTransfer(s, p, cmd, Naming(s.db, NoMemory(None), r.original), owner, platformFirst, scan);
    }
  }

  lemma OnePeek(s: System, p: nat, l: nat, now: Time, mem: Memory)
    requires Alone(s, p)
    ensures Fire(With(s, p, DoExpireLot(l, now), mem), p, PeekLot)
         == if l >= |s.db.lots| || !PastDue(s.db.lots[l], now) || s.db.lots[l].available <= 0 then Set(s, p, Idle)
            else With(s, p, DoExpireLot(l, now), mem.(owner := Some(s.db.lots[l].owner)))
  {
    hide Ready, View, Effect, Written, Apply;
  }

  lemma PlayExpiry(s: System, p: nat, l: nat, now: Time, platformFirst: bool)
    requires Alone(s, p) && s.procs[p].Idle?
    ensures Play(With(s, p, DoExpireLot(l, now), NoMemory(None)), p, Locks(s.db, DoExpireLot(l, now), platformFirst))
         == match Remembered(s.db, DoExpireLot(l, now))
            case Some(mem) => With(s, p, DoExpireLot(l, now), mem)
            case None => s
  {
    hide Fire;
    var cmd := DoExpireLot(l, now);
    var s0 := With(s, p, cmd, NoMemory(None));
    OnePeek(s, p, l, now, NoMemory(None));
    PlayOne(s0, p, PeekLot);
    assert s.procs[p := Idle] == s.procs;
    if l < |s.db.lots| {
      var owner := s.db.lots[l].owner;
      var rows := [AvailableRow(owner), CONTROL];
      var locks := AccountsAndRows(owner, platformFirst, rows);
      PlayAppend(s0, p, [PeekLot], locks + LockLots([l]));
      assert Locks(s.db, cmd, platformFirst) == [PeekLot] + (locks + LockLots([l]));
      if PastDue(s.db.lots[l], now) && s.db.lots[l].available > 0 {
        var mem := NoMemory(Some(owner));
        PlayAppend(With(s, p, cmd, mem), p, locks, LockLots([l]));
        PlayAccountsAndRows(s, p, cmd, mem, owner, platformFirst, rows);
        PlayLots(s, p, cmd, Rowed(s.db, Accounted(mem, owner), rows), [l]);
      } else {
        NothingToDo(s, p, locks + LockLots([l]));
      }
    }
  }

  /** Alone, a posting gets all the locks of its program. */
  lemma LocksTaken(s: System, p: nat, cmd: Command, platformFirst: bool)
    requires Alone(s, p) && s.procs[p].Idle?
    ensures Play(s, p, [Begin(cmd)] + Locks(s.db, cmd, platformFirst))
         == match Remembered(s.db, cmd)
            case Some(mem) => With(s, p, cmd, mem)
            case None => s
  {
    PlayAppend(s, p, [Begin(cmd)], Locks(s.db, cmd, platformFirst));
    PlayOne(s, p, Begin(cmd));
    hide Play, SettleProgram, SettleMemory, AccountsAndRows, TransferMemory, Rowed, Scanned;
    match cmd
    case DoCredit(t) =>
      PlayTransfer(s, p, cmd, NoMemory(Some(t.owner)), t.owner, platformFirst, false);
      assert Locks(s.db, cmd, platformFirst) + [] == Locks(s.db, cmd, platformFirst);
    case DoDebit(t) => PlayTransfer(s, p, cmd, NoMemory(Some(t.owner)), t.owner, platformFirst, true);
    case DoReverse(r) => PlayReverse(s, p, r, platformFirst);
    case DoFreeze(f) => PlayFreeze(s, p, cmd, f);
    case DoCommit(h, _) => PlaySettle(s, p, cmd, h, true, platformFirst);
    case DoRelease(h, _) => PlaySettle(s, p, cmd, h, false, platformFirst);
    case DoExpireHold(h, _) => PlaySettle(s, p, cmd, ExpiryOf(h), false, platformFirst);
    case DoExpireLot(l, now) => PlayExpiry(s, p, l, now, platformFirst);
  }

  /** A program that gave up named a row on which the sequential posting does nothing either. */
  lemma GivesUp(db: State, cmd: Command)
    requires Remembered(db, cmd).None?
    ensures !Apply(db, cmd).Posted? && Next(db, cmd) == db
  {
    hide FindTxn, FindHold, EnsureAccounts, Take, SettleParts, Visited;
  }

  /** The locks of the program are the locks the commit asks for. */
  lemma ProgramLocks(db: State, cmd: Command, mem: Memory)
    requires Core(db) && Remembered(db, cmd) == Some(mem)
    ensures mem.owner.Some? && OwnerOf(db, cmd) == mem.owner && RowsOf(cmd, mem.owner.value) <= mem.balances.Keys
    ensures cmd.DoDebit? || cmd.DoFreeze? ==> mem.scannedLots
    ensures cmd.DoReverse? ==> cmd.reverse.original in mem.originals && cmd.reverse.original < |db.txns|
                               && (db.txns[cmd.reverse.original].action == Credit ==> mem.scannedLots)
    ensures HoldOf(cmd).Some? ==> HoldOf(cmd).value in mem.holds && mem.scannedParts
    ensures cmd.DoExpireLot? ==> cmd.lot in mem.lots
    ensures !cmd.DoExpireLot? ==> mem.looked == Some(Existing(db, cmd))
    ensures !cmd.DoFreeze? ==> {Customer(mem.owner.value), Platform} <= mem.accounts
    ensures cmd.DoReverse? ==> mem.reversed.Some?
    ensures mem.scannedLots ==> MatchedLots(db, mem.owner.value).Keys <= mem.lots.Keys
  {
    hide Core, Visited, OpenParts;
  }

  lemma ProgramCovers(db: State, cmd: Command, mem: Memory)
    requires Core(db) && Remembered(db, cmd) == Some(mem) && Apply(db, cmd).Posted?
    ensures LotsLocked(db.lots, Next(db, cmd).lots, mem)
  {
    ProgramLocks(db, cmd, mem);
    hide Core, Transfer, SettleHold, FreezeAmount, ExpireLot, LotsLocked, Visited, OpenParts, MatchedLots, RowsOf,
      EnsureAccounts, PostTransfer, FindTxn, Sum;
    match cmd
    case DoCredit(t) => CreditKeepsLots(db, t, mem);
    case DoDebit(t) => ScannedLots(db, cmd, t.owner, mem);
    case DoReverse(r) =>
      if db.txns[r.original].action == Credit {
        ScannedLots(db, cmd, mem.owner.value, mem);
      } else {
        assert db.txns[r.original].action == Debit;
        ReverseDebitKeepsLots(db, r, mem);
      }
    case DoFreeze(f) => ScannedLots(db, cmd, f.owner, mem);
    case DoCommit(h, now) => SettleVisits(db, h, Commit, now, mem);
    case DoRelease(h, now) => SettleVisits(db, h, Release, now, mem);
    case DoExpireHold(h, now) => SettleVisits(db, ExpiryOf(h), Expire, now, mem);
    case DoExpireLot(l, now) => ExpiryLots(db, l, now, mem);
  }

  lemma NoCommitInLocks(db: State, cmd: Command, platformFirst: bool)
    ensures forall e :: e in [Begin(cmd)] + Locks(db, cmd, platformFirst) ==> !e.CommitTx?
  {
    hide Visited, OpenParts;
  }

  lemma ReadyAtEnd(db: State, cmd: Command, mem: Memory)
    requires Core(db) && Remembered(db, cmd) == Some(mem) && Coherent(db, cmd, mem)
    ensures Ready(db, cmd, mem)
  {
    ProgramLocks(db, cmd, mem);
    ViewIsCurrent(db, cmd, mem);
    EffectIsCurrent(db, cmd, mem);
    hide Core, Coherent, Remembered, LotsLocked, RowsOf, OwnerOf, MatchedLots, View, Effect, Existing;
    if Apply(db, cmd).Posted? {
      ProgramCovers(db, cmd, mem);
    }
    hide Apply;
  }

  lemma CommitAlone(start: State, s: System, p: nat, cmd: Command, mem: Memory)
    requires Core(s.db) && p < |s.procs| && Remembered(s.db, cmd) == Some(mem) && Sound(start, With(s, p, cmd, mem))
    ensures Fire(With(s, p, cmd, mem), p, CommitTx)
         == Set(System(Next(s.db, cmd), s.procs, if Apply(s.db, cmd).Posted? then s.log + [cmd] else s.log), p, Idle)
  {
    var s' := With(s, p, cmd, mem);
    assert Coherent(s'.db, s'.procs[p].cmd, s'.procs[p].mem);
    hide Core, Sound, Apply, Coherent, View, Effect, Remembered, Ready, Written, Fire;
    EffectIsCurrent(s.db, cmd, mem);
    ReadyAtEnd(s.db, cmd, mem);
    CommitFires(s', p);
    if Apply(s.db, cmd).Posted? {
      CommitIsStep(s.db, cmd, mem);
    }
  }

  /** Every posting that finds its locks free ends, and with the outcome of the sequential ledger. */
  lemma UncontendedCommits(start: State, s: System, p: nat, cmd: Command, platformFirst: bool)
    requires Sound(start, s) && Core(s.db) && p < |s.procs| && forall q :: 0 <= q < |s.procs| ==> s.procs[q].Idle?
    ensures Interleave(s, Schedule(p, Program(s.db, cmd, platformFirst)))
         == System(Next(s.db, cmd), s.procs, if Apply(s.db, cmd).Posted? then s.log + [cmd] else s.log)
  {
    hide Core, Sound, Apply, Next, Remembered, Locks, Fire;
    var locks := [Begin(cmd)] + Locks(s.db, cmd, platformFirst);
    PlayIsInterleaving(s, p, locks + [CommitTx]);
    PlayAppend(s, p, locks, [CommitTx]);
    LocksTaken(s, p, cmd, platformFirst);
    NoCommitInLocks(s.db, cmd, platformFirst);
    LocksKeepSound(start, s, p, locks);
    PlayOne(Play(s, p, locks), p, CommitTx);
    assert s.procs[p := Idle] == s.procs;
    match Remembered(s.db, cmd)
    case Some(mem) => CommitAlone(start, s, p, cmd, mem);
    case None =>
      GivesUp(s.db, cmd);
      NothingToDo(s, p, [CommitTx]);
  }
}
