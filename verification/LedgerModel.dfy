/** The asset ledger of one asset type: tables as values, each posting as one atomic function on them.
    A row's id is its index, so ids are fresh and increasing. */
module LedgerModel {
  import opened Machine
  import opened Sums
  import opened Ordering

  datatype AssetType = GrowthValue | WineCoin | Balance

  // ----- rows

  datatype Account = Customer(id: nat) | Platform

  datatype Bucket = Available | Frozen

  datatype BalanceKey = BalanceKey(account: Account, bucket: Bucket)

  datatype LotStatus = LotActive | LotConsumed | LotExpired

  datatype Lot = Lot(owner: nat, grant: nat, granted: int,
                     available: int, frozen: int, consumed: int, expired: int,
                     expiresAt: Option<Time>, status: LotStatus)

  datatype HoldStatus = HoldActive | PartiallyCommitted | Committed | Released | HoldExpired

  datatype Hold = Hold(reservation: string, owner: nat, original: int, committed: int, released: int,
                       status: HoldStatus, source: Source, expiresAt: Option<Time>)

  datatype HoldLot = HoldLot(hold: nat, lot: nat, amount: int, committed: int, released: int)

  datatype Action = Credit | Debit | Reverse | Freeze | Commit | Release | Expire

  datatype SourceType = Compensation | ManualAdjustment | ReconciliationTest | Expiry | Unregistered(text: string)

  /** The decimal text of an id, the text `hold-<id>`, or any other text. */
  datatype SourceId = Id(n: nat) | HoldId(hold: nat) | Text(text: string)

  datatype Source = Source(kind: SourceType, id: SourceId)

  datatype Token = Given(text: string) | LotToken(lot: nat) | HoldToken(hold: nat)

  /** An idempotency key is unique per actor. */
  datatype IdempotencyKey = IdempotencyKey(actor: nat, token: Token)

  const SYSTEM: nat := 0

  /** The content behind a request hash; hashes are taken to be injective. */
  datatype Request = TransferRequest(owner: nat, amount: int, expiresAt: Option<Time>, note: string) | OtherRequest

  datatype Transaction = Transaction(source: Source, action: Action, owner: nat, amount: int,
                                     reversalOf: Option<nat>, key: IdempotencyKey, request: Request)

  datatype Entry = Entry(txn: nat, row: BalanceKey, delta: int, after: int)

  datatype State = State(asset: AssetType,
                         balances: map<BalanceKey, int>,
                         lots: seq<Lot>, holds: seq<Hold>, holdLots: seq<HoldLot>,
                         txns: seq<Transaction>, entries: seq<Entry>)

  // ----- replies

  datatype Error =
    | AssetTypeInvalid | AmountInvalid | SourceNotAllowed | CommandInvalid
    | IdempotencyConflict | MemberNotFound | TransactionNotFound | HoldNotFound
    | InsufficientAvailable | AmountOverflow | HoldStateConflict
    | ReversalUnsupported | ReversalExceeded
    | LotsDoNotMatch | HoldExceedsFrozen | HoldLotExceedsLot | AllocationIncomplete
    | Unbalanced | ExpiringLotExceeds | RowMissing
  {
    /** The "cannot happen" guards of the code. */
    predicate Internal() {
      LotsDoNotMatch? || HoldExceedsFrozen? || HoldLotExceedsLot? || AllocationIncomplete?
      || Unbalanced? || ExpiringLotExceeds? || RowMissing?
    }
  }

  datatype Outcome = Posted(state: State) | Replayed(row: nat) | Skipped | Rejected(error: Error)

  // ----- commands

  datatype TransferCommand = TransferCommand(owner: nat, amount: int, source: Source, key: IdempotencyKey,
                                             registered: bool, expiresAt: Option<Time>, note: string)

  datatype ReverseCommand = ReverseCommand(original: nat, amount: int, source: Source, key: IdempotencyKey)

  datatype FreezeCommand = FreezeCommand(owner: nat, amount: int, source: Source, key: IdempotencyKey,
                                         registered: bool, reservation: string, holdExpiresAt: Option<Time>)

  datatype HoldCommand = HoldCommand(hold: nat, amount: int, source: Source, key: IdempotencyKey)

  // ----- queries

  function AvailableOf(c: nat): Lot -> int { (l: Lot) => if l.owner == c then l.available else 0 }

  function FrozenOf(c: nat): Lot -> int { (l: Lot) => if l.owner == c then l.frozen else 0 }

  function Pending(a: HoldLot): int { a.amount - a.committed - a.released }

  function DeltaOn(row: BalanceKey): Entry -> int { (e: Entry) => if e.row == row then e.delta else 0 }

  function ReversalOf(original: nat): Transaction -> int {
    (t: Transaction) => if t.reversalOf == Some(original) then t.amount else 0
  }

  /** The lookup by the unique key (source type, source id, action). */
  function FindTxn(txns: seq<Transaction>, source: Source, action: Action): (r: Option<nat>)
    ensures r.Some? ==> r.value < |txns| && txns[r.value].source == source && txns[r.value].action == action
    ensures r.None? ==> forall i :: 0 <= i < |txns| ==> !(txns[i].source == source && txns[i].action == action)
  {
    if txns == [] then None
    else
      var n := |txns| - 1;
      if txns[n].source == source && txns[n].action == action then Some(n) else FindTxn(txns[..n], source, action)
  }

  predicate KeyUsed(txns: seq<Transaction>, key: IdempotencyKey) {
    exists i :: 0 <= i < |txns| && txns[i].key == key
  }

  function FindHold(holds: seq<Hold>, reservation: string): (r: Option<nat>)
    ensures r.Some? ==> r.value < |holds| && holds[r.value].reservation == reservation
    ensures r.None? ==> forall i :: 0 <= i < |holds| ==> holds[i].reservation != reservation
  {
    if holds == [] then None
    else
      var n := |holds| - 1;
      if holds[n].reservation == reservation then Some(n) else FindHold(holds[..n], reservation)
  }

  /** First to expire first: lots without an expiry last, ties by id. */
  function FefoBefore(lots: seq<Lot>): (nat, nat) -> bool {
    (a: nat, b: nat) =>
      var ea := if a < |lots| then lots[a].expiresAt else None;
      var eb := if b < |lots| then lots[b].expiresAt else None;
      if ea.Some? && eb.Some? && ea.value != eb.value then ea.value < eb.value
      else if ea.Some? != eb.Some? then ea.Some?
      else a <= b
  }

  function HasAvailable(lots: seq<Lot>, owner: nat): nat -> bool {
    (i: nat) => i < |lots| && lots[i].owner == owner && lots[i].available > 0
  }

  function FefoOrder(lots: seq<Lot>, owner: nat): seq<nat> {
    Query(|lots|, HasAvailable(lots, owner), FefoBefore(lots))
  }

  function LotIdBefore(holdLots: seq<HoldLot>): (nat, nat) -> bool {
    (a: nat, b: nat) =>
      var la := if a < |holdLots| then holdLots[a].lot else 0;
      var lb := if b < |holdLots| then holdLots[b].lot else 0;
      if la != lb then la < lb else a <= b
  }

  function IsOpenPart(holdLots: seq<HoldLot>, hold: nat): nat -> bool {
    (i: nat) => i < |holdLots| && holdLots[i].hold == hold
                && holdLots[i].committed + holdLots[i].released < holdLots[i].amount
  }

  /** The unsettled parts of a hold, in lot order. */
  function OpenParts(holdLots: seq<HoldLot>, hold: nat): seq<nat> {
    Query(|holdLots|, IsOpenPart(holdLots, hold), LotIdBefore(holdLots))
  }

  function Bal(balances: map<BalanceKey, int>, row: BalanceKey): int {
    if row in balances then balances[row] else 0
  }

  const CONTROL: BalanceKey := BalanceKey(Platform, Available)

  function AvailableRow(owner: nat): BalanceKey { BalanceKey(Customer(owner), Available) }

  function FrozenRow(owner: nat): BalanceKey { BalanceKey(Customer(owner), Frozen) }

  predicate PastDue(l: Lot, now: Time) { l.expiresAt.Some? && l.expiresAt.value <= now }

  // ----- shared steps

  function EnsureRow(balances: map<BalanceKey, int>, row: BalanceKey): map<BalanceKey, int> {
    if row in balances then balances else balances[row := 0]
  }

  /** Creates the four balance rows of a customer and of the platform control account if missing. */
  function EnsureAccounts(balances: map<BalanceKey, int>, owner: nat): map<BalanceKey, int> {
    EnsureRow(EnsureRow(EnsureRow(EnsureRow(balances,
      AvailableRow(owner)), FrozenRow(owner)), CONTROL), BalanceKey(Platform, Frozen))
  }

  /** One entry together with the balance it writes. */
  function Move(st: State, txn: nat, row: BalanceKey, delta: int): State {
    var after := Bal(st.balances, row) + delta;
    st.(balances := st.balances[row := after], entries := st.entries + [Entry(txn, row, delta, after)])
  }

  function AddTxn(st: State, t: Transaction): State {
    st.(txns := st.txns + [t])
  }

  datatype Taken = Taken(lots: seq<Lot>, holdLots: seq<HoldLot>, remaining: int)

  function TakeOne(l: Lot, use: int, freeze: bool): Lot {
    if freeze then l.(available := l.available - use, frozen := l.frozen + use)
    else l.(available := l.available - use, consumed := l.consumed + use,
            status := if l.available - use == 0 && l.frozen == 0 then LotConsumed else l.status)
  }

  /** Greedy consumption of the lots in `order`; with a hold the amount is frozen and recorded per lot,
      without one it is consumed. */
  function Take(lots: seq<Lot>, holdLots: seq<HoldLot>, hold: Option<nat>, order: seq<nat>, remaining: int): Taken
    requires forall x: nat :: x in order ==> x < |lots|
    decreases |order|
  {
    if order == [] || remaining == 0 then Taken(lots, holdLots, remaining)
    else
      var i := order[0];
      assert i in order && forall x: nat :: x in order[1..] ==> x in order;
      var use := Min(remaining, lots[i].available);
      if use == 0 then Take(lots, holdLots, hold, order[1..], remaining)
      else
        Take(lots[i := TakeOne(lots[i], use, hold.Some?)],
             if hold.Some? then holdLots + [HoldLot(hold.value, i, use, 0, 0)] else holdLots,
             hold, order[1..], remaining - use)
  }

  datatype Settled = Settled(lots: seq<Lot>, holdLots: seq<HoldLot>, remaining: int, back: int, out: int)
                   | Fault(error: Error)

  /** A released part of a lot that is past its expiry does not return to available. */
  predicate GoesBack(l: Lot, commit: bool, now: Time) { !commit && !PastDue(l, now) }

  function SettleLot(l: Lot, use: int, commit: bool, now: Time): Lot {
    if commit then l.(frozen := l.frozen - use, consumed := l.consumed + use)
    else if PastDue(l, now) then l.(frozen := l.frozen - use, expired := l.expired + use, status := LotExpired)
    else l.(frozen := l.frozen - use, available := l.available + use)
  }

  function SettlePart(a: HoldLot, use: int, commit: bool): HoldLot {
    if commit then a.(committed := a.committed + use) else a.(released := a.released + use)
  }

  /** Settles `remaining` of a hold over its open parts; `back` returns to available, `out` goes to the platform. */
  function SettleParts(lots: seq<Lot>, holdLots: seq<HoldLot>, order: seq<nat>, remaining: int,
                       commit: bool, now: Time, back: int, out: int): Settled
    decreases |order|
  {
    if order == [] || remaining == 0 then Settled(lots, holdLots, remaining, back, out)
    else if order[0] >= |holdLots| || holdLots[order[0]].lot >= |lots| then Fault(RowMissing)
    else
      var a := holdLots[order[0]];
      var use := Min(Pending(a), remaining);
      if use == 0 then SettleParts(lots, holdLots, order[1..], remaining, commit, now, back, out)
      else
        var l := lots[a.lot];
        if l.frozen < use then Fault(HoldLotExceedsLot)
        else
          var goesBack := GoesBack(l, commit, now);
          SettleParts(lots[a.lot := SettleLot(l, use, commit, now)],
                      holdLots[order[0] := SettlePart(a, use, commit)],
                      order[1..], remaining - use, commit, now,
                      if goesBack then back + use else back, if goesBack then out else out + use)
  }

  function StatusAfter(action: Action, original: int, committed: int, released: int): HoldStatus {
    if committed + released == original then
      if committed == original then Committed
      else if action == Expire then HoldExpired
      else Released
    else if committed > 0 then PartiallyCommitted
    else HoldActive
  }

  predicate Terminal(s: HoldStatus) { s == Committed || s == Released || s == HoldExpired }

  // ----- postings

  function Validate(asset: AssetType, amount: int, source: Source, action: Action): Option<Error> {
    if amount <= 0 || amount > MAX_INT64 / 2 then Some(AmountInvalid)
    else match source.kind
      case Compensation => if asset != Balance || action != Credit then Some(SourceNotAllowed) else None
      case ManualAdjustment => if action == Freeze then Some(SourceNotAllowed) else None
      case ReconciliationTest => None
      case Expiry => if action != Expire then Some(SourceNotAllowed) else None
      case Unregistered(_) => Some(SourceNotAllowed)
  }

  function RequestOf(cmd: TransferCommand): Request {
    TransferRequest(cmd.owner, cmd.amount, cmd.expiresAt, cmd.note)
  }

  function GrantedLot(owner: nat, grant: nat, amount: int, expiresAt: Option<Time>): Lot {
    Lot(owner, grant, amount, amount, 0, 0, 0, expiresAt, LotActive)
  }

  /** Writes a transfer of `delta` to the customer (and its opposite to the control account) with its lot effect. */
  function PostTransfer(st: State, t: Transaction, delta: int, expiresAt: Option<Time>): Outcome {
    var id := |st.txns|;
    var st1 := Move(Move(AddTxn(st, t), id, AvailableRow(t.owner), delta), id, CONTROL, -delta);
    if delta > 0 then
      Posted(st1.(lots := st1.lots + [GrantedLot(t.owner, id, delta, expiresAt)]))
    else
      var taken := Take(st1.lots, st1.holdLots, None, FefoOrder(st1.lots, t.owner), -delta);
      if taken.remaining != 0 then Rejected(LotsDoNotMatch)
      else Posted(st1.(lots := taken.lots))
  }

  /** The balance checks before a transfer of `delta`. */
  function TransferBlocked(balances: map<BalanceKey, int>, owner: nat, delta: int): Option<Error> {
    var available := Bal(balances, AvailableRow(owner));
    if delta < 0 && available < -delta then Some(InsufficientAvailable)
    else if WouldOverflow(available, delta) || WouldOverflow(Bal(balances, CONTROL), -delta) then Some(AmountOverflow)
    else None
  }

  /** Credit and Debit. */
  function Transfer(st: State, cmd: TransferCommand, credit: bool): Outcome {
    var action := if credit then Credit else Debit;
    var invalid := Validate(st.asset, cmd.amount, cmd.source, action);
    var existing := FindTxn(st.txns, cmd.source, action);
    if invalid.Some? then Rejected(invalid.value)
    else if existing.Some? then
      if st.txns[existing.value].request != RequestOf(cmd) then Rejected(IdempotencyConflict)
      else Replayed(existing.value)
    else if KeyUsed(st.txns, cmd.key) then Rejected(IdempotencyConflict)
    else if !cmd.registered then Rejected(MemberNotFound)
    else
      var st1 := st.(balances := EnsureAccounts(st.balances, cmd.owner));
      var delta := if credit then cmd.amount else -cmd.amount;
      var blocked := TransferBlocked(st1.balances, cmd.owner, delta);
      if blocked.Some? then Rejected(blocked.value)
      else PostTransfer(st1, Transaction(cmd.source, action, cmd.owner, cmd.amount, None, cmd.key, RequestOf(cmd)),
                        delta, cmd.expiresAt)
  }

  function ReverseTransfer(st: State, cmd: ReverseCommand): Outcome {
    ReverseSeeing(st, cmd, Sum(ReversalOf(cmd.original), st.txns))
  }

  /** A reversal whose transaction has read `reversed` as the sum of earlier ones. */
  function ReverseSeeing(st: State, cmd: ReverseCommand, reversed: int): Outcome {
    if cmd.source.kind != ManualAdjustment && cmd.source.kind != ReconciliationTest then Rejected(CommandInvalid)
    else if cmd.original >= |st.txns| then Rejected(TransactionNotFound)
    else
      var original := st.txns[cmd.original];
      var existing := FindTxn(st.txns, cmd.source, Reverse);
      if original.action != Credit && original.action != Debit then Rejected(ReversalUnsupported)
      else if existing.Some? then Replayed(existing.value)
      else
        var amount := if cmd.amount == 0 then original.amount else cmd.amount;
        if amount <= 0 || Wrap64(reversed + amount) > original.amount then Rejected(ReversalExceeded)
        else
          var st1 := st.(balances := EnsureAccounts(st.balances, original.owner));
          var delta := if original.action == Debit then amount else -amount;
          var blocked := TransferBlocked(st1.balances, original.owner, delta);
          if blocked.Some? then Rejected(blocked.value)
          else if KeyUsed(st.txns, cmd.key) then Rejected(IdempotencyConflict)
          else PostTransfer(st1,
                            Transaction(cmd.source, Reverse, original.owner, amount, Some(cmd.original), cmd.key,
                                        OtherRequest),
                            delta, None)
  }

  function FreezeAmount(st: State, cmd: FreezeCommand): Outcome {
    var invalid := Validate(st.asset, cmd.amount, cmd.source, Freeze);
    var existing := FindHold(st.holds, cmd.reservation);
    if st.asset == GrowthValue then Rejected(AssetTypeInvalid)
    else if invalid.Some? then Rejected(invalid.value)
    else if existing.Some? then
      if st.holds[existing.value].original != cmd.amount || st.holds[existing.value].source != cmd.source
      then Rejected(IdempotencyConflict) else Replayed(existing.value)
    else if !cmd.registered then Rejected(MemberNotFound)
    else
      var st1 := st.(balances := EnsureAccounts(st.balances, cmd.owner));
      var hold := |st.holds|;
      var taken := Take(st.lots, st.holdLots, Some(hold), FefoOrder(st.lots, cmd.owner), cmd.amount);
      if Bal(st1.balances, AvailableRow(cmd.owner)) < cmd.amount then Rejected(InsufficientAvailable)
      else if taken.remaining != 0 then Rejected(LotsDoNotMatch)
      else if FindTxn(st.txns, cmd.source, Freeze).Some? || KeyUsed(st.txns, cmd.key) then Rejected(IdempotencyConflict)
      else
        var id := |st.txns|;
        var t := Transaction(cmd.source, Freeze, cmd.owner, cmd.amount, None, cmd.key, OtherRequest);
        var st2 := Move(Move(AddTxn(st1, t), id, AvailableRow(cmd.owner), -cmd.amount), id, FrozenRow(cmd.owner),
                        cmd.amount);
        Posted(st2.(lots := taken.lots, holdLots := taken.holdLots,
                    holds := st.holds
                        + [Hold(cmd.reservation, cmd.owner, cmd.amount, 0, 0, HoldActive, cmd.source,
                                cmd.holdExpiresAt)]))
  }

  function ActionAmount(hold: Hold, amount: int): int {
    if amount == 0 then hold.original - hold.committed - hold.released else amount
  }

  /** Balances and entries of a settlement: always the frozen row, the other two rows only when touched. */
  function SettleMoves(st: State, id: nat, owner: nat, amount: int, back: int, out: int): State {
    var st1 := Move(st, id, FrozenRow(owner), -amount);
    var st2 := if back > 0 then Move(st1, id, AvailableRow(owner), back) else st1;
    if out > 0 then Move(st2, id, CONTROL, out) else st2
  }

  /** Allocates the settled amount over the parts of the hold and writes the posting. */
  function PostSettlement(st: State, cmd: HoldCommand, hold: Hold, amount: int, action: Action, now: Time): Outcome
    requires cmd.hold < |st.holds|
  {
    var commit := action == Commit;
    var settled := SettleParts(st.lots, st.holdLots, OpenParts(st.holdLots, cmd.hold), amount, commit, now, 0, 0);
    if settled.Fault? then Rejected(settled.error)
    else if settled.remaining != 0 then Rejected(AllocationIncomplete)
    else if settled.back + settled.out != amount then Rejected(Unbalanced)
    else if KeyUsed(st.txns, cmd.key) then Rejected(IdempotencyConflict)
    else
      var committed := if commit then hold.committed + amount else hold.committed;
      var released := if commit then hold.released else hold.released + amount;
      var t := Transaction(cmd.source, action, hold.owner, amount, None, cmd.key, OtherRequest);
      var st1 := SettleMoves(AddTxn(st, t), |st.txns|, hold.owner, amount, settled.back, settled.out);
      Posted(st1.(lots := settled.lots, holdLots := settled.holdLots,
                  holds := st.holds[cmd.hold := hold.(committed := committed, released := released,
                             status := StatusAfter(action, hold.original, committed, released))]))
  }

  /** Commit, Release and the expiry of a hold. */
  function SettleHold(st: State, cmd: HoldCommand, action: Action, now: Time): Outcome {
    var existing := FindTxn(st.txns, cmd.source, action);
    if existing.Some? then Replayed(existing.value)
    else if cmd.hold >= |st.holds| then Rejected(HoldNotFound)
    else
      var hold := st.holds[cmd.hold];
      var amount := ActionAmount(hold, cmd.amount);
      if amount <= 0 || amount > hold.original - hold.committed - hold.released then Rejected(HoldStateConflict)
      else if Terminal(hold.status) then Rejected(HoldStateConflict)
      else
        var st1 := st.(balances := EnsureAccounts(st.balances, hold.owner));
        if Bal(st1.balances, FrozenRow(hold.owner)) < amount then Rejected(HoldExceedsFrozen)
        else PostSettlement(st1, cmd, hold, amount, action, now)
  }

  function ExpiryOf(hold: nat): HoldCommand {
    HoldCommand(hold, 0, Source(Expiry, HoldId(hold)), IdempotencyKey(SYSTEM, HoldToken(hold)))
  }

  function ExpireLot(st: State, lot: nat, now: Time): Outcome {
    if lot >= |st.lots| || !PastDue(st.lots[lot], now) || st.lots[lot].available <= 0 then Skipped
    else
      var l := st.lots[lot];
      var amount := l.available;
      var st1 := st.(balances := EnsureAccounts(st.balances, l.owner));
      var source := Source(Expiry, Id(lot));
      var key := IdempotencyKey(SYSTEM, LotToken(lot));
      if Bal(st1.balances, AvailableRow(l.owner)) < amount then Rejected(ExpiringLotExceeds)
      else if FindTxn(st.txns, source, Expire).Some? || KeyUsed(st.txns, key) then Rejected(IdempotencyConflict)
      else
        var id := |st.txns|;
        var t := Transaction(source, Expire, l.owner, amount, None, key, OtherRequest);
        var st2 := Move(Move(AddTxn(st1, t), id, AvailableRow(l.owner), -amount), id, CONTROL, amount);
        Posted(st2.(lots := st.lots[lot := l.(available := 0, expired := l.expired + amount, status := LotExpired)]))
  }

  // ----- steps

  datatype Command =
    | DoCredit(transfer: TransferCommand)
    | DoDebit(transfer: TransferCommand)
    | DoReverse(reverse: ReverseCommand)
    | DoFreeze(freeze: FreezeCommand)
    | DoCommit(hold: HoldCommand, now: Time)
    | DoRelease(hold: HoldCommand, now: Time)
    | DoExpireHold(holdId: nat, now: Time)
    | DoExpireLot(lot: nat, now: Time)

  function Apply(st: State, cmd: Command): Outcome {
    match cmd
    case DoCredit(t) => Transfer(st, t, true)
    case DoDebit(t) => Transfer(st, t, false)
    case DoReverse(r) => ReverseTransfer(st, r)
    case DoFreeze(f) => FreezeAmount(st, f)
    case DoCommit(h, now) => SettleHold(st, h, Commit, now)
    case DoRelease(h, now) => SettleHold(st, h, Release, now)
    case DoExpireHold(h, now) => SettleHold(st, ExpiryOf(h), Expire, now)
    case DoExpireLot(l, now) => ExpireLot(st, l, now)
  }

  /** A rejected transaction rolls back. */
  function Next(st: State, cmd: Command): State {
    match Apply(st, cmd)
    case Posted(st') => st'
    case _ => st
  }

  function Run(st: State, cmds: seq<Command>): State {
    if cmds == [] then st else Next(Run(st, cmds[..|cmds| - 1]), cmds[|cmds| - 1])
  }

  function Empty(asset: AssetType): State {
    State(asset, map[], [], [], [], [], [])
  }
}
