/** The stock journal: its three writers and the data-quality check DQ-002 that audits it. */
module StockJournal {
  import opened Sums
  import opened Machine
  import opened Ordering

  datatype Stock = Stock(available: int, reserved: int, locked: int)

  /** The total fields may be missing in old rows. */
  datatype Record = Record(product: nat, delta: int, before: int, after: int,
                           totalDelta: Option<int>, beforeTotal: Option<int>, afterTotal: Option<int>)

  /** A product is its index; records are in the order they were written. */
  datatype State = State(stocks: seq<Stock>, records: seq<Record>)

  datatype Error = Invalid | NotFound | NotEnough

  datatype Outcome = Accepted(state: State) | Refused(error: Error)

  function Total(s: Stock): int { s.available + s.reserved + s.locked }

  // ----- writers

  function Write(st: State, product: nat, stock: Stock, delta: int): State
    requires product < |st.stocks|
  {
    var was := st.stocks[product];
    State(st.stocks[product := stock],
          st.records + [Record(product, delta, was.available, was.available + delta,
                               Some(Total(stock) - Total(was)), Some(Total(was)), Some(Total(stock)))])
  }

  function Adjust(st: State, product: nat, delta: int): Outcome {
    if delta == 0 then Refused(Invalid)
    else if product >= |st.stocks| then Refused(NotFound)
    else
      var s := st.stocks[product];
      if s.available + delta < 0 then Refused(NotEnough)
      else Accepted(Write(st, product, s.(available := s.available + delta), delta))
  }

  datatype Piece = Piece(product: nat, quantity: int)

  function QuantityOf(product: nat): Piece -> int { (p: Piece) => if p.product == product then p.quantity else 0 }

  predicate Mentions(pieces: seq<Piece>, product: nat) {
    exists i :: 0 <= i < |pieces| && pieces[i].product == product
  }

  /** Products are locked in ascending order. */
  function Ascending(): (nat, nat) -> bool { (a: nat, b: nat) => a <= b }

  function Products(n: nat, pieces: seq<Piece>): seq<nat> {
    Query(n, (p: nat) => Mentions(pieces, p), Ascending())
  }

  function RestockEach(st: State, pieces: seq<Piece>, products: seq<nat>): Outcome
    decreases |products|
  {
    if products == [] then Accepted(st)
    else if products[0] >= |st.stocks| then Refused(NotFound)
    else
      var s, quantity := st.stocks[products[0]], Sum(QuantityOf(products[0]), pieces);
      RestockEach(Write(st, products[0], s.(available := s.available + quantity), quantity), pieces, products[1..])
  }

  /** Returned goods go back to available, one record per product. */
  function Restock(st: State, pieces: seq<Piece>): Outcome {
    if exists i :: 0 <= i < |pieces| && pieces[i].product >= |st.stocks| then Refused(NotFound)
    else RestockEach(st, pieces, Products(|st.stocks|, pieces))
  }

  /** A replacement moves available to reserved, piece by piece in product order; any shortage rolls all of it back. */
  function Reserve(st: State, pieces: seq<Piece>): Outcome
    decreases |pieces|
  {
    if pieces == [] then Accepted(st)
    else
      var p := pieces[0];
      if p.product >= |st.stocks| then Refused(NotFound)
      else
        var s := st.stocks[p.product];
        if s.available < p.quantity then Refused(NotEnough)
        else Reserve(Write(st, p.product,
                           s.(available := s.available - p.quantity, reserved := s.reserved + p.quantity), -p.quantity),
                           pieces[1..])
  }

  function ProductBefore(pieces: seq<Piece>): (nat, nat) -> bool {
    (a: nat, b: nat) =>
      var pa := if a < |pieces| then pieces[a].product else 0;
      var pb := if b < |pieces| then pieces[b].product else 0;
      if pa != pb then pa < pb else a <= b
  }

  /** The pieces of a replacement in product order. */
  function ByProduct(pieces: seq<Piece>): (r: seq<Piece>)
    ensures forall i :: 0 <= i < |r| ==> r[i] in pieces
  {
    var order := Query(|pieces|, All(), ProductBefore(pieces));
    Members(order);
    At(pieces, order)
  }

  function All(): nat -> bool { (i: nat) => true }

  lemma Members(order: seq<nat>)
    ensures forall k :: 0 <= k < |order| ==> order[k] in order
  {
  }

  function At(pieces: seq<Piece>, order: seq<nat>): (r: seq<Piece>)
    requires forall k :: 0 <= k < |order| ==> order[k] < |pieces|
    ensures |r| == |order| && forall k :: 0 <= k < |r| ==> r[k] == pieces[order[k]]
  {
    seq(|order|, k requires 0 <= k < |order| => pieces[order[k]])
  }

  datatype Command = DoAdjust(product: nat, delta: int) | DoRestock(pieces: seq<Piece>) | DoReserve(pieces: seq<Piece>)

  predicate Positive(pieces: seq<Piece>) { forall i :: 0 <= i < |pieces| ==> pieces[i].quantity > 0 }

  /** Approved quantities are at least one. */
  predicate Valid(cmd: Command) {
    match cmd
    case DoAdjust(_, _) => true
    case DoRestock(pieces) => Positive(pieces)
    case DoReserve(pieces) => Positive(pieces)
  }

  function Apply(st: State, cmd: Command): Outcome {
    match cmd
    case DoAdjust(product, delta) => Adjust(st, product, delta)
    case DoRestock(pieces) => Restock(st, pieces)
    case DoReserve(pieces) => Reserve(st, ByProduct(pieces))
  }

  function Next(st: State, cmd: Command): State {
    match Apply(st, cmd)
    case Accepted(st') => st'
    case Refused(_) => st
  }

  function Run(st: State, cmds: seq<Command>): State {
    if cmds == [] then st else Next(Run(st, cmds[..|cmds| - 1]), cmds[|cmds| - 1])
  }

  // ----- the invariant

  /** The last record of a product among the given ones. */
  function LastOf(records: seq<Record>, product: nat): (r: Option<nat>)
    ensures r.Some? ==> r.value < |records| && records[r.value].product == product
    ensures r.None? <==> forall k :: 0 <= k < |records| ==> records[k].product != product
  {
    if records == [] then None
    else if records[|records| - 1].product == product then Some(|records| - 1)
    else LastOf(records[..|records| - 1], product)
  }

  predicate Follows(r: Record, last: Record) {
    r.before == last.after && r.beforeTotal == last.afterTotal
  }

  predicate RecordOk(r: Record) {
    && r.before + r.delta == r.after
    && r.totalDelta.Some? && r.beforeTotal.Some? && r.afterTotal.Some?
       && r.beforeTotal.value + r.totalDelta.value == r.afterTotal.value
  }

  /** The record opens where the product's previous record closed. */
  predicate Continues(records: seq<Record>, k: nat)
    requires k < |records|
  {
    var previous := LastOf(records[..k], records[k].product);
    previous.Some? ==> Follows(records[k], records[previous.value])
  }

  /** The product's latest record closes at its current stock. */
  predicate Closes(st: State, product: nat)
    requires product < |st.stocks|
  {
    var last := LastOf(st.records, product);
    last.Some? ==> st.records[last.value].after == st.stocks[product].available
                   && st.records[last.value].afterTotal == Some(Total(st.stocks[product]))
  }

  predicate StockOk(s: Stock) { s.available >= 0 && s.reserved >= 0 && s.locked >= 0 }

  predicate JournalOk(st: State) {
    && (forall p :: 0 <= p < |st.stocks| ==> StockOk(st.stocks[p]))
    && (forall k :: 0 <= k < |st.records| ==> RecordOk(st.records[k]))
    && (forall k: nat :: k < |st.records| ==> Continues(st.records, k))
    && (forall p: nat :: p < |st.stocks| ==> Closes(st, p))
  }

  lemma LastOfSnoc(records: seq<Record>, r: Record, product: nat)
    ensures LastOf(records + [r], product) == if r.product == product then Some(|records|) else LastOf(records, product)
  {
    assert (records + [r])[..|records|] == records;
  }

  lemma ContinuesSnoc(records: seq<Record>, r: Record, k: nat)
    requires k < |records|
    ensures Continues(records + [r], k) == Continues(records, k)
  {
    assert (records + [r])[..k] == records[..k];
  }

  /** One write that leaves the quantities non-negative keeps the journal in order. */
  lemma WriteKeeps(st: State, product: nat, stock: Stock, delta: int)
    requires JournalOk(st) && product < |st.stocks| && StockOk(stock)
             && stock.available == st.stocks[product].available + delta
    ensures JournalOk(Write(st, product, stock, delta))
  {
    var st' := Write(st, product, stock, delta);
    var r := st'.records[|st.records|];
    forall k: nat | k < |st'.records| ensures Continues(st'.records, k) {
      if k < |st.records| {
        ContinuesSnoc(st.records, r, k);
      } else {
        assert st'.records[..k] == st.records;
        assert Closes(st, product);
      }
    }
    forall p: nat | p < |st'.stocks| ensures Closes(st', p) {
      LastOfSnoc(st.records, r, p);
      assert Closes(st, p);
    }
  }

  lemma {:induction false} RestockKeeps(st: State, pieces: seq<Piece>, products: seq<nat>)
    requires JournalOk(st) && Positive(pieces) && RestockEach(st, pieces, products).Accepted?
    ensures JournalOk(RestockEach(st, pieces, products).state)
    decreases |products|
  {
    if products != [] {
      var s, quantity := st.stocks[products[0]], Sum(QuantityOf(products[0]), pieces);
      SumNonNegative(QuantityOf(products[0]), pieces);
      WriteKeeps(st, products[0], s.(available := s.available + quantity), quantity);
      RestockKeeps(Write(st, products[0], s.(available := s.available + quantity), quantity), pieces, products[1..]);
    }
  }

  /** A reservation also leaves every product's total as it was. */
  lemma {:induction false} ReserveKeeps(st: State, pieces: seq<Piece>)
    requires JournalOk(st) && Positive(pieces) && Reserve(st, pieces).Accepted?
    ensures var st' := Reserve(st, pieces).state;
            && JournalOk(st') && |st'.stocks| == |st.stocks|
            && forall p :: 0 <= p < |st.stocks| ==> Total(st'.stocks[p]) == Total(st.stocks[p])
    decreases |pieces|
  {
    if pieces != [] {
      var p := pieces[0];
      var s := st.stocks[p.product];
      var stock := s.(available := s.available - p.quantity, reserved := s.reserved + p.quantity);
      WriteKeeps(st, p.product, stock, -p.quantity);
      ReserveKeeps(Write(st, p.product, stock, -p.quantity), pieces[1..]);
    }
  }

  lemma StepKeeps(st: State, cmd: Command)
    requires JournalOk(st) && Valid(cmd)
    ensures JournalOk(Next(st, cmd))
  {
    if Apply(st, cmd).Accepted? {
      match cmd
      case DoAdjust(product, delta) =>
        WriteKeeps(st, product, st.stocks[product].(available := st.stocks[product].available + delta), delta);
      case DoRestock(pieces) => RestockKeeps(st, pieces, Products(|st.stocks|, pieces));
      case DoReserve(pieces) => ReserveKeeps(st, ByProduct(pieces));
    }
  }

  /** Any run of the three writers keeps a clean journal clean. */
  lemma {:induction false} RunKeeps(st: State, cmds: seq<Command>)
    requires JournalOk(st) && forall i :: 0 <= i < |cmds| ==> Valid(cmds[i])
    ensures JournalOk(Run(st, cmds))
  {
    if cmds != [] {
      RunKeeps(st, cmds[..|cmds| - 1]);
      StepKeeps(Run(st, cmds[..|cmds| - 1]), cmds[|cmds| - 1]);
    }
  }

  // ----- DQ-002

  datatype Finding =
    | Negative(product: nat) | NullTotals(row: nat) | AvailableEquation(row: nat) | TotalEquation(row: nat)
    | AvailableGap(row: nat) | TotalGap(row: nat) | CurrentAvailable(product: nat) | CurrentTotal(product: nat)

  /** SQL's comparison of two nullable values: not true when either is missing. */
  predicate Differ(a: Option<int>, b: Option<int>) { a.Some? && b.Some? && a.value != b.value }

  function Plus(a: Option<int>, b: Option<int>): Option<int> {
    if a.Some? && b.Some? then Some(a.value + b.value) else None
  }

  /** LAG over the product's records in writing order. */
  function Previous(records: seq<Record>, k: nat): Option<Record>
    requires k < |records|
  {
    var previous := LastOf(records[..k], records[k].product);
    if previous.Some? then Some(records[previous.value]) else None
  }

  function Latest(st: State, product: nat): Option<Record> {
    var last := LastOf(st.records, product);
    if last.Some? then Some(st.records[last.value]) else None
  }

  predicate IsNegative(st: State, p: nat) {
    p < |st.stocks| && (st.stocks[p].available < 0 || st.stocks[p].reserved < 0 || st.stocks[p].locked < 0)
  }

  predicate HasNullTotals(st: State, k: nat) {
    k < |st.records|
        && (st.records[k].totalDelta.None? || st.records[k].beforeTotal.None? || st.records[k].afterTotal.None?)
  }

  predicate BreaksAvailable(st: State, k: nat) {
    k < |st.records| && st.records[k].before + st.records[k].delta != st.records[k].after
  }

  predicate BreaksTotal(st: State, k: nat) {
    k < |st.records| && Differ(Plus(st.records[k].beforeTotal, st.records[k].totalDelta), st.records[k].afterTotal)
  }

  predicate GapInAvailable(st: State, k: nat) {
    k < |st.records| && Previous(st.records, k).Some? && st.records[k].before != Previous(st.records, k).value.after
  }

  predicate GapInTotal(st: State, k: nat) {
    k < |st.records| && Previous(st.records, k).Some?
        && Differ(st.records[k].beforeTotal, Previous(st.records, k).value.afterTotal)
  }

  predicate StaleAvailable(st: State, p: nat) {
    p < |st.stocks| && Latest(st, p).Some? && st.stocks[p].available != Latest(st, p).value.after
  }

  predicate StaleTotal(st: State, p: nat) {
    p < |st.stocks| && Latest(st, p).Some? && Differ(Some(Total(st.stocks[p])), Latest(st, p).value.afterTotal)
  }

  function NegativeAt(st: State): nat -> bool { (x: nat) => IsNegative(st, x) }

  function NullTotalsAt(st: State): nat -> bool { (x: nat) => HasNullTotals(st, x) }

  function AvailableBreakAt(st: State): nat -> bool { (x: nat) => BreaksAvailable(st, x) }

  function TotalBreakAt(st: State): nat -> bool { (x: nat) => BreaksTotal(st, x) }

  function AvailableGapAt(st: State): nat -> bool { (x: nat) => GapInAvailable(st, x) }

  function TotalGapAt(st: State): nat -> bool { (x: nat) => GapInTotal(st, x) }

  function StaleAvailableAt(st: State): nat -> bool { (x: nat) => StaleAvailable(st, x) }

  function StaleTotalAt(st: State): nat -> bool { (x: nat) => StaleTotal(st, x) }

  function Rows(n: nat, keep: nat -> bool): seq<nat> { Query(n, keep, Ascending()) }

  /** The rows of the eight queries, in their order. */
  function Queries(st: State): (r: seq<seq<Finding>>)
    ensures |r| == 8
  {
    [ Findings(Rows(|st.stocks|, NegativeAt(st)), (x: nat) => Negative(x)),
      Findings(Rows(|st.records|, NullTotalsAt(st)), (x: nat) => NullTotals(x)),
      Findings(Rows(|st.records|, AvailableBreakAt(st)), (x: nat) => AvailableEquation(x)),
      Findings(Rows(|st.records|, TotalBreakAt(st)), (x: nat) => TotalEquation(x)),
      Findings(Rows(|st.records|, AvailableGapAt(st)), (x: nat) => AvailableGap(x)),
      Findings(Rows(|st.records|, TotalGapAt(st)), (x: nat) => TotalGap(x)),
      Findings(Rows(|st.stocks|, StaleAvailableAt(st)), (x: nat) => CurrentAvailable(x)),
      Findings(Rows(|st.stocks|, StaleTotalAt(st)), (x: nat) => CurrentTotal(x)) ]
  }

  function Findings(rows: seq<nat>, f: nat -> Finding): (r: seq<Finding>)
    ensures |r| == |rows|
  {
    seq(|rows|, i requires 0 <= i < |rows| => f(rows[i]))
  }

  function Flatten(s: seq<seq<Finding>>): seq<Finding> {
    if s == [] then [] else Flatten(s[..|s| - 1]) + s[|s| - 1]
  }

  function Violations(st: State): nat { |Flatten(Queries(st))| }

  lemma EmptyRows(n: nat, keep: nat -> bool)
    ensures Rows(n, keep) == [] <==> forall x: nat :: x < n ==> !keep(x)
  {
    if Rows(n, keep) != [] {
      assert Rows(n, keep)[0] in Rows(n, keep);
    }
  }

  lemma {:induction false} EmptyFlatten(s: seq<seq<Finding>>)
    ensures |Flatten(s)| == 0 <==> forall i :: 0 <= i < |s| ==> s[i] == []
  {
    if s != [] { EmptyFlatten(s[..|s| - 1]); }
  }

  predicate CleanRecord(st: State, k: nat) {
    !HasNullTotals(st, k) && !BreaksAvailable(st, k) && !BreaksTotal(st, k) && !GapInAvailable(st, k)
        && !GapInTotal(st, k)
  }

  predicate CleanStock(st: State, p: nat) { !IsNegative(st, p) && !StaleAvailable(st, p) && !StaleTotal(st, p) }

  predicate AllClean(st: State) {
    && (forall p: nat :: p < |st.stocks| ==> CleanStock(st, p))
    && (forall k: nat :: k < |st.records| ==> CleanRecord(st, k))
  }

  predicate NoRows(st: State) {
    && Rows(|st.stocks|, NegativeAt(st)) == []
    && Rows(|st.records|, NullTotalsAt(st)) == []
    && Rows(|st.records|, AvailableBreakAt(st)) == []
    && Rows(|st.records|, TotalBreakAt(st)) == []
    && Rows(|st.records|, AvailableGapAt(st)) == []
    && Rows(|st.records|, TotalGapAt(st)) == []
    && Rows(|st.stocks|, StaleAvailableAt(st)) == []
    && Rows(|st.stocks|, StaleTotalAt(st)) == []
  }

  lemma RowsAndClean(st: State)
    ensures NoRows(st) <==> AllClean(st)
  {
    hide Rows, IsNegative, HasNullTotals, BreaksAvailable, BreaksTotal, GapInAvailable, GapInTotal, StaleAvailable,
      StaleTotal;
    EmptyRows(|st.stocks|, NegativeAt(st));
    EmptyRows(|st.records|, NullTotalsAt(st));
    EmptyRows(|st.records|, AvailableBreakAt(st));
    EmptyRows(|st.records|, TotalBreakAt(st));
    EmptyRows(|st.records|, AvailableGapAt(st));
    EmptyRows(|st.records|, TotalGapAt(st));
    EmptyRows(|st.stocks|, StaleAvailableAt(st));
    EmptyRows(|st.stocks|, StaleTotalAt(st));
    if NoRows(st) {
      forall k: nat | k < |st.records| ensures CleanRecord(st, k) {
        assert !NullTotalsAt(st)(k);
        assert !AvailableBreakAt(st)(k);
        assert !TotalBreakAt(st)(k);
        assert !AvailableGapAt(st)(k);
        assert !TotalGapAt(st)(k);
      }
      forall p: nat | p < |st.stocks| ensures CleanStock(st, p) {
        assert !NegativeAt(st)(p);
        assert !StaleAvailableAt(st)(p);
        assert !StaleTotalAt(st)(p);
      }
    }
    if AllClean(st) {
      forall x: nat | x < |st.stocks| ensures !NegativeAt(st)(x) { assert CleanStock(st, x); }
      forall x: nat | x < |st.records| ensures !NullTotalsAt(st)(x) { assert CleanRecord(st, x); }
      forall x: nat | x < |st.records| ensures !AvailableBreakAt(st)(x) { assert CleanRecord(st, x); }
      forall x: nat | x < |st.records| ensures !TotalBreakAt(st)(x) { assert CleanRecord(st, x); }
      forall x: nat | x < |st.records| ensures !AvailableGapAt(st)(x) { assert CleanRecord(st, x); }
      forall x: nat | x < |st.records| ensures !TotalGapAt(st)(x) { assert CleanRecord(st, x); }
      forall x: nat | x < |st.stocks| ensures !StaleAvailableAt(st)(x) { assert CleanStock(st, x); }
      forall x: nat | x < |st.stocks| ensures !StaleTotalAt(st)(x) { assert CleanStock(st, x); }
    }
  }

  /** The check finds nothing exactly when no query has a row. */
  lemma CleanQueries(st: State)
    ensures Violations(st) == 0 <==> AllClean(st)
  {
    RowsAndClean(st);
    hide Rows, AllClean;
    var q := Queries(st);
    EmptyFlatten(q);
    assert (forall i :: 0 <= i < 8 ==> q[i] == []) <==>
      q[0] == [] && q[1] == [] && q[2] == [] && q[3] == [] && q[4] == [] && q[5] == [] && q[6] == [] && q[7] == [];
  }

  /** The check finds nothing exactly when the journal is in order: it misses no break of the invariant and reports none
      in vain. */
  lemma CheckDecidesJournal(st: State)
    ensures Violations(st) == 0 <==> JournalOk(st)
  {
    CleanQueries(st);
    hide LastOf, Violations;
    if JournalOk(st) {
      forall k: nat | k < |st.records| ensures CleanRecord(st, k) {
        assert RecordOk(st.records[k]) && Continues(st.records, k);
      }
      forall p: nat | p < |st.stocks| ensures CleanStock(st, p) {
        assert StockOk(st.stocks[p]) && Closes(st, p);
      }
    }
    if Violations(st) == 0 {
      forall k: nat | k < |st.records| ensures RecordOk(st.records[k]) {
        assert CleanRecord(st, k);
      }
      forall k: nat | k < |st.records| ensures Continues(st.records, k) {
        assert CleanRecord(st, k);
        NoNullBefore(st, k);
      }
      forall p: nat | p < |st.stocks| ensures StockOk(st.stocks[p]) && Closes(st, p) {
        assert CleanStock(st, p);
        NoNullLatest(st, p);
      }
    }
  }

  lemma NoNullBefore(st: State, k: nat)
    requires k < |st.records| && forall j: nat :: j < |st.records| ==> CleanRecord(st, j)
    ensures st.records[k].beforeTotal.Some?
            && (Previous(st.records, k).Some? ==> Previous(st.records, k).value.afterTotal.Some?)
  {
    assert CleanRecord(st, k);
    var previous := LastOf(st.records[..k], st.records[k].product);
    if previous.Some? { assert CleanRecord(st, previous.value); }
  }

  lemma NoNullLatest(st: State, p: nat)
    requires forall j: nat :: j < |st.records| ==> CleanRecord(st, j)
    ensures Latest(st, p).Some? ==> Latest(st, p).value.afterTotal.Some?
  {
    var last := LastOf(st.records, p);
    if last.Some? { assert CleanRecord(st, last.value); }
  }

  /** So after any run of the writers from a clean state every DQ-002 query counts zero. */
  lemma RunsPassCheck(stocks: seq<Stock>, cmds: seq<Command>)
    requires (forall p :: 0 <= p < |stocks| ==> StockOk(stocks[p])) && forall i :: 0 <= i < |cmds| ==> Valid(cmds[i])
    ensures Violations(Run(State(stocks, []), cmds)) == 0
  {
    RunKeeps(State(stocks, []), cmds);
    CheckDecidesJournal(Run(State(stocks, []), cmds));
  }
}
