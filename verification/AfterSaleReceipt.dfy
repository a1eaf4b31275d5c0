/** Receiving returned goods: the case, the refund and the restock are one transaction. */
module AfterSaleReceipt {
  import opened Sums
  import opened Machine
  import opened AfterSaleModel
  import opened AfterSaleRefunds
  import Stock = StockJournal
  import Quantities = StockQuantities
  import Book = StockBook
  import Desk = AfterSaleDesk

  /** The order's tables and the stock journal of its shop. */
  datatype Tables = Tables(sale: State, stock: Stock.State)

  datatype Receipt = Receipt(c: nat, intact: bool, restock: bool)

  datatype Reply = Received(after: Tables) | Declined(error: Error) | StockMissing

  /** What comes back of a case: the approved quantity of each line, under the shop product of its order item. */
  function Goods(lines: seq<Line>, productOf: nat -> nat): (r: seq<Stock.Piece>)
    ensures |r| == |lines|
  {
    seq(|lines|, i requires 0 <= i < |lines| => Stock.Piece(productOf(lines[i].item), lines[i].approvedQuantity))
  }

  /** An unopened return with a broken seal goes to the platform; nothing is restocked or refunded yet. */
  predicate ToPlatform(row: Case, r: Receipt) { row.kind == UnopenedReturn && !r.intact }

  predicate Receivable(st: State, c: nat) {
    c < |st.cases| && st.cases[c].status == WaitingReturn && st.cases[c].approval == Some(ReturnAndRefund)
  }

  predicate Restocks(st: State, r: Receipt) {
    Receivable(st, r.c) && !ToPlatform(st.cases[r.c], r) && r.restock
  }

  /** The goods go back to the stock before the refund is reserved; a refusal of either rolls back both. */
  function Receiving(t: Tables, productOf: nat -> nat, r: Receipt): Reply {
    var stock := if Restocks(t.sale, r) then Stock.Restock(t.stock, Goods(t.sale.cases[r.c].lines, productOf))
                 else Stock.Accepted(t.stock);
    match stock
    case Refused(_) => StockMissing
    case Accepted(stock') =>
      match Receive(t.sale, r.c, r.intact)
      case Accepted(sale') => Received(Tables(sale', stock'))
      case Refused(error) => Declined(error)
      case Replayed => Declined(StatusConflict)
  }

  class ReceiptDesk {
    const desk: Desk.Desk
    const book: Book.Book
    const productOf: nat -> nat

    function Rows(): Tables
      reads desk, book
    {
      Tables(desk.Tables(), book.Tables())
    }

    constructor (desk: Desk.Desk, book: Book.Book, productOf: nat -> nat)
      ensures this.desk == desk && this.book == book && this.productOf == productOf
    {
      this.desk, this.book, this.productOf := desk, book, productOf;
    }

    method ReceiveReturn(r: Receipt) returns (reply: Reply)
      modifies desk`cases, desk`refunds, book
      ensures reply == Receiving(old(Rows()), productOf, r)
      ensures Rows() == if reply.Received? then reply.after else old(Rows())
    {
      hide Receive, Stock.Restock;
      ghost var before := Rows();
      var stocks, records := book.stocks, book.records;
      if Restocks(desk.Tables(), r) {
        var back := book.RestockReturn(Goods(desk.cases[r.c].lines, productOf));
        if back.Rejected? { return StockMissing; }
      }
      var taken := desk.ReceiveReturn(r.c, r.intact);
      if taken != Desk.Done {
        book.stocks, book.records := stocks, records;
        return Declined(if taken.Rejected? then taken.error else StatusConflict);
      }
      return Received(Rows());
    }
  }

  // ----- runs

  datatype Event = Sale(cmd: Command) | Arrive(receipt: Receipt)

  function After(t: Tables, productOf: nat -> nat, r: Receipt): Tables {
    match Receiving(t, productOf, r)
    case Received(after) => after
    case _ => t
  }

  /** Returned goods are received through receipts only. */
  function Fire(t: Tables, productOf: nat -> nat, e: Event): Tables {
    match e
    case Sale(cmd) => if cmd.DoReceive? then t else t.(sale := Next(t.sale, cmd))
    case Arrive(r) => After(t, productOf, r)
  }

  function Trace(t: Tables, productOf: nat -> nat, events: seq<Event>): Tables {
    if events == [] then t else Fire(Trace(t, productOf, events[..|events| - 1]), productOf, events[|events| - 1])
  }

  /** The event puts the goods of case `c` back into the stock. */
  predicate PutsBack(t: Tables, productOf: nat -> nat, e: Event, c: nat) {
    e.Arrive? && e.receipt.c == c && Restocks(t.sale, e.receipt) && Receiving(t, productOf, e.receipt).Received?
  }

  predicate PutsBackAt(t: Tables, productOf: nat -> nat, events: seq<Event>, c: nat, i: nat)
    requires i < |events|
  {
    PutsBack(Trace(t, productOf, events[..i]), productOf, events[i], c)
  }

  /** What is refunded stays refunded: no command takes a case out of these states or changes what was approved. */
  ghost predicate StaysRefunding(st: State, st': State, c: nat) {
    c < |st.cases| && Refunding(st.cases[c]) ==>
      c < |st'.cases| && Refunding(st'.cases[c]) && st'.cases[c].lines == st.cases[c].lines
  }

  lemma StepStaysRefunding(st: State, cmd: Command, c: nat)
    ensures StaysRefunding(st, Next(st, cmd), c)
  {
    hide Sum, Wrap64, CheckLines, FeeClaimed, ValidGrants, ResolutionAllowed;
  }

  /** A receipt moves the case out of `waiting_return`, and what it restocks is then being refunded. */
  lemma ReceiptStep(t: Tables, productOf: nat -> nat, r: Receipt, c: nat)
    ensures StaysRefunding(t.sale, After(t, productOf, r).sale, c)
    ensures PutsBack(t, productOf, Arrive(r), c) ==>
              && c < |After(t, productOf, r).sale.cases| && Refunding(After(t, productOf, r).sale.cases[c])
              && After(t, productOf, r).sale.cases[c].lines == t.sale.cases[c].lines
  {
    hide Stock.Restock, Goods, Sum, Wrap64;
  }

  lemma {:induction false} PutBackIsRefunding(t: Tables, productOf: nat -> nat, events: seq<Event>, c: nat, i: nat)
    requires i < |events| && PutsBackAt(t, productOf, events, c, i)
    ensures c < |Trace(t, productOf, events).sale.cases| && Refunding(Trace(t, productOf, events).sale.cases[c])
  {
    var n := |events| - 1;
    var so, e := Trace(t, productOf, events[..n]), events[n];
    hide Receiving, Next, PutsBack;
    if i < n {
      assert events[..n][..i] == events[..i];
      PutBackIsRefunding(t, productOf, events[..n], c, i);
    }
    match e
    case Sale(cmd) => StepStaysRefunding(so.sale, cmd, c);
    case Arrive(r) => ReceiptStep(so, productOf, r, c);
  }

  /** In every run the goods of a case go back to the stock at most once, though a case may wait for its goods twice. */
  lemma RestockedOnce(t: Tables, productOf: nat -> nat, events: seq<Event>, c: nat, i: nat, j: nat)
    requires i < |events| && j < |events| && PutsBackAt(t, productOf, events, c, i)
             && PutsBackAt(t, productOf, events, c, j)
    ensures i == j
  {
    hide Trace, Receiving;
    if i < j {
      assert events[..j][..i] == events[..i];
      PutBackIsRefunding(t, productOf, events[..j], c, i);
    } else if j < i {
      assert events[..i][..j] == events[..j];
      PutBackIsRefunding(t, productOf, events[..i], c, j);
    }
  }

  // ----- what the stock got back

  /** The approved pieces of a line, if they are of the product. */
  function ApprovedOf(productOf: nat -> nat, product: nat): Line -> int {
    (l: Line) => if productOf(l.item) == product then l.approvedQuantity else 0
  }

  /** What is put back of a product is what was approved on the case's lines of it. */
  lemma {:induction false} GoodsAreApproved(lines: seq<Line>, productOf: nat -> nat, product: nat)
    ensures Quantities.Requested(Goods(lines, productOf), product) == Sum(ApprovedOf(productOf, product), lines)
  {
    if lines != [] {
      var n := |lines| - 1;
      GoodsAreApproved(lines[..n], productOf, product);
      assert Goods(lines, productOf)[..n] == Goods(lines[..n], productOf);
    }
  }

  /** The approved pieces of a product on the cases whose goods the receipts of a run put back. */
  function PutBack(t: Tables, productOf: nat -> nat, events: seq<Event>, product: nat): int {
    if events == [] then 0
    else
      var n := |events| - 1;
      var so, e := Trace(t, productOf, events[..n]), events[n];
      PutBack(t, productOf, events[..n], product)
      + if e.Arrive? && PutsBack(so, productOf, e, e.receipt.c)
        then Sum(ApprovedOf(productOf, product), so.sale.cases[e.receipt.c].lines) else 0
  }

  /** A receipt that went through reserves a refund, and restocks if told to, unless an unopened return came back
      broken. */
  lemma ReceiptExactly(t: Tables, productOf: nat -> nat, r: Receipt)
    requires Receiving(t, productOf, r).Received?
    ensures var t' := After(t, productOf, r);
            && r.c < |t.sale.cases|
            && var broken := t.sale.cases[r.c].kind == UnopenedReturn && !r.intact;
               && (PutsBack(t, productOf, Arrive(r), r.c) <==> r.restock && !broken)
               && (if broken then t'.sale.refunds == t.sale.refunds && t'.sale.cases[r.c].status == PlatformReviewing
                   else t'.sale.refunds == t.sale.refunds + [Refund(r.c, t.sale.cases[r.c].approved, Creating, None)])
               && (!(r.restock && !broken) ==> t'.stock == t.stock)
  {
    hide Stock.Restock, Goods, Sum, Wrap64;
  }

  lemma ReceiptMovesStock(t: Tables, productOf: nat -> nat, r: Receipt, product: nat)
    requires product < |t.stock.stocks|
    ensures var t' := After(t, productOf, r);
            |t'.stock.stocks| == |t.stock.stocks|
            && t'.stock.stocks[product] == t.stock.stocks[product].(available := t.stock.stocks[product].available
                 + if PutsBack(t, productOf, Arrive(r), r.c)
                   then Sum(ApprovedOf(productOf, product), t.sale.cases[r.c].lines) else 0)
  {
    if Restocks(t.sale, r) {
      Quantities.RestockExactly(t.stock, Goods(t.sale.cases[r.c].lines, productOf));
      GoodsAreApproved(t.sale.cases[r.c].lines, productOf, product);
    }
    hide Stock.Restock, Goods, Receive, Quantities.Requested, Sum;
  }

  /** In every run each product has gained exactly the approved pieces of the receipts that went through with their
      refund: a refused refund puts nothing back. */
  lemma {:induction false} StockGotBack(t: Tables, productOf: nat -> nat, events: seq<Event>, product: nat)
    requires product < |t.stock.stocks|
    ensures var t' := Trace(t, productOf, events);
            |t'.stock.stocks| == |t.stock.stocks|
            && t'.stock.stocks[product]
               == t.stock.stocks[product].(available :=
                                           t.stock.stocks[product].available + PutBack(t, productOf, events, product))
  {
    if events != [] {
      var n := |events| - 1;
      StockGotBack(t, productOf, events[..n], product);
      hide Receiving, Next, PutsBack, Goods, Sum;
      var so := Trace(t, productOf, events[..n]);
      if events[n].Arrive? { ReceiptMovesStock(so, productOf, events[n].receipt, product); }
    }
  }

  // ----- and the refund

  ghost predicate RefundsGrow(st: State, st': State) {
    |st.refunds| <= |st'.refunds|
    && forall r: nat :: r < |st.refunds| ==>
         st'.refunds[r].owner == st.refunds[r].owner && st'.refunds[r].amount == st.refunds[r].amount
  }

  lemma StepRefundsGrow(st: State, cmd: Command)
    ensures RefundsGrow(st, Next(st, cmd))
  {
    hide Sum, Wrap64, CheckLines, FeeClaimed, ValidGrants, ResolutionAllowed, IsReplaced;
  }

  predicate HasRefund(st: State, c: nat) { exists r :: 0 <= r < |st.refunds| && st.refunds[r].owner == c }

  lemma ReceiptRefunds(t: Tables, productOf: nat -> nat, r: Receipt, c: nat)
    ensures RefundsGrow(t.sale, After(t, productOf, r).sale)
    ensures PutsBack(t, productOf, Arrive(r), c) ==> HasRefund(After(t, productOf, r).sale, c)
  {
    hide Stock.Restock, Goods, Sum, Wrap64;
    if PutsBack(t, productOf, Arrive(r), c) {
      assert After(t, productOf, r).sale.refunds[|t.sale.refunds|].owner == c;
    }
  }

  lemma StillHasRefund(st: State, st': State, c: nat)
    requires RefundsGrow(st, st') && HasRefund(st, c)
    ensures HasRefund(st', c)
  {
    var r: nat :| r < |st.refunds| && st.refunds[r].owner == c;
    assert st'.refunds[r].owner == c;
  }

  lemma StepHasRefund(t: Tables, productOf: nat -> nat, e: Event, c: nat)
    requires HasRefund(t.sale, c) || PutsBack(t, productOf, e, c)
    ensures HasRefund(Fire(t, productOf, e).sale, c)
  {
    hide Receiving, Next, PutsBack, RefundsGrow, HasRefund, After;
    match e
    case Sale(cmd) =>
      StepRefundsGrow(t.sale, cmd);
      NoSalePutsBack(t, productOf, cmd, c);
      if !cmd.DoReceive? { StillHasRefund(t.sale, Next(t.sale, cmd), c); }
    case Arrive(r) =>
      ReceiptRefunds(t, productOf, r, c);
      if HasRefund(t.sale, c) { StillHasRefund(t.sale, After(t, productOf, r).sale, c); }
  }

  lemma NoSalePutsBack(t: Tables, productOf: nat -> nat, cmd: Command, c: nat)
    ensures !PutsBack(t, productOf, Sale(cmd), c)
  {
  }

  lemma {:induction false} PutBackHasRefund(t: Tables, productOf: nat -> nat, events: seq<Event>, c: nat, i: nat)
    requires i < |events| && PutsBackAt(t, productOf, events, c, i)
    ensures HasRefund(Trace(t, productOf, events).sale, c)
  {
    var n := |events| - 1;
    hide Fire, PutsBack, HasRefund;
    if i < n {
      assert events[..n][..i] == events[..i];
      PutBackHasRefund(t, productOf, events[..n], c, i);
    }
    StepHasRefund(Trace(t, productOf, events[..n]), productOf, events[n], c);
  }

  lemma {:induction false} TraceKeepsRefunds(order: Order, paymentAmount: int, stock: Stock.State,
                                             productOf: nat -> nat,
                                             events: seq<Event>)
    requires BoundedOrder(order, paymentAmount)
    ensures RefundsOk(Trace(Tables(Fresh(order, paymentAmount), stock), productOf, events).sale)
  {
    if events != [] {
      var n := |events| - 1;
      TraceKeepsRefunds(order, paymentAmount, stock, productOf, events[..n]);
      var so := Trace(Tables(Fresh(order, paymentAmount), stock), productOf, events[..n]);
      hide RefundsOk, Receive, Stock.Restock;
      match events[n]
      case Sale(cmd) => StepKeepsRefunds(so.sale, cmd);
      case Arrive(r) => StepKeepsRefunds(so.sale, DoReceive(r.c, r.intact));
    }
  }

  /** A case whose goods went back has a refund, and of exactly what was approved on it. */
  lemma PutBackIsRefunded(order: Order, paymentAmount: int, stock: Stock.State, productOf: nat -> nat,
                          events: seq<Event>,
                          c: nat, i: nat)
    requires BoundedOrder(order, paymentAmount)
    requires i < |events| && PutsBackAt(Tables(Fresh(order, paymentAmount), stock), productOf, events, c, i)
    ensures var st := Trace(Tables(Fresh(order, paymentAmount), stock), productOf, events).sale;
            && c < |st.cases| && Refunding(st.cases[c])
            && exists r ::
                 0 <= r < |st.refunds| && st.refunds[r].owner == c && st.refunds[r].amount == st.cases[c].approved
  {
    var t := Tables(Fresh(order, paymentAmount), stock);
    TraceKeepsRefunds(order, paymentAmount, stock, productOf, events);
    PutBackHasRefund(t, productOf, events, c, i);
    PutBackIsRefunding(t, productOf, events, c, i);
    hide Trace, PutsBackAt;
    var st := Trace(t, productOf, events).sale;
    var r: nat :| r < |st.refunds| && st.refunds[r].owner == c;
    assert RefundOk(st.cases, st.refunds, r);
  }
}
