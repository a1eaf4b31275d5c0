/** The stock journal as it is written and checked: rows updated in place under their lock, rollback on error,
    findings accumulated query by query. */
module StockBook {
  import opened Sums
  import opened Machine
  import opened Ordering
  import opened StockJournal

  datatype Reply = Done | Rejected(error: Error)

  function ReplyTo(o: Outcome): Reply {
    match o
    case Accepted(_) => Done
    case Refused(error) => Rejected(error)
  }

  class Book {
    var stocks: seq<Stock>
    var records: seq<Record>

    function Tables(): State
      reads this
    {
      State(stocks, records)
    }

    constructor (stocks: seq<Stock>)
      ensures Tables() == State(stocks, [])
    {
      this.stocks, records := stocks, [];
    }

    method AdjustStock(product: nat, delta: int) returns (reply: Reply)
      modifies this
      ensures reply == ReplyTo(Adjust(old(Tables()), product, delta))
      ensures Tables() == Next(old(Tables()), DoAdjust(product, delta))
    {
      if delta == 0 { return Rejected(Invalid); }
      if product >= |stocks| { return Rejected(NotFound); }
      var stock := stocks[product];
      var afterAvailable := stock.available + delta;
      var beforeTotal := stock.available + stock.reserved + stock.locked;
      if afterAvailable < 0 { return Rejected(NotEnough); }
      stocks := stocks[product := stock.(available := stock.available + delta)];
      records := records
          + [Record(product, delta, stock.available, afterAvailable, Some(delta), Some(beforeTotal),
                    Some(beforeTotal + delta))];
      reply := Done;
    }

    /** Adds up the returned quantities per product. */
    method TotalPerProduct(pieces: seq<Piece>) returns (quantities: map<nat, int>)
      ensures forall p: nat :: p in quantities <==> Mentions(pieces, p)
      ensures forall p: nat :: p in quantities ==> quantities[p] == Sum(QuantityOf(p), pieces)
    {
      hide Mentions, Sum;
      quantities := map[];
      NoPieces(pieces);
      for i := 0 to |pieces|
        invariant forall p: nat :: p in quantities <==> Mentions(pieces[..i], p)
        invariant forall p: nat :: Sum(QuantityOf(p), pieces[..i]) == if p in quantities then quantities[p] else 0
      {
        var piece := pieces[i];
        assert pieces[..i + 1] == pieces[..i] + [piece];
        forall p: nat
          ensures Sum(QuantityOf(p), pieces[..i + 1]) == Sum(QuantityOf(p), pieces[..i]) + QuantityOf(p)(piece)
        {
          SumSnoc(QuantityOf(p), pieces[..i], piece);
        }
        MentionsSnoc(pieces, i);
        quantities := quantities[piece.product :=
                                 (if piece.product in quantities then quantities[piece.product] else 0)
                                     + piece.quantity];
      }
      assert pieces[..|pieces|] == pieces;
    }

    /** Restocks the products in ascending order, one record each. */
    method RestockReturn(pieces: seq<Piece>) returns (reply: Reply)
      modifies this
      ensures reply == ReplyTo(Restock(old(Tables()), pieces))
      ensures Tables() == Next(old(Tables()), DoRestock(pieces))
    {
      hide Sum;
      var quantities := TotalPerProduct(pieces);
      var missing := exists i :: 0 <= i < |pieces| && pieces[i].product >= |stocks|;
      if missing { return Rejected(NotFound); }
      var ids := Products(|stocks|, pieces);
      var before := Tables();
      ghost var whole := RestockEach(before, pieces, ids);
      assert ids[0..] == ids;
      var i := 0;
      while i < |ids|
        invariant 0 <= i <= |ids| && |stocks| == |before.stocks|
        invariant RestockEach(Tables(), pieces, ids[i..]) == whole
      {
        var id := ids[i];
        assert ids[i..][0] == id && ids[i..][1..] == ids[i + 1..] && id in ids;
        var stock, qty := stocks[id], quantities[id];
        var beforeTotal := stock.available + stock.reserved + stock.locked;
        stocks := stocks[id := stock.(available := stock.available + qty)];
        records := records
            + [Record(id, qty, stock.available, stock.available + qty, Some(qty), Some(beforeTotal),
                      Some(beforeTotal + qty))];
        i := i + 1;
      }
      reply := Done;
    }

    method ReserveReplacement(pieces: seq<Piece>) returns (reply: Reply)
      modifies this
      ensures reply == ReplyTo(Reserve(old(Tables()), ByProduct(pieces)))
      ensures Tables() == Next(old(Tables()), DoReserve(pieces))
    {
      var items := ByProduct(pieces);
      var before := Tables();
      ghost var whole := Reserve(before, items);
      assert items[0..] == items;
      var i := 0;
      while i < |items|
        invariant 0 <= i <= |items|
        invariant Reserve(Tables(), items[i..]) == whole
      {
        var item := items[i];
        assert items[i..][0] == item && items[i..][1..] == items[i + 1..];
        if item.product >= |stocks| {
          stocks, records := before.stocks, before.records;
          return Rejected(NotFound);
        }
        var stock := stocks[item.product];
        var beforeTotal := stock.available + stock.reserved + stock.locked;
        if !(stock.available >= item.quantity) {
          stocks, records := before.stocks, before.records;
          return Rejected(NotEnough);
        }
        stocks := stocks[item.product :=
                         stock.(available := stock.available - item.quantity,
                                reserved := stock.reserved + item.quantity)];
        records := records + [Record(item.product, -item.quantity, stock.available, stock.available - item.quantity,
                                     Some(0), Some(beforeTotal), Some(beforeTotal))];
        i := i + 1;
      }
      reply := Done;
    }

    /** Runs the queries one after the other; the samples are the first findings up to the limit. */
    method CheckStock(limit: nat) returns (violations: nat, samples: seq<Finding>)
      ensures violations == Violations(Tables())
      ensures samples == FirstOf(Flatten(Queries(Tables())), limit)
    {
      hide Queries;
      var queries := Queries(Tables());
      violations, samples := 0, [];
      for i := 0 to |queries|
        invariant violations == |Flatten(queries[..i])| && samples == FirstOf(Flatten(queries[..i]), limit)
      {
        var rows := queries[i];
        assert queries[..i + 1][..i] == queries[..i];
        violations := violations + |rows|;
        if |rows| != 0 && |samples| < limit {
          samples := samples + FirstOf(rows, limit - |samples|);
        }
      }
      assert queries[..|queries|] == queries;
    }
  }

  function FirstOf(s: seq<Finding>, limit: nat): seq<Finding> {
    if |s| <= limit then s else s[..limit]
  }

  lemma NoPieces(pieces: seq<Piece>)
    ensures forall p: nat :: !Mentions(pieces[..0], p) && Sum(QuantityOf(p), pieces[..0]) == 0
  {
  }

  lemma MentionsSnoc(pieces: seq<Piece>, i: nat)
    requires i < |pieces|
    ensures forall p: nat :: Mentions(pieces[..i + 1], p) <==> Mentions(pieces[..i], p) || p == pieces[i].product
  {
    forall p: nat ensures Mentions(pieces[..i + 1], p) <==> Mentions(pieces[..i], p) || p == pieces[i].product {
      if Mentions(pieces[..i], p) {
        var k :| 0 <= k < i && pieces[..i][k].product == p;
        assert pieces[..i + 1][k].product == p;
      }
      if p == pieces[i].product { assert pieces[..i + 1][i].product == p; }
      if Mentions(pieces[..i + 1], p) && p != pieces[i].product {
        var k :| 0 <= k < i + 1 && pieces[..i + 1][k].product == p;
        assert pieces[..i][k].product == p;
      }
    }
  }
}
