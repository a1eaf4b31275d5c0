/** What reserving and restocking do to each product's quantities, whatever the order of the pieces. */
module StockQuantities {
  import opened Machine
  import opened Sums
  import opened Ordering
  import opened StockJournal

  function Requested(pieces: seq<Piece>, product: nat): int { Sum(QuantityOf(product), pieces) }

  // ----- the product order

  lemma ProductIsTotal(pieces: seq<Piece>)
    ensures TotalOrder(ProductBefore(pieces))
  {
  }

  lemma ByProductAscends(pieces: seq<Piece>)
    ensures var r := ByProduct(pieces); forall i, j :: 0 <= i < j < |r| ==> r[i].product <= r[j].product
  {
    ProductIsTotal(pieces);
    var order := Query(|pieces|, All(), ProductBefore(pieces));
    QuerySorted(|pieces|, All(), ProductBefore(pieces));
    assert forall i :: 0 <= i < |order| ==> order[i] in order;
  }

  predicate Within(pieces: seq<Piece>, order: seq<nat>) { forall k :: 0 <= k < |order| ==> order[k] < |pieces| }

  lemma SumFirst(f: Piece -> int, pieces: seq<Piece>, i: nat, s: seq<nat>)
    requires i < |pieces| && Within(pieces, s)
    ensures Within(pieces, [i] + s) && Sum(f, At(pieces, [i] + s)) == f(pieces[i]) + Sum(f, At(pieces, s))
  {
    assert At(pieces, [i] + s) == [pieces[i]] + At(pieces, s);
    SumAppend(f, [pieces[i]], At(pieces, s));
  }

  lemma {:induction false} SumInserted(f: Piece -> int, pieces: seq<Piece>, before: (nat, nat) -> bool, i: nat,
                                       s: seq<nat>)
    requires i < |pieces| && Within(pieces, s)
    ensures Within(pieces, Insert(before, i, s))
            && Sum(f, At(pieces, Insert(before, i, s))) == f(pieces[i]) + Sum(f, At(pieces, s))
  {
    hide Sum, At, Distinct;
    if s == [] || before(i, s[0]) {
      assert [i] + s == if s == [] then [i] else [i] + s;
      SumFirst(f, pieces, i, s);
    } else {
      SumInserted(f, pieces, before, i, s[1..]);
      SumFirst(f, pieces, s[0], Insert(before, i, s[1..]));
      SumFirst(f, pieces, s[0], s[1..]);
      assert s == [s[0]] + s[1..];
    }
  }

  lemma {:induction false} SumQueried(f: Piece -> int, pieces: seq<Piece>, before: (nat, nat) -> bool, n: nat)
    requires n <= |pieces|
    ensures Within(pieces, Query(n, All(), before))
            && Sum(f, At(pieces, Query(n, All(), before))) == Sum(f, pieces[..n])
  {
    hide At, Insert, Distinct;
    if n > 0 {
      SumQueried(f, pieces, before, n - 1);
      SumInserted(f, pieces, before, n - 1, Query(n - 1, All(), before));
      assert pieces[..n] == pieces[..n - 1] + [pieces[n - 1]];
      SumSnoc(f, pieces[..n - 1], pieces[n - 1]);
      hide Sum;
    }
  }

  /** Sorting the pieces changes no product's total. */
  lemma ByProductKeepsTotals(pieces: seq<Piece>, product: nat)
    ensures Requested(ByProduct(pieces), product) == Requested(pieces, product)
  {
    SumQueried(QuantityOf(product), pieces, ProductBefore(pieces), |pieces|);
    assert pieces[..|pieces|] == pieces;
  }

  // ----- reserving

  /** Every product exists and has available what the pieces ask of it together. */
  ghost predicate InStock(st: State, pieces: seq<Piece>) {
    && (forall i :: 0 <= i < |pieces| ==> pieces[i].product < |st.stocks|)
    && (forall p: nat :: p < |st.stocks| ==>
        Requested(pieces, p) <= 0 || Requested(pieces, p) <= st.stocks[p].available)
  }

  /** Every product's pieces moved from available to reserved. */
  ghost predicate Reserves(st: State, st': State, pieces: seq<Piece>) {
    |st'.stocks| == |st.stocks|
    && forall p: nat :: p < |st.stocks| ==>
         st'.stocks[p] == st.stocks[p].(available := st.stocks[p].available - Requested(pieces, p),
                                        reserved := st.stocks[p].reserved + Requested(pieces, p))
  }

  lemma RequestedFirst(pieces: seq<Piece>, product: nat)
    requires pieces != []
    ensures Requested(pieces, product) == QuantityOf(product)(pieces[0]) + Requested(pieces[1..], product)
  {
    assert pieces == [pieces[0]] + pieces[1..];
    SumAppend(QuantityOf(product), [pieces[0]], pieces[1..]);
  }

  lemma RequestedSome(pieces: seq<Piece>, product: nat)
    requires Positive(pieces)
    ensures Requested(pieces, product) >= 0
  {
    SumNonNegative(QuantityOf(product), pieces);
  }

  /** A piece by piece reservation is accepted exactly when the totals are in stock, and moves exactly the totals. */
  lemma {:induction false} ReserveExactly(st: State, pieces: seq<Piece>)
    requires Positive(pieces)
    ensures Reserve(st, pieces).Accepted? <==> InStock(st, pieces)
    ensures Reserve(st, pieces).Accepted? ==> Reserves(st, Reserve(st, pieces).state, pieces)
    decreases |pieces|
  {
    if pieces != [] {
      var x := pieces[0];
      forall p: nat
        ensures Requested(pieces, p) == (if p == x.product then x.quantity else 0) + Requested(pieces[1..], p)
      {
        RequestedFirst(pieces, p);
      }
      forall p: nat ensures Requested(pieces[1..], p) >= 0 {
        RequestedSome(pieces[1..], p);
      }
      if x.product < |st.stocks| && st.stocks[x.product].available >= x.quantity {
        var s := st.stocks[x.product];
        var next := Write(st, x.product, s.(available := s.available - x.quantity, reserved := s.reserved + x.quantity),
                          -x.quantity);
        ReserveExactly(next, pieces[1..]);
        InStockFirst(st, next, pieces);
      }
    }
  }

  lemma InStockFirst(st: State, next: State, pieces: seq<Piece>)
    requires Positive(pieces) && pieces != [] && pieces[0].product < |st.stocks| && |next.stocks| == |st.stocks|
    requires forall p: nat :: p < |st.stocks| ==>
               next.stocks[p].available == st.stocks[p].available
                   - (if p == pieces[0].product then pieces[0].quantity else 0)
    requires forall p: nat ::
               Requested(pieces, p)
               == (if p == pieces[0].product then pieces[0].quantity else 0) + Requested(pieces[1..], p)
    requires forall p: nat :: Requested(pieces[1..], p) >= 0
    requires st.stocks[pieces[0].product].available >= pieces[0].quantity
    ensures InStock(next, pieces[1..]) <==> InStock(st, pieces)
  {
    hide Requested;
    assert pieces == [pieces[0]] + pieces[1..];
  }

  lemma SameRequest(st: State, st': State, pieces: seq<Piece>, others: seq<Piece>)
    requires (forall x :: x in pieces <==> x in others) && forall p: nat :: Requested(others, p) == Requested(pieces, p)
    ensures (InStock(st, others) <==> InStock(st, pieces)) && (Reserves(st, st', others) <==> Reserves(st, st', pieces))
  {
    hide Requested;
    assert (forall i :: 0 <= i < |pieces| ==> pieces[i] in others)
           && forall i :: 0 <= i < |others| ==> others[i] in pieces;
  }

  /** So the shipped order of the pieces does not matter: a replacement is reserved exactly when every product has
      what the replacement asks of it in total. */
  lemma ReplacementExactly(st: State, pieces: seq<Piece>)
    requires Positive(pieces)
    ensures Apply(st, DoReserve(pieces)).Accepted? <==> InStock(st, pieces)
    ensures Apply(st, DoReserve(pieces)).Accepted? ==> Reserves(st, Next(st, DoReserve(pieces)), pieces)
  {
    var sorted := ByProduct(pieces);
    forall p: nat ensures Requested(sorted, p) == Requested(pieces, p) {
      ByProductKeepsTotals(pieces, p);
    }
    SamePieces(pieces);
    hide Requested, ByProduct, Reserve, InStock, Reserves;
    ReserveExactly(st, sorted);
    SameRequest(st, Next(st, DoReserve(pieces)), pieces, sorted);
  }

  lemma SamePieces(pieces: seq<Piece>)
    ensures forall x :: x in pieces <==> x in ByProduct(pieces)
  {
    var order := Query(|pieces|, All(), ProductBefore(pieces));
    forall x | x in pieces ensures x in ByProduct(pieces) {
      var i :| 0 <= i < |pieces| && pieces[i] == x;
      assert i in order;
      Members(order);
      var k :| 0 <= k < |order| && order[k] == i;
      assert At(pieces, order)[k] == x;
    }
  }

  // ----- restocking

  lemma {:induction false} RestockEachExactly(st: State, pieces: seq<Piece>, products: seq<nat>)
    requires Distinct(products) && forall p: nat :: p in products ==> p < |st.stocks|
    ensures RestockEach(st, pieces, products).Accepted?
    ensures var st' := RestockEach(st, pieces, products).state;
      && |st'.stocks| == |st.stocks| && |st'.records| == |st.records| + |products|
      && forall p: nat :: p < |st.stocks| ==>
           st'.stocks[p] == st.stocks[p].(available := st.stocks[p].available + if p in products
                                          then Requested(pieces, p) else 0)
    decreases |products|
  {
    hide Sum;
    if products != [] {
      assert products[0] in products;
      TailMembers(products);
      var s, quantity := st.stocks[products[0]], Sum(QuantityOf(products[0]), pieces);
      RestockEachExactly(Write(st, products[0], s.(available := s.available + quantity), quantity), pieces,
                         products[1..]);
    }
  }

  lemma {:induction false} Unmentioned(pieces: seq<Piece>, product: nat)
    requires !Mentions(pieces, product)
    ensures Requested(pieces, product) == 0
  {
    SumZero(QuantityOf(product), pieces);
  }

  /** Returned goods are refused only for a missing product; otherwise each product gets back exactly its pieces. */
  lemma RestockExactly(st: State, pieces: seq<Piece>)
    ensures Restock(st, pieces).Accepted? <==> forall i :: 0 <= i < |pieces| ==> pieces[i].product < |st.stocks|
    ensures Restock(st, pieces).Accepted? ==>
      var st' := Restock(st, pieces).state;
      |st'.stocks| == |st.stocks|
      && forall p: nat :: p < |st.stocks| ==>
           st'.stocks[p] == st.stocks[p].(available := st.stocks[p].available + Requested(pieces, p))
  {
    var products := Products(|st.stocks|, pieces);
    RestockEachExactly(st, pieces, products);
    forall p: nat | p < |st.stocks| && p !in products ensures Requested(pieces, p) == 0 {
      Unmentioned(pieces, p);
    }
    hide Requested, RestockEach;
  }

  // ----- adjusting

  /** An adjustment is accepted exactly when it asks for something, of a product there is, and leaves nothing negative;
      it then moves that product's available by exactly the requested delta, in its direction, and records just that. */
  lemma AdjustExactly(st: State, product: nat, delta: int)
    ensures Adjust(st, product, delta).Accepted?
            <==> delta != 0 && product < |st.stocks| && st.stocks[product].available + delta >= 0
    ensures Adjust(st, product, delta).Refused? ==>
              Adjust(st, product, delta).error
              == if delta == 0 then Invalid else if product >= |st.stocks| then NotFound else NotEnough
    ensures Adjust(st, product, delta).Accepted? ==>
      var st', was := Adjust(st, product, delta).state, st.stocks[product];
      && |st'.stocks| == |st.stocks| && st'.stocks[product] == Stock(was.available + delta, was.reserved, was.locked)
      && (forall p: nat :: p < |st.stocks| && p != product ==> st'.stocks[p] == st.stocks[p])
      && |st'.records| == |st.records| + 1 && st'.records[..|st.records|] == st.records
      && var total := was.available + was.reserved + was.locked;
         st'.records[|st.records|] == Record(product, delta, was.available, was.available + delta,
                                             Some(delta), Some(total), Some(total + delta))
  {
  }

  // ----- runs of all three

  /** What an accepted command adds to a product's available quantity. */
  function Gains(st: State, cmd: Command, product: nat): int {
    if Apply(st, cmd).Refused? then 0
    else match cmd
      case DoAdjust(p, delta) => if p == product then delta else 0
      case DoRestock(pieces) => Requested(pieces, product)
      case DoReserve(pieces) => -Requested(pieces, product)
  }

  function Reserved(st: State, cmd: Command, product: nat): int {
    if cmd.DoReserve? && Apply(st, cmd).Accepted? then Requested(cmd.pieces, product) else 0
  }

  function GainedOver(st: State, cmds: seq<Command>, product: nat): int {
    if cmds == [] then 0
    else
      var n := |cmds| - 1;
      GainedOver(st, cmds[..n], product) + Gains(Run(st, cmds[..n]), cmds[n], product)
  }

  function ReservedOver(st: State, cmds: seq<Command>, product: nat): int {
    if cmds == [] then 0
    else
      var n := |cmds| - 1;
      ReservedOver(st, cmds[..n], product) + Reserved(Run(st, cmds[..n]), cmds[n], product)
  }

  lemma StepMovesStock(st: State, cmd: Command, product: nat)
    requires Valid(cmd) && product < |st.stocks|
    ensures |Next(st, cmd).stocks| == |st.stocks|
    ensures Next(st, cmd).stocks[product]
            == Stock(st.stocks[product].available + Gains(st, cmd, product),
                     st.stocks[product].reserved + Reserved(st, cmd, product), st.stocks[product].locked)
  {
    match cmd
    case DoAdjust(p, delta) => AdjustExactly(st, p, delta);
    case DoRestock(pieces) =>
      RestockExactly(st, pieces);
      hide Restock, Requested;
    case DoReserve(pieces) =>
      ReplacementExactly(st, pieces);
      hide Reserve, ByProduct, Requested, InStock;
  }

  /** In every run each product's available quantity is its start plus the accepted deltas, plus what was restocked,
      less
      what was reserved; its reserved quantity has grown by just that, and nothing touches what is locked. */
  lemma {:induction false} RunMovesStock(st: State, cmds: seq<Command>, product: nat)
    requires product < |st.stocks| && forall i :: 0 <= i < |cmds| ==> Valid(cmds[i])
    ensures var st' := Run(st, cmds);
            && |st'.stocks| == |st.stocks|
            && st'.stocks[product].available == st.stocks[product].available + GainedOver(st, cmds, product)
            && st'.stocks[product].reserved == st.stocks[product].reserved + ReservedOver(st, cmds, product)
            && st'.stocks[product].locked == st.stocks[product].locked
  {
    if cmds != [] {
      var n := |cmds| - 1;
      RunMovesStock(st, cmds[..n], product);
      StepMovesStock(Run(st, cmds[..n]), cmds[n], product);
      hide Next, Gains, Reserved;
    }
  }
}
