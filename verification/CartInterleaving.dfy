/** Overlapping mutations of one cart. A mutation takes its snapshot before it gets the cart's lock, and its test for
    another selected shop reads that snapshot, while quantities are read under the lock. */
module CartInterleaving {
  import opened Machine
  import opened CartModel

  /** A mutation between its snapshot and the cart's lock. */
  datatype Mutation = Mutation(seen: Cart, cmd: Command)

  datatype System = System(cart: Cart, open: seq<Option<Mutation>>)

  datatype Event = Begin(cmd: Command) | Finish(mutation: nat, catalog: Catalog)

  predicate Waiting(s: System, i: nat) { i < |s.open| && s.open[i].Some? }

  function Fire(s: System, e: Event): System {
    match e
    case Begin(cmd) => s.(open := s.open + [Some(Mutation(s.cart, cmd))])
    case Finish(i, catalog) =>
      if !Waiting(s, i) then s
      else System(Apply(s.cart, s.open[i].value.seen, catalog, s.open[i].value.cmd), s.open[i := None])
  }

  function Trace(s: System, events: seq<Event>): System {
    if events == [] then s else Fire(Trace(s, events[..|events| - 1]), events[|events| - 1])
  }

  const START: System := System(map[], [])

  /** The catalogs of a run leave every shop product where it belongs, and lookups find the service shop's rows. */
  ghost predicate Plausible(s: System, e: Event, shopOf: map<nat, nat>) {
    e.Finish? ==>
      && Placed(e.catalog, shopOf)
      && (Waiting(s, e.mutation) && s.open[e.mutation].value.cmd.DoRepurchase? ==>
            LooksUp(s.open[e.mutation].value.cmd.lookup, e.catalog, s.open[e.mutation].value.cmd.shop))
  }

  ghost predicate AllPlausible(events: seq<Event>, shopOf: map<nat, nat>) {
    events != [] ==>
      AllPlausible(events[..|events| - 1], shopOf)
          && Plausible(Trace(START, events[..|events| - 1]), events[|events| - 1], shopOf)
  }

  /** However mutations overlap, quantities stay within 1..99. */
  lemma {:induction false} TraceKeepsRows(events: seq<Event>, shopOf: map<nat, nat>)
    requires AllPlausible(events, shopOf)
    ensures RowsOk(Trace(START, events).cart, shopOf)
  {
    if events != [] {
      hide Apply, RowsOk, LooksUp, Placed;
      var so, e := events[..|events| - 1], events[|events| - 1];
      TraceKeepsRows(so, shopOf);
      var s := Trace(START, so);
      if e.Finish? && Waiting(s, e.mutation) {
        StepKeepsRows(s.cart, s.open[e.mutation].value.seen, e.catalog, s.open[e.mutation].value.cmd, shopOf);
      }
    } else {
      NothingSelected(shopOf);
    }
  }

  /** What the accepted commands of a run ask of a row, one after another. */
  function Asked(events: seq<Event>, k: nat): int {
    if events == [] then 0
    else
      var n := |events| - 1;
      var s, before := Trace(START, events[..n]), Asked(events[..n], k);
      match events[n]
      case Begin(_) => before
      case Finish(i, catalog) =>
        if Waiting(s, i) then AskedBy(s.cart, s.open[i].value.seen, catalog, s.open[i].value.cmd, k, before) else before
  }

  /** However mutations overlap, every row holds exactly what was asked of it: no accepted addition or repurchase is
      truncated by the cap of the upsert. */
  lemma {:induction false} AskedIsHeld(events: seq<Event>, shopOf: map<nat, nat>, k: nat)
    requires AllPlausible(events, shopOf)
    ensures CurrentQuantity(Trace(START, events).cart, k) == Asked(events, k)
  {
    if events != [] {
      hide Apply, RowsOk, LooksUp, Placed, AskedBy;
      var so, e := events[..|events| - 1], events[|events| - 1];
      AskedIsHeld(so, shopOf, k);
      TraceKeepsRows(so, shopOf);
      var s := Trace(START, so);
      if e.Finish? && Waiting(s, e.mutation) {
        StepHoldsAsked(s.cart, s.open[e.mutation].value.seen, e.catalog, s.open[e.mutation].value.cmd, shopOf, k);
      }
    }
  }

  lemma NothingSelected(shopOf: map<nat, nat>)
    ensures CartOk(START.cart, shopOf)
  {
  }

  predicate StepPasses(s: System, e: Event) {
    e.Finish? && Waiting(s, e.mutation) ==>
          PassesNow(s.cart, s.open[e.mutation].value.seen, e.catalog, s.open[e.mutation].value.cmd)
  }

  predicate AllPass(events: seq<Event>) {
    events != [] ==>
      AllPass(events[..|events| - 1]) && StepPasses(Trace(START, events[..|events| - 1]), events[|events| - 1])
  }

  predicate OneShopThroughout(events: seq<Event>) {
    OneShop(Trace(START, events).cart) && (events != [] ==> OneShopThroughout(events[..|events| - 1]))
  }

  /** Across all mutations, overlapping in any way, the selected items belong to one shop throughout exactly when every
      selecting mutation's check also holds of the cart it changes. */
  lemma {:induction false} OneShopExactly(events: seq<Event>, shopOf: map<nat, nat>)
    requires AllPlausible(events, shopOf)
    ensures OneShopThroughout(events) <==> AllPass(events)
  {
    if events == [] {
      NothingSelected(shopOf);
    } else {
      hide Apply, RowsOk, OneShop, LooksUp, Placed, PassesNow;
      var so, e := events[..|events| - 1], events[|events| - 1];
      OneShopExactly(so, shopOf);
      TraceKeepsRows(so, shopOf);
      var s := Trace(START, so);
      if e.Finish? && Waiting(s, e.mutation) && OneShop(s.cart) {
        StepKeepsOneShop(s.cart, s.open[e.mutation].value.seen, e.catalog, s.open[e.mutation].value.cmd, shopOf);
      }
    }
  }

  /** A mutation that nothing overtook checks what it changes, so mutations one after another keep one shop. */
  lemma CurrentPasses(cart: Cart, catalog: Catalog, cmd: Command)
    ensures PassesNow(cart, cart, catalog, cmd)
  {
    match cmd
    case DoSelectItem(k, selected) =>
      if selected && k in cart {
        var view := cart[k := cart[k].(selected := true)];
        if j :| j in cart && cart[j].selected && cart[j].shop != cart[k].shop {
          assert j in view && view[j] == cart[j];
        }
      }
      hide Availability;
    case _ => hide Availability, FirstUnavailable, Plan;
  }

  function Stocked(shop: nat, product: nat): Product { Product(shop, product, true, 10, 100) }

  const TWO_SHOPS: Catalog := Catalog(map[1 := Stocked(1, 7), 2 := Stocked(2, 7)], {1, 2})

  /** Two additions for different shops that both began on the empty cart both go through. */
  lemma SnapshotsSelectTwoShops()
    ensures var s := Trace(START, [Begin(DoAdd(1, 1)), Begin(DoAdd(2, 1)), Finish(0, TWO_SHOPS), Finish(1, TWO_SHOPS)]);
            s.cart == map[1 := Item(1, 1, true), 2 := Item(2, 1, true)] && !OneShop(s.cart)
  {
    var events := [Begin(DoAdd(1, 1)), Begin(DoAdd(2, 1)), Finish(0, TWO_SHOPS), Finish(1, TWO_SHOPS)];
    assert events[..3][..2] == events[..2] && events[..2][..1] == events[..1] && events[..1][..0] == [];
    assert Trace(START, events[..1]) == System(map[], [Some(Mutation(map[], DoAdd(1, 1)))]);
    assert Trace(START, events[..2])
           == System(map[], [Some(Mutation(map[], DoAdd(1, 1))), Some(Mutation(map[], DoAdd(2, 1)))]);
    assert Trace(START, events[..3]) == System(map[1 := Item(1, 1, true)], [None, Some(Mutation(map[], DoAdd(2, 1)))]);
    var cart := Trace(START, events).cart;
    assert cart[1].shop != cart[2].shop;
  }
}
