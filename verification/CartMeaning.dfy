/** When a cart command is accepted, told in a shopper's terms, and which rows are selected afterwards. */
module CartMeaning {
  import opened Machine
  import opened CartModel

  /** The shop product is on sale in an open shop with at least `quantity` in stock. */
  predicate OnOffer(catalog: Catalog, shopProduct: nat, quantity: int) {
    && shopProduct in catalog.products
    && var p := catalog.products[shopProduct]; p.shop in catalog.open && p.onSale && quantity <= p.stock
  }

  /** The row can be bought: its own shop is open, and the product on sale there in the row's quantity. */
  predicate Buyable(catalog: Catalog, shopProduct: nat, row: Item) {
    && row.shop in catalog.open && shopProduct in catalog.products
    && catalog.products[shopProduct].onSale && row.quantity <= catalog.products[shopProduct].stock
  }

  lemma ValidateExactly(catalog: Catalog, p: Product, quantity: int)
    ensures var v := Validate(catalog, p, quantity);
            && (v.None? <==> p.shop in catalog.open && p.onSale && p.stock >= quantity)
            && (v == Some(ShopClosed) <==> p.shop !in catalog.open)
            && (v == Some(NotOnSale) <==> p.shop in catalog.open && !p.onSale)
            && (v == Some(StockNotEnough) <==> p.shop in catalog.open && p.onSale && p.stock < quantity)
  {
  }

  lemma AvailabilityExactly(catalog: Catalog, shopProduct: nat, row: Item)
    ensures Availability(catalog, shopProduct, row).None? <==> Buyable(catalog, shopProduct, row)
  {
  }

  /** The shop's row at place `i` of the listing is unavailable for the given reason, and none before it is. */
  predicate FirstAt(seen: Cart, catalog: Catalog, shop: nat, listing: seq<nat>, i: nat, reason: Option<Error>)
    requires i < |listing|
  {
    && listing[i] in seen && seen[listing[i]].shop == shop
       && reason == Availability(catalog, listing[i], seen[listing[i]])
    && forall j :: 0 <= j < i && listing[j] in seen && seen[listing[j]].shop == shop ==>
         Buyable(catalog, listing[j], seen[listing[j]])
  }

  lemma {:induction false} ListingExactly(seen: Cart, catalog: Catalog, shop: nat, listing: seq<nat>)
    ensures FirstUnavailable(seen, catalog, shop, listing).None?
            <==> forall k :: k in listing && k in seen && seen[k].shop == shop ==> Buyable(catalog, k, seen[k])
    ensures var r := FirstUnavailable(seen, catalog, shop, listing);
            r.Some? ==> exists i :: 0 <= i < |listing| && FirstAt(seen, catalog, shop, listing, i, r)
  {
    hide Availability, Buyable;
    if listing != [] {
      var k, rest := listing[0], listing[1..];
      assert listing == [k] + rest;
      if k in seen { AvailabilityExactly(catalog, k, seen[k]); }
      ListingExactly(seen, catalog, shop, rest);
      if k in seen && seen[k].shop == shop && Availability(catalog, k, seen[k]).Some? {
        assert FirstAt(seen, catalog, shop, listing, 0, FirstUnavailable(seen, catalog, shop, listing));
      } else if FirstUnavailable(seen, catalog, shop, rest).Some? {
        var i :| 0 <= i < |rest| && FirstAt(seen, catalog, shop, rest, i, FirstUnavailable(seen, catalog, shop, rest));
        forall j | 0 <= j < i + 1 && listing[j] in seen && seen[listing[j]].shop == shop
          ensures Buyable(catalog, listing[j], seen[listing[j]])
        {
          if j > 0 { assert listing[j] == rest[j - 1]; }
        }
        assert FirstAt(seen, catalog, shop, listing, i + 1, FirstUnavailable(seen, catalog, shop, listing));
      }
    }
  }

  // ----- when a command goes through

  predicate NoOtherShop(cart: Cart, shop: nat) { forall k :: k in cart && cart[k].selected ==> cart[k].shop == shop }

  predicate Allowed(cart: Cart, seen: Cart, catalog: Catalog, cmd: Command) {
    match cmd
    case DoAdd(k, q) =>
      && 1 <= q <= 99 && CurrentQuantity(cart, k) + q <= 99 && OnOffer(catalog, k, CurrentQuantity(cart, k) + q)
      && NoOtherShop(seen, catalog.products[k].shop)
    case DoUpdate(k, q) => 1 <= q <= 99 && k in cart && OnOffer(catalog, k, q)
    case DoDelete(k) => k in cart
    case DoClear(_) => true
    case DoSelectItem(k, selected) =>
      && k in cart
      && (selected ==> Buyable(catalog, k, cart[k]) && NoOtherShop(seen - {k}, cart[k].shop))
    case DoSelectShop(shop, selected, listing) =>
      selected ==>
        && NoOtherShop(seen, shop)
        && forall k :: k in listing && k in seen && seen[k].shop == shop ==> Buyable(catalog, k, seen[k])
    case DoRepurchase(lookup, shop, items, maxItems, replaceSelection) =>
      && ValidWanted(items, maxItems)
      && (replaceSelection || NoOtherShop(seen, shop)
          || forall i :: 0 <= i < |items| ==> !GoesIn(cart, catalog, lookup, items[i]))
  }

  /** A wanted item goes into the cart when the shop sells it and has what the row will then hold. */
  predicate GoesIn(cart: Cart, catalog: Catalog, lookup: map<nat, nat>, w: Wanted) {
    && w.product in lookup && OnOffer(catalog, lookup[w.product], 1)
    && OnOffer(catalog, lookup[w.product], w.quantity)
       && OnOffer(catalog, lookup[w.product], CurrentQuantity(cart, lookup[w.product]))
  }

  predicate Done(cart: Cart, seen: Cart, catalog: Catalog, cmd: Command) {
    match cmd
    case DoAdd(k, q) => AddItem(cart, seen, catalog, k, q).Accepted?
    case DoUpdate(k, q) => UpdateItem(cart, catalog, k, q).Accepted?
    case DoDelete(k) => DeleteItem(cart, k).Accepted?
    case DoClear(shop) => ClearItems(cart, shop).Accepted?
    case DoSelectItem(k, selected) => SelectItem(cart, seen, catalog, k, selected).Accepted?
    case DoSelectShop(shop, selected, listing) => SelectShop(cart, seen, catalog, shop, selected, listing).Accepted?
    case DoRepurchase(lookup, shop, items, maxItems, replaceSelection) =>
      Repurchase(cart, seen, catalog, lookup, shop, items, maxItems, replaceSelection).Bought?
  }

  lemma OtherShops(cart: Cart, shop: nat)
    ensures HasSelectedOtherShop(cart, shop) <==> !NoOtherShop(cart, shop)
  {
  }

  lemma PlanExactly(cart: Cart, catalog: Catalog, lookup: map<nat, nat>, w: Wanted)
    ensures Plan(cart, catalog, lookup, w).1.Some? <==> GoesIn(cart, catalog, lookup, w)
    ensures var r, row := Plan(cart, catalog, lookup, w).0, if w.product in lookup then lookup[w.product] else 0;
            && r.product == w.product && r.requested == w.quantity
            && (r.status.SkippedItem? <==> !GoesIn(cart, catalog, lookup, w))
            && (r.status.Added? <==> GoesIn(cart, catalog, lookup, w) && row !in cart)
            && (r.status.Updated? <==> GoesIn(cart, catalog, lookup, w) && row in cart
                                       && (w.quantity > cart[row].quantity || !cart[row].selected))
            && (r.status.Unchanged? <==> GoesIn(cart, catalog, lookup, w) && row in cart
                                         && w.quantity <= cart[row].quantity && cart[row].selected)
            && (GoesIn(cart, catalog, lookup, w) ==>
                  r.cartQuantity >= w.quantity && r.cartQuantity >= CurrentQuantity(cart, row)
                  && (r.cartQuantity == w.quantity || r.cartQuantity == CurrentQuantity(cart, row)))
  {
  }

  lemma {:induction false} NoCandidates(cart: Cart, catalog: Catalog, lookup: map<nat, nat>, items: seq<Wanted>)
    ensures Candidates(cart, catalog, lookup, items) == []
            <==> forall i :: 0 <= i < |items| ==> !GoesIn(cart, catalog, lookup, items[i])
  {
    if items != [] {
      hide Plan, GoesIn;
      var n := |items| - 1;
      NoCandidates(cart, catalog, lookup, items[..n]);
      PlanExactly(cart, catalog, lookup, items[n]);
      assert forall i :: 0 <= i < n ==> items[..n][i] == items[i];
    }
  }

  /** A command goes through exactly when its conditions hold of the locked rows, the snapshot and the catalog. */
  lemma DoneExactly(cart: Cart, seen: Cart, catalog: Catalog, cmd: Command)
    ensures Done(cart, seen, catalog, cmd) <==> Allowed(cart, seen, catalog, cmd)
  {
    match cmd
    case DoAdd(k, q) =>
      if k in catalog.products { OtherShops(seen, catalog.products[k].shop); } hide HasSelectedOtherShop, NoOtherShop;
    case DoUpdate(_, _) =>
    case DoDelete(_) =>
    case DoClear(_) =>
    case DoSelectItem(k, selected) =>
      if k in cart && selected {
        var view := seen[k := cart[k].(selected := true)];
        AvailabilityExactly(catalog, k, cart[k].(selected := true));
        OtherShops(view, cart[k].shop);
        OneRowAside(seen, view, k, cart[k].shop);
      }
      hide HasSelectedOtherShop, NoOtherShop, Availability;
    case DoSelectShop(shop, selected, listing) =>
      OtherShops(seen, shop);
      ListingExactly(seen, catalog, shop, listing);
      hide HasSelectedOtherShop, NoOtherShop, FirstUnavailable, Buyable;
    case DoRepurchase(lookup, shop, items, maxItems, replaceSelection) =>
      OtherShops(seen, shop);
      NoCandidates(cart, catalog, lookup, items);
      hide HasSelectedOtherShop, NoOtherShop, Candidates, GoesIn;
  }

  lemma OneRowAside(seen: Cart, view: Cart, k: nat, shop: nat)
    requires k in view && view[k].shop == shop && view.Keys == seen.Keys + {k}
    requires forall j :: j in seen && j != k ==> view[j] == seen[j]
    ensures NoOtherShop(view, shop) <==> NoOtherShop(seen - {k}, shop)
  {
    forall j | j in seen && j != k ensures j in view && j in seen - {k} && (seen - {k})[j] == view[j] {
    }
  }

  // ----- which rows are there and selected afterwards

  /** Whether a row is in the cart after a command that went through. */
  predicate InCart(cart: Cart, cmd: Command, k: nat) {
    match cmd
    case DoAdd(j, _) => j == k || k in cart
    case DoDelete(j) => j != k && k in cart
    case DoClear(only) => k in cart && only.Some? && cart[k].shop != only.value
    case _ => k in cart
  }

  /** Whether a row of the cart is selected after a command that went through. */
  predicate SelectedAfter(cart: Cart, cmd: Command, k: nat) {
    match cmd
    case DoAdd(j, _) => j == k || (k in cart && cart[k].selected)
    case DoSelectItem(j, selected) => if j == k then selected else k in cart && cart[k].selected
    case DoSelectShop(shop, selected, _) =>
      if k in cart && cart[k].shop == shop then selected else k in cart && cart[k].selected
    case _ => k in cart && cart[k].selected
  }

  lemma RowsMove(cart: Cart, seen: Cart, catalog: Catalog, cmd: Command, k: nat)
    requires Done(cart, seen, catalog, cmd) && !cmd.DoRepurchase?
    ensures var cart' := Apply(cart, seen, catalog, cmd);
            && (k in cart' <==> InCart(cart, cmd, k))
            && (k in cart' ==> (cart'[k].selected <==> SelectedAfter(cart, cmd, k)))
            && (k in cart' && k in cart ==> cart'[k].shop == cart[k].shop)
  {
    hide HasSelectedOtherShop, FirstUnavailable, Availability, Validate;
  }

  predicate GoesTo(cart: Cart, catalog: Catalog, lookup: map<nat, nat>, w: Wanted, k: nat) {
    GoesIn(cart, catalog, lookup, w) && w.product in lookup && lookup[w.product] == k
  }

  predicate Wants(cart: Cart, catalog: Catalog, lookup: map<nat, nat>, items: seq<Wanted>, k: nat) {
    exists i :: 0 <= i < |items| && GoesTo(cart, catalog, lookup, items[i], k)
  }

  lemma {:induction false} WantedRows(cart: Cart, mid: Cart, catalog: Catalog, lookup: map<nat, nat>, shop: nat,
                                      items: seq<Wanted>, k: nat)
    ensures var r := WriteAll(mid, shop, Candidates(cart, catalog, lookup, items));
            && (k in r <==> k in mid || Wants(cart, catalog, lookup, items, k))
            && (k in r ==> (r[k].selected <==> Wants(cart, catalog, lookup, items, k) || (k in mid && mid[k].selected)))
  {
    if items != [] {
      hide Plan, GoesIn, Target;
      var n := |items| - 1;
      WantedRows(cart, mid, catalog, lookup, shop, items[..n], k);
      PlanExactly(cart, catalog, lookup, items[n]);
      PlannedRow(cart, catalog, lookup, items[n]);
      OneMoreCandidate(cart, mid, catalog, lookup, shop, items);
      WantsMore(cart, catalog, lookup, items, k);
      hide WriteAll, Candidates, Wants;
    }
  }

  lemma WantsMore(cart: Cart, catalog: Catalog, lookup: map<nat, nat>, items: seq<Wanted>, k: nat)
    requires items != []
    ensures var n := |items| - 1;
            Wants(cart, catalog, lookup, items, k)
            <==> Wants(cart, catalog, lookup, items[..n], k) || GoesTo(cart, catalog, lookup, items[n], k)
  {
    hide GoesTo;
    var n := |items| - 1;
    assert forall i :: 0 <= i < n ==> items[..n][i] == items[i];
    if i :| 0 <= i < n && GoesTo(cart, catalog, lookup, items[..n][i], k) {
      assert GoesTo(cart, catalog, lookup, items[i], k);
    }
    if i :| 0 <= i < |items| && GoesTo(cart, catalog, lookup, items[i], k) && i < n {
      assert GoesTo(cart, catalog, lookup, items[..n][i], k);
    }
  }

  /** A repurchase selects exactly the rows of the items that go in, keeps the other rows, and deselects those of other
      shops when it replaces the selection. */
  lemma RepurchaseMoves(cart: Cart, seen: Cart, catalog: Catalog, lookup: map<nat, nat>, shop: nat, items: seq<Wanted>,
                        maxItems: nat, replaceSelection: bool, k: nat)
    requires Repurchase(cart, seen, catalog, lookup, shop, items, maxItems, replaceSelection).Bought?
    requires Candidates(cart, catalog, lookup, items) != []
    ensures var cart' := Repurchase(cart, seen, catalog, lookup, shop, items, maxItems, replaceSelection).cart;
            && (k in cart' <==> k in cart || Wants(cart, catalog, lookup, items, k))
            && (k in cart' ==>
                  (cart'[k].selected
                   <==> Wants(cart, catalog, lookup, items, k)
                        || (k in cart && cart[k].selected && (replaceSelection ==> cart[k].shop == shop))))
  {
    hide Wants, Candidates, WriteAll, HasSelectedOtherShop, ValidWanted, Results, Skipped;
    WantedRows(cart, cart, catalog, lookup, shop, items, k);
    WantedRows(cart, DeselectOtherShops(cart, shop), catalog, lookup, shop, items, k);
  }
}
