/** The cart service as it runs: rows updated in place under the cart's lock, rolled back when a later check fails. */
module CartDesk {
  import opened Machine
  import opened CartModel

  datatype Reply = Done | Rejected(error: Error)

  function ReplyTo(o: Outcome): Reply {
    match o
    case Accepted(_) => Done
    case Refused(error) => Rejected(error)
  }

  /** The totals shown with the cart. */
  function ShownQuantity(cart: Cart, catalog: Catalog, k: nat): int {
    if k in cart && cart[k].selected && Availability(catalog, k, cart[k]).None? then cart[k].quantity else 0
  }

  function SumShown(cart: Cart, catalog: Catalog, rows: seq<nat>): int {
    if rows == [] then 0
    else SumShown(cart, catalog, rows[..|rows| - 1]) + ShownQuantity(cart, catalog, rows[|rows| - 1])
  }

  function CountUnavailable(cart: Cart, catalog: Catalog, rows: seq<nat>): nat {
    if rows == [] then 0
    else CountUnavailable(cart, catalog, rows[..|rows| - 1])
         + if rows[|rows| - 1] in cart && Availability(catalog, rows[|rows| - 1], cart[rows[|rows| - 1]]).Some? then 1
             else 0
  }

  function ShownAmount(cart: Cart, catalog: Catalog, k: nat): int {
    if k in cart && k in catalog.products && cart[k].selected && Availability(catalog, k, cart[k]).None?
    then cart[k].quantity * catalog.products[k].price else 0
  }

  function SumAmounts(cart: Cart, catalog: Catalog, rows: seq<nat>): int {
    if rows == [] then 0
    else SumAmounts(cart, catalog, rows[..|rows| - 1]) + ShownAmount(cart, catalog, rows[|rows| - 1])
  }

  class Desk {
    var cart: Cart

    constructor ()
      ensures cart == map[]
    {
      cart := map[];
    }

    /** `seen` is the snapshot the transaction took before it got the cart's lock. */
    method AddToCart(seen: Cart, catalog: Catalog, shopProduct: nat, quantity: int) returns (reply: Reply)
      modifies this
      ensures reply == ReplyTo(AddItem(old(cart), seen, catalog, shopProduct, quantity))
      ensures cart == Apply(old(cart), seen, catalog, DoAdd(shopProduct, quantity))
    {
      if !(1 <= quantity <= LIMIT) { return Rejected(Invalid); }
      if shopProduct !in catalog.products { return Rejected(NotOnSale); }
      var p := catalog.products[shopProduct];
      var current := if shopProduct in cart then cart[shopProduct].quantity else 0;
      if current + quantity > LIMIT { return Rejected(QuantityLimit); }
      var invalid := Validate(catalog, p, current + quantity);
      if invalid.Some? { return Rejected(invalid.value); }
      if HasSelectedOtherShop(seen, p.shop) { return Rejected(ShopConflict); }
      if shopProduct in cart {
        cart := cart[shopProduct :=
                     cart[shopProduct].(quantity := Min(cart[shopProduct].quantity + quantity, LIMIT),
                                        selected := true)];
      } else {
        cart := cart[shopProduct := Item(p.shop, quantity, true)];
      }
      reply := Done;
    }

    method ChangeQuantity(catalog: Catalog, shopProduct: nat, quantity: int) returns (reply: Reply)
      modifies this
      ensures reply == ReplyTo(UpdateItem(old(cart), catalog, shopProduct, quantity))
      ensures cart == Apply(old(cart), old(cart), catalog, DoUpdate(shopProduct, quantity))
    {
      if !(1 <= quantity <= LIMIT) { return Rejected(Invalid); }
      if shopProduct !in cart { return Rejected(NotFound); }
      if shopProduct !in catalog.products { return Rejected(NotOnSale); }
      var invalid := Validate(catalog, catalog.products[shopProduct], quantity);
      if invalid.Some? { return Rejected(invalid.value); }
      cart := cart[shopProduct := cart[shopProduct].(quantity := quantity)];
      reply := Done;
    }

    /** Writes the selection, then looks for a conflict among the rows it sees: its own write and the snapshot. */
    method SetItemSelection(seen: Cart, catalog: Catalog, shopProduct: nat, selected: bool) returns (reply: Reply)
      modifies this
      ensures reply == ReplyTo(SelectItem(old(cart), seen, catalog, shopProduct, selected))
      ensures cart == Apply(old(cart), seen, catalog, DoSelectItem(shopProduct, selected))
    {
      if shopProduct !in cart { return Rejected(NotFound); }
      var before := cart;
      cart := cart[shopProduct := cart[shopProduct].(selected := selected)];
      if !selected { return Done; }
      var unavailable := Availability(catalog, shopProduct, cart[shopProduct]);
      if unavailable.Some? {
        cart := before;
        return Rejected(unavailable.value);
      }
      ghost var written := cart;
      var listed := seen[shopProduct := cart[shopProduct]];
      var target := cart[shopProduct].shop;
      var rows := listed.Keys;
      while rows != {}
        invariant rows <= listed.Keys && cart == written
        invariant forall k :: k in listed && k !in rows ==> !(listed[k].selected && listed[k].shop != target)
        decreases rows
      {
        var row :| row in rows;
        rows := rows - {row};
        if listed[row].selected && listed[row].shop != target {
          assert HasSelectedOtherShop(listed, target);
          cart := before;
          return Rejected(ShopConflict);
        }
      }
      assert !HasSelectedOtherShop(listed, target);
      reply := Done;
    }

    /** Refuses for the first unavailable row of the shop in listing order. */
    method SetShopSelection(seen: Cart, catalog: Catalog, shop: nat, selected: bool, listing: seq<nat>)
      returns (reply: Reply)
      modifies this
      ensures reply == ReplyTo(SelectShop(old(cart), seen, catalog, shop, selected, listing))
      ensures cart == Apply(old(cart), seen, catalog, DoSelectShop(shop, selected, listing))
    {
      if selected {
        if HasSelectedOtherShop(seen, shop) { return Rejected(ShopConflict); }
        assert listing[0..] == listing;
        var i := 0;
        while i < |listing|
          invariant 0 <= i <= |listing| && cart == old(cart)
          invariant FirstUnavailable(seen, catalog, shop, listing)
                    == FirstUnavailable(seen, catalog, shop, listing[i..])
        {
          var row := listing[i];
          assert listing[i..][0] == row && listing[i..][1..] == listing[i + 1..];
          if row in seen && seen[row].shop == shop {
            var unavailable := Availability(catalog, row, seen[row]);
            if unavailable.Some? { return Rejected(unavailable.value); }
          }
          i := i + 1;
        }
      }
      cart := map k | k in cart :: if cart[k].shop == shop then cart[k].(selected := selected) else cart[k];
      reply := Done;
    }

    /** Plans every wanted item against the cart as it is. */
    method PlanItems(catalog: Catalog, lookup: map<nat, nat>, items: seq<Wanted>)
      returns (results: seq<ItemResult>, candidates: seq<Candidate>, failed: nat)
      ensures results == Results(cart, catalog, lookup, items) && candidates == Candidates(cart, catalog, lookup, items)
      ensures failed == Skipped(results)
    {
      hide Plan;
      results, candidates, failed := [], [], 0;
      for index := 0 to |items|
        invariant results == Results(cart, catalog, lookup, items)[..index]
        invariant candidates == Candidates(cart, catalog, lookup, items[..index])
        invariant failed == Skipped(results)
      {
        var plan := Plan(cart, catalog, lookup, items[index]);
        assert items[..index + 1][..index] == items[..index];
        assert Results(cart, catalog, lookup, items)[..index + 1] == results + [plan.0];
        assert (results + [plan.0])[..index] == results;
        results := results + [plan.0];
        if plan.1.None? { failed := failed + 1; } else { candidates := candidates + [plan.1.value]; }
        PlanSkips(cart, catalog, lookup, items[index]);
      }
      assert items[..|items|] == items && Results(cart, catalog, lookup, items)[..|items|]
             == Results(cart, catalog, lookup, items);
    }

    /** Sets every candidate row to its target quantity and selects it. */
    method WriteCandidates(shop: nat, candidates: seq<Candidate>) returns (succeeded: nat)
      modifies this
      ensures cart == WriteAll(old(cart), shop, candidates) && succeeded == |candidates|
    {
      succeeded := 0;
      for i := 0 to |candidates|
        invariant cart == WriteAll(old(cart), shop, candidates[..i]) && succeeded == i
      {
        var c := candidates[i];
        assert candidates[..i + 1][..i] == candidates[..i];
        if c.shopProduct in cart {
          cart := cart[c.shopProduct := cart[c.shopProduct].(quantity := c.target, selected := true)];
        } else {
          cart := cart[c.shopProduct := Item(shop, c.target, true)];
        }
        succeeded := succeeded + 1;
      }
      assert candidates[..|candidates|] == candidates;
    }

    method RepurchaseItems(seen: Cart, catalog: Catalog, lookup: map<nat, nat>, shop: nat, items: seq<Wanted>,
                           maxItems: nat, replaceSelection: bool)
      returns (r: Repurchased)
      modifies this
      ensures r == Repurchase(old(cart), seen, catalog, lookup, shop, items, maxItems, replaceSelection)
      ensures cart == Apply(old(cart), seen, catalog, DoRepurchase(lookup, shop, items, maxItems, replaceSelection))
    {
      hide Candidates, Results, WriteAll, Skipped, ValidWanted;
      var valid := ParseItems(items, maxItems);
      if !valid { return Declined(Invalid); }
      var results, candidates, failed := PlanItems(catalog, lookup, items);
      var succeeded: nat := 0;
      if |candidates| > 0 {
        if HasSelectedOtherShop(seen, shop) && !replaceSelection { return Declined(ShopConflict); }
        if replaceSelection {
          cart := map k | k in cart :: if cart[k].shop != shop then cart[k].(selected := false) else cart[k];
        }
        succeeded := WriteCandidates(shop, candidates);
      }
      r := Bought(cart, results, succeeded, failed);
    }

    /** Totals over the selected, available rows, in listing order. */
    method CartResponse(catalog: Catalog, rows: seq<nat>)
      returns (totalQuantity: int, totalAmount: int, unavailable: nat)
      requires forall k: nat :: k in rows ==> k in cart
      ensures totalQuantity == SumShown(cart, catalog, rows) && totalAmount == SumAmounts(cart, catalog, rows)
      ensures unavailable == CountUnavailable(cart, catalog, rows)
    {
      totalQuantity, totalAmount, unavailable := 0, 0, 0;
      for i := 0 to |rows|
        invariant totalQuantity == SumShown(cart, catalog, rows[..i])
                  && totalAmount == SumAmounts(cart, catalog, rows[..i])
        invariant unavailable == CountUnavailable(cart, catalog, rows[..i])
      {
        assert rows[..i + 1][..i] == rows[..i] && rows[i] in rows;
        var row := cart[rows[i]];
        var available := Availability(catalog, rows[i], row).None?;
        if !available { unavailable := unavailable + 1; }
        var amount := if rows[i] in catalog.products then row.quantity * catalog.products[rows[i]].price else 0;
        if row.selected && available {
          totalQuantity := totalQuantity + row.quantity;
          totalAmount := totalAmount + amount;
        }
      }
      assert rows[..|rows|] == rows;
    }
  }

  lemma PlanSkips(cart: Cart, catalog: Catalog, lookup: map<nat, nat>, w: Wanted)
    ensures Plan(cart, catalog, lookup, w).0.status.SkippedItem? <==> Plan(cart, catalog, lookup, w).1.None?
  {
  }

  /** Checks the wanted items one by one with the products seen so far. */
  method ParseItems(values: seq<Wanted>, maxItems: nat) returns (ok: bool)
    ensures ok == ValidWanted(values, maxItems)
  {
    if |values| == 0 || |values| > maxItems { return false; }
    var seen: set<nat> := {};
    for i := 0 to |values|
      invariant seen == set k | 0 <= k < i :: values[k].product
      invariant forall k :: 0 <= k < i ==> values[k].product > 0 && 1 <= values[k].quantity <= LIMIT
      invariant forall j, k :: 0 <= j < k < i ==> values[j].product != values[k].product
    {
      var value := values[i];
      if value.product == 0 || value.quantity < 1 || value.quantity > LIMIT { return false; }
      if value.product in seen { return false; }
      seen := seen + {value.product};
    }
    return true;
  }
}
