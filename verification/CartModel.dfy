/** One customer's cart: selected items belong to one shop, quantities stay within 1..99, and repurchasing twice is
    repurchasing once. A cart row is identified by its shop product; a shop product never moves to another shop. */
module CartModel {
  import opened Machine

  const LIMIT: int := 99

  datatype Product = Product(shop: nat, product: nat, onSale: bool, stock: int, price: int)

  /** What the shops sell at the moment: products by shop product, and the shops that are open. */
  datatype Catalog = Catalog(products: map<nat, Product>, open: set<nat>)

  datatype Item = Item(shop: nat, quantity: int, selected: bool)

  type Cart = map<nat, Item>

  datatype Error = Invalid | NotFound | NotOnSale | ShopClosed | StockNotEnough | QuantityLimit | ShopConflict

  datatype Outcome = Accepted(cart: Cart) | Refused(error: Error)

  // ----- checks

  function Validate(catalog: Catalog, p: Product, quantity: int): Option<Error> {
    if p.shop !in catalog.open then Some(ShopClosed)
    else if !p.onSale then Some(NotOnSale)
    else if p.stock < quantity then Some(StockNotEnough)
    else None
  }

  function Availability(catalog: Catalog, shopProduct: nat, item: Item): Option<Error> {
    if item.shop !in catalog.open then Some(ShopClosed)
    else if shopProduct !in catalog.products then Some(NotOnSale)
    else Validate(catalog, catalog.products[shopProduct].(shop := item.shop), item.quantity)
  }

  predicate HasSelectedOtherShop(cart: Cart, shop: nat) {
    exists k :: k in cart && cart[k].selected && cart[k].shop != shop
  }

  // ----- mutations
  // `cart` is the locked, current cart; `seen` is the snapshot the transaction took before it got the cart's lock.

  function AddItem(cart: Cart, seen: Cart, catalog: Catalog, shopProduct: nat, quantity: int): Outcome {
    if !(1 <= quantity <= LIMIT) then Refused(Invalid)
    else if shopProduct !in catalog.products then Refused(NotOnSale)
    else
      var p := catalog.products[shopProduct];
      var current := if shopProduct in cart then cart[shopProduct].quantity else 0;
      var invalid := Validate(catalog, p, current + quantity);
      if current + quantity > LIMIT then Refused(QuantityLimit)
      else if invalid.Some? then Refused(invalid.value)
      else if HasSelectedOtherShop(seen, p.shop) then Refused(ShopConflict)
      else Accepted(cart[shopProduct :=
             if shopProduct in cart
               then cart[shopProduct].(quantity := Min(current + quantity, LIMIT), selected := true)
             else Item(p.shop, quantity, true)])
  }

  function UpdateItem(cart: Cart, catalog: Catalog, shopProduct: nat, quantity: int): Outcome {
    if !(1 <= quantity <= LIMIT) then Refused(Invalid)
    else if shopProduct !in cart then Refused(NotFound)
    else if shopProduct !in catalog.products then Refused(NotOnSale)
    else
      var invalid := Validate(catalog, catalog.products[shopProduct], quantity);
      if invalid.Some? then Refused(invalid.value)
      else Accepted(cart[shopProduct := cart[shopProduct].(quantity := quantity)])
  }

  function DeleteItem(cart: Cart, shopProduct: nat): Outcome {
    if shopProduct !in cart then Refused(NotFound) else Accepted(cart - {shopProduct})
  }

  function ClearItems(cart: Cart, shop: Option<nat>): Outcome {
    Accepted(map k | k in cart && shop.Some? && cart[k].shop != shop.value :: cart[k])
  }

  /** The row is written first; a check that fails afterwards rolls it back. The listing shows the row just written
      and otherwise the snapshot. */
  function SelectItem(cart: Cart, seen: Cart, catalog: Catalog, shopProduct: nat, selected: bool): Outcome {
    if shopProduct !in cart then Refused(NotFound)
    else
      var cart' := cart[shopProduct := cart[shopProduct].(selected := selected)];
      if !selected then Accepted(cart')
      else
        var unavailable := Availability(catalog, shopProduct, cart'[shopProduct]);
        if unavailable.Some? then Refused(unavailable.value)
        else if HasSelectedOtherShop(seen[shopProduct := cart'[shopProduct]], cart'[shopProduct].shop)
          then Refused(ShopConflict)
        else Accepted(cart')
  }

  /** The reason the first unavailable row of the shop is unavailable, in listing order. */
  function FirstUnavailable(seen: Cart, catalog: Catalog, shop: nat, listing: seq<nat>): Option<Error> {
    if listing == [] then None
    else
      var k := listing[0];
      if k in seen && seen[k].shop == shop && Availability(catalog, k, seen[k]).Some?
        then Availability(catalog, k, seen[k])
      else FirstUnavailable(seen, catalog, shop, listing[1..])
  }

  function SetShop(cart: Cart, shop: nat, selected: bool): Cart {
    map k | k in cart :: if cart[k].shop == shop then cart[k].(selected := selected) else cart[k]
  }

  function SelectShop(cart: Cart, seen: Cart, catalog: Catalog, shop: nat, selected: bool, listing: seq<nat>): Outcome {
    if !selected then Accepted(SetShop(cart, shop, false))
    else if HasSelectedOtherShop(seen, shop) then Refused(ShopConflict)
    else
      var unavailable := FirstUnavailable(seen, catalog, shop, listing);
      if unavailable.Some? then Refused(unavailable.value) else Accepted(SetShop(cart, shop, true))
  }

  // ----- repurchase

  datatype Wanted = Wanted(product: nat, quantity: int)

  datatype ResultStatus = Added | Updated | Unchanged | SkippedItem(error: Error)

  datatype ItemResult = ItemResult(product: nat, requested: int, status: ResultStatus, cartQuantity: int)

  datatype Candidate = Candidate(shopProduct: nat, target: int)

  predicate ValidWanted(items: seq<Wanted>, maxItems: nat) {
    && 1 <= |items| <= maxItems
    && (forall i :: 0 <= i < |items| ==> items[i].product > 0 && 1 <= items[i].quantity <= LIMIT)
    && (forall i, j :: 0 <= i < j < |items| ==> items[i].product != items[j].product)
  }

  /** The shop's row of a product, if it sells it. */
  ghost predicate Sells(catalog: Catalog, shop: nat, product: nat, shopProduct: nat) {
    shopProduct in catalog.products && catalog.products[shopProduct].shop == shop
        && catalog.products[shopProduct].product == product
  }

  /** `lookup` is the query for the shop's rows by product. */
  ghost predicate LooksUp(lookup: map<nat, nat>, catalog: Catalog, shop: nat) {
    forall p :: p in lookup ==> Sells(catalog, shop, p, lookup[p])
  }

  function CurrentQuantity(cart: Cart, shopProduct: nat): int {
    if shopProduct in cart then cart[shopProduct].quantity else 0
  }

  function Target(cart: Cart, shopProduct: nat, quantity: int): int {
    if CurrentQuantity(cart, shopProduct) > quantity then CurrentQuantity(cart, shopProduct) else quantity
  }

  /** What happens to one wanted item: its result and, unless it is skipped, the row to write. */
  function Plan(cart: Cart, catalog: Catalog, lookup: map<nat, nat>, w: Wanted): (ItemResult, Option<Candidate>) {
    if w.product !in lookup || lookup[w.product] !in catalog.products then
      (ItemResult(w.product, w.quantity, SkippedItem(NotFound), 0), None)
    else
      var sp := lookup[w.product];
      var p, current, target := catalog.products[sp], CurrentQuantity(cart, sp), Target(cart, sp, w.quantity);
      var unsellable, short := Validate(catalog, p, 1), Validate(catalog, p, target);
      if unsellable.Some? then (ItemResult(w.product, w.quantity, SkippedItem(unsellable.value), 0), None)
      else if short.Some? then (ItemResult(w.product, w.quantity, SkippedItem(short.value), current), None)
      else
        var status := if sp !in cart then Added else if target > current || !cart[sp].selected then Updated
            else Unchanged;
        (ItemResult(w.product, w.quantity, status, target), Some(Candidate(sp, target)))
  }

  function Results(cart: Cart, catalog: Catalog, lookup: map<nat, nat>, items: seq<Wanted>): (r: seq<ItemResult>)
    ensures |r| == |items|
  {
    seq(|items|, i requires 0 <= i < |items| => Plan(cart, catalog, lookup, items[i]).0)
  }

  function Candidates(cart: Cart, catalog: Catalog, lookup: map<nat, nat>, items: seq<Wanted>): seq<Candidate> {
    if items == [] then []
    else
      var last := Plan(cart, catalog, lookup, items[|items| - 1]).1;
      Candidates(cart, catalog, lookup, items[..|items| - 1]) + if last.Some? then [last.value] else []
  }

  function DeselectOtherShops(cart: Cart, shop: nat): Cart {
    map k | k in cart :: if cart[k].shop != shop then cart[k].(selected := false) else cart[k]
  }

  function WriteOne(cart: Cart, shop: nat, c: Candidate): Cart {
    cart[c.shopProduct := if c.shopProduct in cart then cart[c.shopProduct].(quantity := c.target, selected := true)
                          else Item(shop, c.target, true)]
  }

  function WriteAll(cart: Cart, shop: nat, candidates: seq<Candidate>): Cart {
    if candidates == [] then cart
    else WriteOne(WriteAll(cart, shop, candidates[..|candidates| - 1]), shop, candidates[|candidates| - 1])
  }

  datatype Repurchased = Bought(cart: Cart, results: seq<ItemResult>, succeeded: nat, failed: nat)
      | Declined(error: Error)

  function Repurchase(cart: Cart, seen: Cart, catalog: Catalog, lookup: map<nat, nat>, shop: nat, items: seq<Wanted>,
                      maxItems: nat, replaceSelection: bool): Repurchased {
    if !ValidWanted(items, maxItems) then Declined(Invalid)
    else
      var candidates := Candidates(cart, catalog, lookup, items);
      var results := Results(cart, catalog, lookup, items);
      if candidates == [] then Bought(cart, results, 0, Skipped(results))
      else if HasSelectedOtherShop(seen, shop) && !replaceSelection then Declined(ShopConflict)
      else
        Bought(WriteAll(if replaceSelection then DeselectOtherShops(cart, shop) else cart, shop, candidates),
               results, |candidates|, Skipped(results))
  }

  function Skipped(results: seq<ItemResult>): nat {
    if results == [] then 0
    else Skipped(results[..|results| - 1]) + if results[|results| - 1].status.SkippedItem? then 1 else 0
  }

  // ----- the invariant

  /** Quantities are within the limit, and rows carry their shop product's shop. */
  predicate RowsOk(cart: Cart, shopOf: map<nat, nat>) {
    forall k :: k in cart ==> k in shopOf && cart[k].shop == shopOf[k] && 1 <= cart[k].quantity <= LIMIT
  }

  /** Selected items belong to one shop. */
  predicate OneShop(cart: Cart) {
    forall j, k :: j in cart && k in cart && cart[j].selected && cart[k].selected ==> cart[j].shop == cart[k].shop
  }

  predicate CartOk(cart: Cart, shopOf: map<nat, nat>) { RowsOk(cart, shopOf) && OneShop(cart) }

  /** The catalog may change in anything but where a shop product belongs. */
  predicate Placed(catalog: Catalog, shopOf: map<nat, nat>) {
    forall k :: k in catalog.products ==> k in shopOf && catalog.products[k].shop == shopOf[k]
  }

  datatype Command =
    | DoAdd(shopProduct: nat, quantity: int)
    | DoUpdate(shopProduct: nat, quantity: int)
    | DoDelete(shopProduct: nat)
    | DoClear(only: Option<nat>)
    | DoSelectItem(shopProduct: nat, selected: bool)
    | DoSelectShop(shop: nat, selected: bool, listing: seq<nat>)
    | DoRepurchase(lookup: map<nat, nat>, shop: nat, items: seq<Wanted>, maxItems: nat, replaceSelection: bool)

  function Apply(cart: Cart, seen: Cart, catalog: Catalog, cmd: Command): Cart {
    match cmd
    case DoAdd(k, q) => Keep(cart, AddItem(cart, seen, catalog, k, q))
    case DoUpdate(k, q) => Keep(cart, UpdateItem(cart, catalog, k, q))
    case DoDelete(k) => Keep(cart, DeleteItem(cart, k))
    case DoClear(shop) => Keep(cart, ClearItems(cart, shop))
    case DoSelectItem(k, selected) => Keep(cart, SelectItem(cart, seen, catalog, k, selected))
    case DoSelectShop(shop, selected, listing) => Keep(cart, SelectShop(cart, seen, catalog, shop, selected, listing))
    case DoRepurchase(lookup, shop, items, maxItems, replaceSelection) =>
      (match Repurchase(cart, seen, catalog, lookup, shop, items, maxItems, replaceSelection)
       case Bought(cart', _, _, _) => cart'
       case Declined(_) => cart)
  }

  function Keep(cart: Cart, o: Outcome): Cart {
    match o
    case Accepted(cart') => cart'
    case Refused(_) => cart
  }

  lemma {:induction false} CandidatesFit(cart: Cart, catalog: Catalog, lookup: map<nat, nat>, shop: nat,
                                         items: seq<Wanted>, shopOf: map<nat, nat>)
    requires RowsOk(cart, shopOf) && Placed(catalog, shopOf) && LooksUp(lookup, catalog, shop)
    requires forall i :: 0 <= i < |items| ==> 1 <= items[i].quantity <= LIMIT
    ensures forall i :: 0 <= i < |Candidates(cart, catalog, lookup, items)| ==>
              var c := Candidates(cart, catalog, lookup, items)[i];
              c.shopProduct in shopOf && shopOf[c.shopProduct] == shop && 1 <= c.target <= LIMIT
  {
    if items != [] {
      CandidatesFit(cart, catalog, lookup, shop, items[..|items| - 1], shopOf);
    }
  }

  /** Writing the candidates selects rows of the one shop and touches no other shop's rows. */
  lemma {:induction false} WritesKeep(cart: Cart, shop: nat, candidates: seq<Candidate>, shopOf: map<nat, nat>)
    requires RowsOk(cart, shopOf)
    requires forall i :: 0 <= i < |candidates| ==>
               candidates[i].shopProduct in shopOf && shopOf[candidates[i].shopProduct] == shop
                   && 1 <= candidates[i].target <= LIMIT
    ensures var r := WriteAll(cart, shop, candidates);
            && RowsOk(r, shopOf) && (HasSelectedOtherShop(r, shop) <==> HasSelectedOtherShop(cart, shop))
            && (candidates != [] ==> exists k :: k in r && r[k].selected && r[k].shop == shop)
  {
    if candidates != [] {
      var n := |candidates| - 1;
      WritesKeep(cart, shop, candidates[..n], shopOf);
      var mid, r := WriteAll(cart, shop, candidates[..n]), WriteAll(cart, shop, candidates);
      assert r[candidates[n].shopProduct].selected && r[candidates[n].shopProduct].shop == shop;
      if k :| k in mid && mid[k].selected && mid[k].shop != shop { assert k in r && r[k] == mid[k]; }
      if k :| k in r && r[k].selected && r[k].shop != shop { assert k in mid && r[k] == mid[k]; }
    }
  }

  lemma OneShopBy(cart: Cart, shop: nat)
    requires exists k :: k in cart && cart[k].selected && cart[k].shop == shop
    ensures OneShop(cart) <==> !HasSelectedOtherShop(cart, shop)
  {
    var k :| k in cart && cart[k].selected && cart[k].shop == shop;
    if j :| j in cart && cart[j].selected && cart[j].shop != shop { assert !OneShop(cart); }
  }

  lemma DeselectedOk(cart: Cart, shop: nat, shopOf: map<nat, nat>)
    requires RowsOk(cart, shopOf)
    ensures RowsOk(DeselectOtherShops(cart, shop), shopOf)
            && !HasSelectedOtherShop(DeselectOtherShops(cart, shop), shop)
    ensures forall k: nat :: CurrentQuantity(DeselectOtherShops(cart, shop), k) == CurrentQuantity(cart, k)
  {
  }

  // ----- exactly when the selection stays in one shop

  /** What the mutation checks on its snapshot also holds of the current cart. */
  predicate PassesNow(cart: Cart, seen: Cart, catalog: Catalog, cmd: Command) {
    match cmd
    case DoAdd(k, q) =>
      AddItem(cart, seen, catalog, k, q).Accepted? && k in catalog.products ==>
            !HasSelectedOtherShop(cart, catalog.products[k].shop)
    case DoSelectItem(k, selected) =>
      selected && k in cart && SelectItem(cart, seen, catalog, k, selected).Accepted? ==>
            !HasSelectedOtherShop(cart, cart[k].shop)
    case DoSelectShop(shop, selected, listing) =>
      (selected && SelectShop(cart, seen, catalog, shop, selected, listing).Accepted?
       && exists k :: k in cart && cart[k].shop == shop)
      ==> !HasSelectedOtherShop(cart, shop)
    case DoRepurchase(lookup, shop, items, maxItems, replaceSelection) =>
      (!replaceSelection && Repurchase(cart, seen, catalog, lookup, shop, items, maxItems, replaceSelection).Bought?
       && Candidates(cart, catalog, lookup, items) != []) ==> !HasSelectedOtherShop(cart, shop)
    case _ => true
  }

  lemma AddExactly(cart: Cart, seen: Cart, catalog: Catalog, k: nat, quantity: int, shopOf: map<nat, nat>)
    requires CartOk(cart, shopOf) && Placed(catalog, shopOf) && AddItem(cart, seen, catalog, k, quantity).Accepted?
    ensures var cart' := AddItem(cart, seen, catalog, k, quantity).cart;
            OneShop(cart') <==> !HasSelectedOtherShop(cart, catalog.products[k].shop)
  {
    var cart', shop := AddItem(cart, seen, catalog, k, quantity).cart, catalog.products[k].shop;
    assert cart'[k].selected && cart'[k].shop == shop;
    OneShopBy(cart', shop);
    hide AddItem, OneShop;
    if j :| j in cart && cart[j].selected && cart[j].shop != shop { assert j in cart' && cart'[j] == cart[j]; }
    if j :| j in cart' && cart'[j].selected && cart'[j].shop != shop { assert j in cart && cart'[j] == cart[j]; }
  }

  lemma SelectItemExactly(cart: Cart, seen: Cart, catalog: Catalog, k: nat, shopOf: map<nat, nat>)
    requires CartOk(cart, shopOf) && SelectItem(cart, seen, catalog, k, true).Accepted?
    ensures OneShop(SelectItem(cart, seen, catalog, k, true).cart) <==> !HasSelectedOtherShop(cart, cart[k].shop)
  {
    var cart', shop := cart[k := cart[k].(selected := true)], cart[k].shop;
    assert SelectItem(cart, seen, catalog, k, true).cart == cart';
    OneShopBy(cart', shop);
    hide SelectItem, OneShop;
    if j :| j in cart && cart[j].selected && cart[j].shop != shop { assert j in cart' && cart'[j] == cart[j]; }
    if j :| j in cart' && cart'[j].selected && cart'[j].shop != shop { assert j in cart && cart'[j] == cart[j]; }
  }

  lemma SelectShopExactly(cart: Cart, shop: nat, shopOf: map<nat, nat>)
    requires CartOk(cart, shopOf)
    ensures OneShop(SetShop(cart, shop, true))
            <==> ((exists k :: k in cart && cart[k].shop == shop) ==> !HasSelectedOtherShop(cart, shop))
  {
    var cart' := SetShop(cart, shop, true);
    if k :| k in cart && cart[k].shop == shop {
      assert k in cart' && cart'[k].selected && cart'[k].shop == shop;
      OneShopBy(cart', shop);
      if j :| j in cart && cart[j].selected && cart[j].shop != shop { assert j in cart' && cart'[j] == cart[j]; }
      if j :| j in cart' && cart'[j].selected && cart'[j].shop != shop { assert j in cart && cart'[j] == cart[j]; }
    } else {
      assert cart' == cart;
    }
  }

  lemma RepurchaseKeeps(cart: Cart, seen: Cart, catalog: Catalog, lookup: map<nat, nat>, shop: nat, items: seq<Wanted>,
                        maxItems: nat,
                        replaceSelection: bool, shopOf: map<nat, nat>)
    requires RowsOk(cart, shopOf) && Placed(catalog, shopOf) && LooksUp(lookup, catalog, shop)
    requires Repurchase(cart, seen, catalog, lookup, shop, items, maxItems, replaceSelection).Bought?
    ensures var cart' := Repurchase(cart, seen, catalog, lookup, shop, items, maxItems, replaceSelection).cart;
            && RowsOk(cart', shopOf)
            && (OneShop(cart) ==>
                  (OneShop(cart')
                   <==> (!replaceSelection && Candidates(cart, catalog, lookup, items) != [] ==>
                         !HasSelectedOtherShop(cart, shop))))
  {
    hide CartOk, Plan, LooksUp, Placed, WriteAll, DeselectOtherShops, Candidates, OneShop, HasSelectedOtherShop;
    var candidates := Candidates(cart, catalog, lookup, items);
    var mid := if replaceSelection then DeselectOtherShops(cart, shop) else cart;
    CandidatesFit(cart, catalog, lookup, shop, items, shopOf);
    DeselectedOk(cart, shop, shopOf);
    WritesKeep(mid, shop, candidates, shopOf);
    if candidates != [] { OneShopBy(WriteAll(mid, shop, candidates), shop); }
  }

  /** Quantities stay within 1..99 whatever snapshot a mutation is checked against. */
  lemma StepKeepsRows(cart: Cart, seen: Cart, catalog: Catalog, cmd: Command, shopOf: map<nat, nat>)
    requires RowsOk(cart, shopOf) && Placed(catalog, shopOf)
    requires cmd.DoRepurchase? ==> LooksUp(cmd.lookup, catalog, cmd.shop)
    ensures RowsOk(Apply(cart, seen, catalog, cmd), shopOf)
  {
    hide HasSelectedOtherShop, FirstUnavailable, Availability, LooksUp, Repurchase;
    if cmd.DoRepurchase?
        && Repurchase(cart, seen, catalog, cmd.lookup, cmd.shop, cmd.items, cmd.maxItems,
                      cmd.replaceSelection).Bought? {
      RepurchaseKeeps(cart, seen, catalog, cmd.lookup, cmd.shop, cmd.items, cmd.maxItems, cmd.replaceSelection, shopOf);
    }
  }

  /** The selection stays in one shop exactly when the mutation's check also holds of the current cart. */
  lemma StepKeepsOneShop(cart: Cart, seen: Cart, catalog: Catalog, cmd: Command, shopOf: map<nat, nat>)
    requires CartOk(cart, shopOf) && Placed(catalog, shopOf)
    requires cmd.DoRepurchase? ==> LooksUp(cmd.lookup, catalog, cmd.shop)
    ensures OneShop(Apply(cart, seen, catalog, cmd)) <==> PassesNow(cart, seen, catalog, cmd)
  {
    match cmd
    case DoAdd(k, q) =>
      if AddItem(cart, seen, catalog, k, q).Accepted? { AddExactly(cart, seen, catalog, k, q, shopOf); }
      hide OneShop, HasSelectedOtherShop;
    case DoUpdate(_, _) => hide Validate;
    case DoDelete(_) =>
    case DoClear(_) =>
    case DoSelectItem(k, selected) =>
      if selected {
        if SelectItem(cart, seen, catalog, k, true).Accepted? { SelectItemExactly(cart, seen, catalog, k, shopOf); }
        hide OneShop, HasSelectedOtherShop;
      }
    case DoSelectShop(shop, selected, listing) =>
      SelectShopExactly(cart, shop, shopOf);
      hide FirstUnavailable, HasSelectedOtherShop;
    case DoRepurchase(lookup, shop, items, maxItems, replaceSelection) =>
      hide OneShop, HasSelectedOtherShop, Repurchase;
      if Repurchase(cart, seen, catalog, lookup, shop, items, maxItems, replaceSelection).Bought? {
        RepurchaseKeeps(cart, seen, catalog, lookup, shop, items, maxItems, replaceSelection, shopOf);
      }
  }

  // ----- repurchase: counts and idempotence

  lemma {:induction false} CandidatesCounted(cart: Cart, catalog: Catalog, lookup: map<nat, nat>, items: seq<Wanted>)
    ensures |Candidates(cart, catalog, lookup, items)| + Skipped(Results(cart, catalog, lookup, items)) == |items|
  {
    if items != [] {
      var n := |items| - 1;
      CandidatesCounted(cart, catalog, lookup, items[..n]);
      assert Results(cart, catalog, lookup, items)[..n] == Results(cart, catalog, lookup, items[..n]);
    }
  }

  /** Every wanted item either succeeds or fails. */
  lemma RepurchaseCounts(cart: Cart, seen: Cart, catalog: Catalog, lookup: map<nat, nat>, shop: nat, items: seq<Wanted>,
                         maxItems: nat, replaceSelection: bool)
    ensures var r := Repurchase(cart, seen, catalog, lookup, shop, items, maxItems, replaceSelection);
            r.Bought? ==> r.succeeded + r.failed == |items|
  {
    CandidatesCounted(cart, catalog, lookup, items);
  }

  predicate Named(candidates: seq<Candidate>, shopProduct: nat) {
    exists i :: 0 <= i < |candidates| && candidates[i].shopProduct == shopProduct
  }

  predicate DistinctRows(candidates: seq<Candidate>) {
    forall i, j :: 0 <= i < j < |candidates| ==> candidates[i].shopProduct != candidates[j].shopProduct
  }

  /** The row written for a wanted item, if it is not skipped. */
  function Planned(cart: Cart, catalog: Catalog, lookup: map<nat, nat>, w: Wanted): Option<Candidate> {
    Plan(cart, catalog, lookup, w).1
  }

  lemma PlannedRow(cart: Cart, catalog: Catalog, lookup: map<nat, nat>, w: Wanted)
    ensures Planned(cart, catalog, lookup, w).Some? ==>
              w.product in lookup && Planned(cart, catalog, lookup, w).value.shopProduct == lookup[w.product]
  {
  }

  predicate FromItem(cart: Cart, catalog: Catalog, lookup: map<nat, nat>, items: seq<Wanted>, c: Candidate) {
    exists i :: 0 <= i < |items| && Planned(cart, catalog, lookup, items[i]) == Some(c)
  }

  predicate AllFromItems(cart: Cart, catalog: Catalog, lookup: map<nat, nat>, items: seq<Wanted>, cs: seq<Candidate>) {
    forall k :: 0 <= k < |cs| ==> FromItem(cart, catalog, lookup, items, cs[k])
  }

  /** Rows planned for different products are different. */
  lemma DifferentRows(cart: Cart, catalog: Catalog, lookup: map<nat, nat>, shop: nat, v: Wanted, w: Wanted)
    requires LooksUp(lookup, catalog, shop) && v.product != w.product && v.product in lookup && w.product in lookup
    ensures lookup[v.product] != lookup[w.product]
  {
    assert Sells(catalog, shop, v.product, lookup[v.product]) && Sells(catalog, shop, w.product, lookup[w.product]);
  }

  lemma {:induction false} CandidatesAreFromItems(cart: Cart, catalog: Catalog, lookup: map<nat, nat>,
                                                  items: seq<Wanted>)
    ensures var cs := Candidates(cart, catalog, lookup, items);
            && AllFromItems(cart, catalog, lookup, items, cs)
            && (forall i :: 0 <= i < |items| && Planned(cart, catalog, lookup, items[i]).Some? ==>
                Planned(cart, catalog, lookup, items[i]).value in cs)
  {
    if items != [] {
      hide Plan;
      var n := |items| - 1;
      CandidatesAreFromItems(cart, catalog, lookup, items[..n]);
      var so, cs := Candidates(cart, catalog, lookup, items[..n]), Candidates(cart, catalog, lookup, items);
      forall k | 0 <= k < |cs| ensures FromItem(cart, catalog, lookup, items, cs[k]) {
        if k < |so| {
          assert cs[k] == so[k] && AllFromItems(cart, catalog, lookup, items[..n], so);
          assert FromItem(cart, catalog, lookup, items[..n], so[k]);
          var i :| 0 <= i < n && Planned(cart, catalog, lookup, items[..n][i]) == Some(so[k]);
          assert items[i] == items[..n][i];
        } else {
          assert Planned(cart, catalog, lookup, items[n]) == Some(cs[k]);
        }
      }
      forall i | 0 <= i < |items| && Planned(cart, catalog, lookup, items[i]).Some?
        ensures Planned(cart, catalog, lookup, items[i]).value in cs
      {
        if i < n { assert items[..n][i] == items[i]; }
      }
    }
  }

  /** The candidates of different products are different rows. */
  lemma {:induction false} CandidatesDiffer(cart: Cart, catalog: Catalog, lookup: map<nat, nat>, shop: nat,
                                            items: seq<Wanted>)
    requires LooksUp(lookup, catalog, shop) && forall i, j :: 0 <= i < j < |items| ==>
               items[i].product != items[j].product
    ensures DistinctRows(Candidates(cart, catalog, lookup, items))
  {
    if items != [] {
      hide Plan, LooksUp;
      var n := |items| - 1;
      CandidatesDiffer(cart, catalog, lookup, shop, items[..n]);
      CandidatesAreFromItems(cart, catalog, lookup, items[..n]);
      var so, last := Candidates(cart, catalog, lookup, items[..n]), Planned(cart, catalog, lookup, items[n]);
      forall k | 0 <= k < |so| && last.Some? ensures so[k].shopProduct != last.value.shopProduct {
        assert FromItem(cart, catalog, lookup, items[..n], so[k]);
        var i :| 0 <= i < n && Planned(cart, catalog, lookup, items[..n][i]) == Some(so[k]);
        assert items[..n][i] == items[i];
        PlannedRow(cart, catalog, lookup, items[i]);
        PlannedRow(cart, catalog, lookup, items[n]);
        DifferentRows(cart, catalog, lookup, shop, items[i], items[n]);
      }
    }
  }

  lemma NamedSnoc(candidates: seq<Candidate>, k: nat)
    requires candidates != []
    ensures var n := |candidates| - 1;
            Named(candidates, k) <==> Named(candidates[..n], k) || k == candidates[n].shopProduct
  {
    var n := |candidates| - 1;
    var so := candidates[..n];
    if i :| 0 <= i < n && so[i].shopProduct == k { assert candidates[i].shopProduct == k; }
    if i :| 0 <= i < |candidates| && candidates[i].shopProduct == k && i < n { assert so[i].shopProduct == k; }
  }

  ghost predicate Wrote(cart: Cart, r: Cart, candidates: seq<Candidate>) {
    && (forall k: nat :: k in r <==> k in cart || Named(candidates, k))
    && (forall k: nat :: k in cart && !Named(candidates, k) ==> r[k] == cart[k])
    && (forall i :: 0 <= i < |candidates| ==> Holds(r, candidates[i]))
  }

  predicate Holds(cart: Cart, c: Candidate) {
    c.shopProduct in cart && cart[c.shopProduct].quantity == c.target && cart[c.shopProduct].selected
  }

  lemma {:induction false} WriteAllEffect(cart: Cart, shop: nat, candidates: seq<Candidate>)
    requires DistinctRows(candidates)
    ensures Wrote(cart, WriteAll(cart, shop, candidates), candidates)
  {
    if candidates != [] {
      var n := |candidates| - 1;
      var so := candidates[..n];
      WriteAllEffect(cart, shop, so);
      var r, mid := WriteAll(cart, shop, candidates), WriteAll(cart, shop, so);
      assert r == WriteOne(mid, shop, candidates[n]);
      forall k: nat ensures Named(candidates, k) <==> Named(so, k) || k == candidates[n].shopProduct {
        NamedSnoc(candidates, k);
      }
      hide WriteAll, Named;
      forall i | 0 <= i < |candidates| ensures Holds(r, candidates[i]) {
        if i < n { assert so[i] == candidates[i] && Holds(mid, so[i]); }
      }
    }
  }

  lemma {:induction false} WriteAgain(cart: Cart, shop: nat, candidates: seq<Candidate>)
    requires forall i :: 0 <= i < |candidates| ==> Holds(cart, candidates[i])
    ensures WriteAll(cart, shop, candidates) == cart
  {
    if candidates != [] {
      WriteAgain(cart, shop, candidates[..|candidates| - 1]);
    }
  }

  lemma {:induction false} SamePlans(cart: Cart, again: Cart, catalog: Catalog, lookup: map<nat, nat>,
                                     items: seq<Wanted>)
    requires forall i :: 0 <= i < |items| ==>
               Planned(again, catalog, lookup, items[i]) == Planned(cart, catalog, lookup, items[i])
    ensures Candidates(again, catalog, lookup, items) == Candidates(cart, catalog, lookup, items)
  {
    if items != [] {
      hide Plan;
      var n := |items| - 1;
      assert forall i :: 0 <= i < n ==> items[..n][i] == items[i];
      SamePlans(cart, again, catalog, lookup, items[..n]);
    }
  }

  /** A row is planned as before when it holds its target already, or when its quantity has not changed. */
  lemma PlanRepeats(cart: Cart, again: Cart, catalog: Catalog, lookup: map<nat, nat>, w: Wanted)
    requires w.product in lookup ==>
               var sp := lookup[w.product];
               var plan := Planned(cart, catalog, lookup, w);
               CurrentQuantity(again, sp) == if plan.Some? then plan.value.target else CurrentQuantity(cart, sp)
    ensures Planned(again, catalog, lookup, w) == Planned(cart, catalog, lookup, w)
  {
  }

  /** After the writes every wanted item is planned as before. */
  lemma PlansRepeat(cart: Cart, mid: Cart, catalog: Catalog, lookup: map<nat, nat>, shop: nat, items: seq<Wanted>,
                    i: nat)
    requires LooksUp(lookup, catalog, shop) && forall j, k :: 0 <= j < k < |items| ==>
               items[j].product != items[k].product
    requires i < |items| && forall k: nat :: CurrentQuantity(mid, k) == CurrentQuantity(cart, k)
    ensures var again := WriteAll(mid, shop, Candidates(cart, catalog, lookup, items));
            Planned(again, catalog, lookup, items[i]) == Planned(cart, catalog, lookup, items[i])
  {
    hide Plan, LooksUp, WriteAll;
    var cs := Candidates(cart, catalog, lookup, items);
    CandidatesAreFromItems(cart, catalog, lookup, items);
    CandidatesDiffer(cart, catalog, lookup, shop, items);
    WriteAllEffect(mid, shop, cs);
    PlannedRow(cart, catalog, lookup, items[i]);
    var plan := Planned(cart, catalog, lookup, items[i]);
    var again := WriteAll(mid, shop, cs);
    if plan.Some? {
      var k :| 0 <= k < |cs| && cs[k] == plan.value;
      assert CurrentQuantity(again, cs[k].shopProduct) == cs[k].target;
    } else if items[i].product in lookup {
      var sp := lookup[items[i].product];
      forall k | 0 <= k < |cs| ensures cs[k].shopProduct != sp {
        assert FromItem(cart, catalog, lookup, items, cs[k]);
        var j :| 0 <= j < |items| && Planned(cart, catalog, lookup, items[j]) == Some(cs[k]);
        PlannedRow(cart, catalog, lookup, items[j]);
        DifferentRows(cart, catalog, lookup, shop, items[j], items[i]);
      }
      assert !Named(cs, sp);
      assert CurrentQuantity(again, sp) == CurrentQuantity(mid, sp);
    }
    PlanRepeats(cart, again, catalog, lookup, items[i]);
  }

  lemma NothingToDeselect(cart: Cart, shop: nat)
    requires !HasSelectedOtherShop(cart, shop)
    ensures DeselectOtherShops(cart, shop) == cart
  {
  }

  /** Repeating a repurchase with the same catalog changes nothing and counts the same. */
  lemma RepurchaseTwice(cart: Cart, catalog: Catalog, lookup: map<nat, nat>, shop: nat, items: seq<Wanted>,
                        maxItems: nat,
                        replaceSelection: bool, shopOf: map<nat, nat>)
    requires CartOk(cart, shopOf) && Placed(catalog, shopOf) && LooksUp(lookup, catalog, shop)
    requires Repurchase(cart, cart, catalog, lookup, shop, items, maxItems, replaceSelection).Bought?
    ensures var r := Repurchase(cart, cart, catalog, lookup, shop, items, maxItems, replaceSelection);
            var again := Repurchase(r.cart, r.cart, catalog, lookup, shop, items, maxItems, replaceSelection);
            again.Bought? && again.cart == r.cart && again.succeeded == r.succeeded && again.failed == r.failed
  {
    hide Candidates, Plan, RowsOk, OneShop, LooksUp, Placed, WriteAll, DeselectOtherShops, HasSelectedOtherShop;
    var cs := Candidates(cart, catalog, lookup, items);
    if cs != [] {
      var mid := if replaceSelection then DeselectOtherShops(cart, shop) else cart;
      var bought := WriteAll(mid, shop, cs);
      CandidatesFit(cart, catalog, lookup, shop, items, shopOf);
      DeselectedOk(cart, shop, shopOf);
      WritesKeep(mid, shop, cs, shopOf);
      CandidatesDiffer(cart, catalog, lookup, shop, items);
      WriteAllEffect(mid, shop, cs);
      forall i: nat | i < |items|
        ensures Planned(bought, catalog, lookup, items[i]) == Planned(cart, catalog, lookup, items[i])
      {
        PlansRepeat(cart, mid, catalog, lookup, shop, items, i);
      }
      SamePlans(cart, bought, catalog, lookup, items);
      NothingToDeselect(bought, shop);
      WriteAgain(bought, shop, cs);
      CandidatesCounted(cart, catalog, lookup, items);
      CandidatesCounted(bought, catalog, lookup, items);
    }
  }

  // ----- what every row holds

  /** The quantity a repurchase raises a row to: the largest of its own and those wanted of it. */
  function Raised(cart: Cart, catalog: Catalog, lookup: map<nat, nat>, items: seq<Wanted>, k: nat): int {
    if items == [] then CurrentQuantity(cart, k)
    else
      var n := |items| - 1;
      var so, row := Raised(cart, catalog, lookup, items[..n], k), Planned(cart, catalog, lookup, items[n]);
      if row.Some? && row.value.shopProduct == k && items[n].quantity > so then items[n].quantity else so
  }

  lemma PlannedTarget(cart: Cart, catalog: Catalog, lookup: map<nat, nat>, w: Wanted)
    ensures Planned(cart, catalog, lookup, w).Some? ==>
              Planned(cart, catalog, lookup, w).value.target
              == Target(cart, Planned(cart, catalog, lookup, w).value.shopProduct, w.quantity)
  {
  }

  lemma {:induction false} NotRaised(cart: Cart, catalog: Catalog, lookup: map<nat, nat>, items: seq<Wanted>, k: nat)
    requires forall i :: 0 <= i < |items| ==>
               Planned(cart, catalog, lookup, items[i]).None?
                   || Planned(cart, catalog, lookup, items[i]).value.shopProduct != k
    ensures Raised(cart, catalog, lookup, items, k) == CurrentQuantity(cart, k)
  {
    if items != [] {
      hide Planned;
      var n := |items| - 1;
      assert forall i :: 0 <= i < n ==> items[..n][i] == items[i];
      NotRaised(cart, catalog, lookup, items[..n], k);
    }
  }

  /** The writes leave every row at the quantity it was raised to. */
  lemma {:induction false} WritesRaise(cart: Cart, mid: Cart, catalog: Catalog, lookup: map<nat, nat>, shop: nat,
                                       items: seq<Wanted>, k: nat)
    requires LooksUp(lookup, catalog, shop) && forall i, j :: 0 <= i < j < |items| ==>
               items[i].product != items[j].product
    requires CurrentQuantity(mid, k) == CurrentQuantity(cart, k)
    ensures CurrentQuantity(WriteAll(mid, shop, Candidates(cart, catalog, lookup, items)), k)
            == Raised(cart, catalog, lookup, items, k)
  {
    if items != [] {
      hide Plan, LooksUp, Target;
      var n := |items| - 1;
      WritesRaise(cart, mid, catalog, lookup, shop, items[..n], k);
      var row := Planned(cart, catalog, lookup, items[n]);
      PlannedTarget(cart, catalog, lookup, items[n]);
      OneMoreCandidate(cart, mid, catalog, lookup, shop, items);
      if row.Some? && row.value.shopProduct == k {
        forall i | 0 <= i < n
          ensures Planned(cart, catalog, lookup, items[..n][i]).None?
                  || Planned(cart, catalog, lookup, items[..n][i]).value.shopProduct != k
        {
          PlannedRow(cart, catalog, lookup, items[i]);
          PlannedRow(cart, catalog, lookup, items[n]);
          if Planned(cart, catalog, lookup, items[i]).Some? {
            DifferentRows(cart, catalog, lookup, shop, items[i], items[n]);
          }
        }
        NotRaised(cart, catalog, lookup, items[..n], k);
        TargetIsLarger(cart, k, items[n].quantity);
      }
      hide WriteAll, Candidates, Planned;
    }
  }

  lemma TargetIsLarger(cart: Cart, k: nat, quantity: int)
    ensures Target(cart, k, quantity) == if quantity > CurrentQuantity(cart, k) then quantity
            else CurrentQuantity(cart, k)
  {
  }

  lemma OneMoreCandidate(cart: Cart, mid: Cart, catalog: Catalog, lookup: map<nat, nat>, shop: nat, items: seq<Wanted>)
    requires items != []
    ensures var n := |items| - 1;
            var so := WriteAll(mid, shop, Candidates(cart, catalog, lookup, items[..n]));
            var row := Planned(cart, catalog, lookup, items[n]);
            WriteAll(mid, shop, Candidates(cart, catalog, lookup, items))
                == if row.Some? then WriteOne(so, shop, row.value) else so
  {
    hide Plan;
    var n := |items| - 1;
    var before, row := Candidates(cart, catalog, lookup, items[..n]), Planned(cart, catalog, lookup, items[n]);
    if row.Some? {
      assert (before + [row.value])[..|before|] == before;
    } else {
      assert before + [] == before;
    }
  }

  /** What an accepted command asks of a row that holds `before`: nothing here is capped. */
  function AskedBy(cart: Cart, seen: Cart, catalog: Catalog, cmd: Command, k: nat, before: int): int {
    match cmd
    case DoAdd(j, q) => if j == k && AddItem(cart, seen, catalog, j, q).Accepted? then before + q else before
    case DoUpdate(j, q) => if j == k && UpdateItem(cart, catalog, j, q).Accepted? then q else before
    case DoDelete(j) => if j == k then 0 else before
    case DoClear(shop) => if shop.None? || (k in cart && cart[k].shop == shop.value) then 0 else before
    case DoSelectItem(_, _) => before
    case DoSelectShop(_, _, _) => before
    case DoRepurchase(lookup, shop, items, maxItems, replaceSelection) =>
      if Repurchase(cart, seen, catalog, lookup, shop, items, maxItems, replaceSelection).Bought?
      then Raised(cart, catalog, lookup, items, k) else before
  }

  /** Every command leaves every row with exactly what it asks of it: the upsert's cap truncates nothing. */
  lemma StepHoldsAsked(cart: Cart, seen: Cart, catalog: Catalog, cmd: Command, shopOf: map<nat, nat>, k: nat)
    requires RowsOk(cart, shopOf)
    requires cmd.DoRepurchase? ==> LooksUp(cmd.lookup, catalog, cmd.shop)
    ensures CurrentQuantity(Apply(cart, seen, catalog, cmd), k)
            == AskedBy(cart, seen, catalog, cmd, k, CurrentQuantity(cart, k))
  {
    hide HasSelectedOtherShop, FirstUnavailable, Availability, Validate, LooksUp, Raised, Candidates, WriteAll, Plan;
    match cmd
    case DoRepurchase(lookup, shop, items, maxItems, replaceSelection) =>
      if Repurchase(cart, seen, catalog, lookup, shop, items, maxItems, replaceSelection).Bought? {
        DeselectedOk(cart, shop, shopOf);
        WritesRaise(cart, if replaceSelection then DeselectOtherShops(cart, shop) else cart, catalog, lookup, shop,
                    items, k);
        WritesRaise(cart, cart, catalog, lookup, shop, items, k);
        NoWrites(cart, shop);
      }
    case _ =>
  }

  lemma NoWrites(cart: Cart, shop: nat)
    ensures WriteAll(cart, shop, []) == cart
  {
  }
}
