/** What customers may claim of an order: per-item caps, the delivery fee, and what an appeal does to them. */
module AfterSaleClaims {
  import opened Sums
  import opened Machine
  import opened RefundAllocation
  import opened AfterSaleModel
  import opened AfterSaleRefunds

  // ----- invariant

  predicate DistinctLines(lines: seq<Line>) {
    forall i, j :: 0 <= i < j < |lines| ==> lines[i].item != lines[j].item
  }

  /** A customer's line never asks for more than its proportional part. */
  predicate LineOk(order: Order, l: Line, customer: bool) {
    && l.item < |order.items| && l.quantity >= 1
    && (customer ==> 0 <= l.amount && l.amount * order.items[l.item].quantity <= order.items[l.item].total * l.quantity)
  }

  predicate ClaimOk(order: Order, c: Case) {
    && DistinctLines(c.lines)
    && (forall i :: 0 <= i < |c.lines| ==> LineOk(order, c.lines[i], c.source.None?))
    && (c.source.Some? ==> Active(c) && forall item: nat :: item < |order.items| ==>
        Sum(QuantityOn(item), c.lines) == order.items[item].quantity)
  }

  predicate AllClaimsOk(order: Order, cases: seq<Case>) { forall c :: 0 <= c < |cases| ==> ClaimOk(order, cases[c]) }

  /** Active cases together never claim more pieces of an item than were ordered. */
  predicate QuantitiesCapped(order: Order, cases: seq<Case>) {
    forall item: nat :: item < |order.items| ==> ActiveQuantity(cases, item) <= order.items[item].quantity
  }

  predicate ClaimsFee(c: Case) { c.includeFee && Active(c) }

  predicate FeeOnce(cases: seq<Case>) {
    forall c, d :: 0 <= c < d < |cases| ==> !(ClaimsFee(cases[c]) && ClaimsFee(cases[d]))
  }

  predicate ClaimsOk(order: Order, cases: seq<Case>) {
    AllClaimsOk(order, cases) && QuantitiesCapped(order, cases) && FeeOnce(cases)
  }

  // ----- amounts follow from quantities

  lemma {:induction false} LinesProportional(order: Order, lines: seq<Line>, item: nat)
    requires item < |order.items| && forall i :: 0 <= i < |lines| ==> LineOk(order, lines[i], true)
    ensures Sum(AmountOn(item), lines) * order.items[item].quantity
            <= order.items[item].total * Sum(QuantityOn(item), lines)
  {
    if lines != [] {
      var n := |lines| - 1;
      LinesProportional(order, lines[..n], item);
      assert LineOk(order, lines[n], true);
      AddProportional(Sum(AmountOn(item), lines[..n]), AmountOn(item)(lines[n]), Sum(QuantityOn(item), lines[..n]),
                      QuantityOn(item)(lines[n]),
                      order.items[item].total, order.items[item].quantity);
    }
  }

  lemma AddProportional(a: int, b: int, p: int, q: int, total: int, quantity: int)
    requires a * quantity <= total * p && b * quantity <= total * q
    ensures (a + b) * quantity <= total * (p + q)
  {
  }

  predicate NoSystemCase(cases: seq<Case>) { forall c :: 0 <= c < |cases| ==> cases[c].source.None? }

  lemma {:induction false} AmountsProportional(order: Order, cases: seq<Case>, item: nat)
    requires item < |order.items| && AllClaimsOk(order, cases) && NoSystemCase(cases)
    ensures ActiveAmount(cases, item) * order.items[item].quantity
            <= order.items[item].total * ActiveQuantity(cases, item)
  {
    if cases != [] {
      var n := |cases| - 1;
      AmountsProportional(order, cases[..n], item);
      assert ClaimOk(order, cases[n]);
      LinesProportional(order, cases[n].lines, item);
      AddProportional(ActiveAmount(cases[..n], item), CaseAmount(item)(cases[n]), ActiveQuantity(cases[..n], item),
                      CaseQuantity(item)(cases[n]),
                      order.items[item].total, order.items[item].quantity);
    }
  }

  lemma WithinWhole(amount: int, quantity: int, total: int, claimed: int)
    requires quantity > 0 && total >= 0 && claimed <= quantity && amount * quantity <= total * claimed
    ensures amount <= total
  {
    assert total * claimed <= total * quantity;
    Cancel(quantity, amount, total);
  }

  /** Customers' active amounts on an item never exceed its total. */
  lemma AmountsCapped(order: Order, cases: seq<Case>, item: nat)
    requires item < |order.items| && GoodItem(order.items[item]) && ClaimsOk(order, cases) && NoSystemCase(cases)
    ensures ActiveAmount(cases, item) <= order.items[item].total
  {
    AmountsProportional(order, cases, item);
    WithinWhole(ActiveAmount(cases, item), order.items[item].quantity, order.items[item].total,
                ActiveQuantity(cases, item));
  }

  lemma {:induction false} QuantityOfOne(order: Order, cases: seq<Case>, item: nat, c: nat)
    requires item < |order.items| && AllClaimsOk(order, cases) && c < |cases|
    ensures ActiveQuantity(cases, item) >= CaseQuantity(item)(cases[c])
  {
    forall d | 0 <= d < |cases| ensures CaseQuantity(item)(cases[d]) >= 0 {
      assert ClaimOk(order, cases[d]);
      SumNonNegative(QuantityOn(item), cases[d].lines);
    }
    SumAtLeast(CaseQuantity(item), cases, c);
  }

  /** With a system case everything is taken. */
  lemma SystemTakesAll(order: Order, cases: seq<Case>, c: nat, item: nat)
    requires AllClaimsOk(order, cases) && c < |cases| && cases[c].source.Some? && item < |order.items|
    ensures ActiveQuantity(cases, item) >= order.items[item].quantity
  {
    assert ClaimOk(order, cases[c]);
    QuantityOfOne(order, cases, item, c);
  }

  /** The separate test against the amount left is redundant: quantity and proportional part imply it. */
  lemma AmountTestIsRedundant(order: Order, cases: seq<Case>, q: LineRequest)
    requires ClaimsOk(order, cases) && q.item < |order.items| && GoodItem(order.items[q.item]) && q.quantity >= 1
    requires q.quantity <= order.items[q.item].quantity - ActiveQuantity(cases, q.item)
    requires q.amount <= Proportional(order.items[q.item], q.quantity)
    ensures q.amount <= order.items[q.item].total - ActiveAmount(cases, q.item)
  {
    var base := order.items[q.item];
    if c: nat :| c < |cases| && cases[c].source.Some? {
      SystemTakesAll(order, cases, c, q.item);
      assert false;
    } else {
      AmountsProportional(order, cases, q.item);
      ClaimedNonNegative(order, cases, q.item);
      ProportionalIsFloor(base, q.quantity);
      assert q.amount * base.quantity <= Proportional(base, q.quantity) * base.quantity;
      AddProportional(ActiveAmount(cases, q.item), q.amount, ActiveQuantity(cases, q.item), q.quantity, base.total,
                      base.quantity);
      WithinWhole(ActiveAmount(cases, q.item) + q.amount, base.quantity, base.total,
                  ActiveQuantity(cases, q.item) + q.quantity);
    }
  }

  lemma {:induction false} ClaimedNonNegative(order: Order, cases: seq<Case>, item: nat)
    requires AllClaimsOk(order, cases)
    ensures ActiveQuantity(cases, item) >= 0
  {
    forall d | 0 <= d < |cases| ensures CaseQuantity(item)(cases[d]) >= 0 {
      assert ClaimOk(order, cases[d]);
      SumNonNegative(QuantityOn(item), cases[d].lines);
    }
    SumNonNegative(CaseQuantity(item), cases);
  }

  /** An application whose snapshot contains a system return is refused, whatever it asks for. */
  lemma NothingLeftAfterSystemReturn(st: State, seen: seq<Case>, kind: Kind, resolution: Resolution,
                                     requests: seq<LineRequest>,
                                     includeFee: bool, review: bool)
    requires AllClaimsOk(st.order, seen) && exists c: nat :: c < |seen| && seen[c].source.Some?
    ensures CreateSeeing(st, seen, kind, resolution, requests, includeFee, review).Refused?
  {
    var c: nat :| c < |seen| && seen[c].source.Some?;
    if ValidRequest(kind, resolution, requests, includeFee) && requests[0].item < |st.order.items| {
      SystemTakesAll(st.order, seen, c, requests[0].item);
      assert CheckLine(st.order, seen, requests[0]) == Some(DuplicateActive);
    }
  }

  // ----- steps

  predicate SameLine(l: Line, m: Line) { l.item == m.item && l.quantity == m.quantity && l.amount == m.amount }

  /** The case keeps its claims, or gives them back. */
  predicate KeepsClaims(c: Case, d: Case) {
    && c.includeFee == d.includeFee && c.source == d.source && (Active(d) ==> Active(c))
       && (c.source.Some? && Active(c) ==> Active(d))
    && |c.lines| == |d.lines| && forall i :: 0 <= i < |c.lines| ==> SameLine(c.lines[i], d.lines[i])
  }

  predicate AllKeepClaims(cases: seq<Case>, cases': seq<Case>) {
    |cases| == |cases'| && forall c :: 0 <= c < |cases| ==> KeepsClaims(cases[c], cases'[c])
  }

  lemma SameQuantities(c: Case, d: Case, item: nat)
    requires KeepsClaims(c, d)
    ensures Sum(QuantityOn(item), c.lines) == Sum(QuantityOn(item), d.lines)
  {
    forall i | 0 <= i < |c.lines| ensures QuantityOn(item)(c.lines[i]) == QuantityOn(item)(d.lines[i]) {
      assert SameLine(c.lines[i], d.lines[i]);
    }
    SumPointwise(QuantityOn(item), c.lines, d.lines);
  }

  lemma ClaimStays(order: Order, c: Case, d: Case)
    requires ClaimOk(order, c) && KeepsClaims(c, d)
    ensures ClaimOk(order, d)
  {
    forall i | 0 <= i < |d.lines| ensures LineOk(order, d.lines[i], d.source.None?) {
      assert SameLine(c.lines[i], d.lines[i]) && LineOk(order, c.lines[i], c.source.None?);
    }
    forall i, j | 0 <= i < j < |d.lines| ensures d.lines[i].item != d.lines[j].item {
      assert SameLine(c.lines[i], d.lines[i]) && SameLine(c.lines[j], d.lines[j]);
    }
    forall item: nat | d.source.Some? && item < |order.items|
      ensures Sum(QuantityOn(item), d.lines) == order.items[item].quantity
    {
      SameQuantities(c, d, item);
    }
  }

  lemma {:induction false} QuantitiesShrink(order: Order, cases: seq<Case>, cases': seq<Case>, item: nat)
    requires AllKeepClaims(cases, cases') && AllClaimsOk(order, cases)
    ensures ActiveQuantity(cases', item) <= ActiveQuantity(cases, item)
  {
    if cases != [] {
      var n := |cases| - 1;
      assert KeepsClaims(cases[n], cases'[n]);
      assert forall c :: 0 <= c < n ==> KeepsClaims(cases[..n][c], cases'[..n][c]);
      QuantitiesShrink(order, cases[..n], cases'[..n], item);
      SameQuantities(cases[n], cases'[n], item);
      assert ClaimOk(order, cases[n]);
      SumNonNegative(QuantityOn(item), cases[n].lines);
    }
  }

  lemma KeepingKeepsClaims(order: Order, cases: seq<Case>, cases': seq<Case>)
    requires ClaimsOk(order, cases) && AllKeepClaims(cases, cases')
    ensures ClaimsOk(order, cases')
  {
    forall c | 0 <= c < |cases'| ensures ClaimOk(order, cases'[c]) {
      ClaimStays(order, cases[c], cases'[c]);
    }
    forall item: nat | item < |order.items| ensures ActiveQuantity(cases', item) <= order.items[item].quantity {
      QuantitiesShrink(order, cases, cases', item);
    }
    forall c, d | 0 <= c < d < |cases'| ensures !(ClaimsFee(cases'[c]) && ClaimsFee(cases'[d])) {
      assert KeepsClaims(cases[c], cases'[c]) && KeepsClaims(cases[d], cases'[d]);
      assert !(ClaimsFee(cases[c]) && ClaimsFee(cases[d]));
    }
  }

  /** The quantity a list of lines with distinct items claims of one item. */
  lemma {:induction false} DistinctSum(lines: seq<Line>, item: nat)
    requires DistinctLines(lines)
    ensures forall i :: 0 <= i < |lines| && lines[i].item == item ==> Sum(QuantityOn(item), lines) == lines[i].quantity
    ensures (forall i :: 0 <= i < |lines| ==> lines[i].item != item) ==> Sum(QuantityOn(item), lines) == 0
  {
    if lines != [] {
      DistinctSum(lines[..|lines| - 1], item);
    }
  }

  /** A case joins: the caps hold exactly when each of its lines fits what the others left. */
  lemma JoiningCase(order: Order, cases: seq<Case>, others: seq<Case>, row: Case, item: nat)
    requires DistinctLines(row.lines) && Active(row)
             && ActiveQuantity(cases, item) == ActiveQuantity(others, item) + Sum(QuantityOn(item), row.lines)
    ensures forall i :: 0 <= i < |row.lines| && row.lines[i].item == item ==>
              ActiveQuantity(cases, item) == ActiveQuantity(others, item) + row.lines[i].quantity
    ensures (forall i :: 0 <= i < |row.lines| ==> row.lines[i].item != item) ==>
              ActiveQuantity(cases, item) == ActiveQuantity(others, item)
  {
    DistinctSum(row.lines, item);
  }

  /** The quantity test of an application, on the given cases. */
  predicate StillFits(order: Order, cases: seq<Case>, item: nat, quantity: int) {
    item < |order.items| && quantity <= order.items[item].quantity - ActiveQuantity(cases, item)
  }

  predicate AllFit(order: Order, cases: seq<Case>, lines: seq<Line>) {
    forall i :: 0 <= i < |lines| ==> StillFits(order, cases, lines[i].item, lines[i].quantity)
  }

  /** What an application is checked for on quantities and fee, here on the current cases. */
  predicate ClaimFits(order: Order, cases: seq<Case>, c: Case) {
    AllFit(order, cases, c.lines) && !(c.includeFee && FeeClaimed(cases))
  }

  /** The lines of an accepted application are proportional whatever snapshot they were checked against. */
  lemma NewClaimOk(st: State, seen: seq<Case>, kind: Kind, resolution: Resolution, requests: seq<LineRequest>,
                   includeFee: bool, review: bool)
    requires AllClaimsOk(st.order, seen)
             && CreateSeeing(st, seen, kind, resolution, requests, includeFee, review).Accepted?
    requires forall i :: 0 <= i < |st.order.items| ==> GoodItem(st.order.items[i])
    ensures ClaimOk(st.order, NewCase(kind, resolution, requests, includeFee, review))
    ensures AllFit(st.order, seen, LinesOf(requests))
  {
    var row := NewCase(kind, resolution, requests, includeFee, review);
    CheckedLines(st.order, seen, requests);
    hide CheckLines, Sum;
    forall i | 0 <= i < |row.lines|
      ensures LineOk(st.order, row.lines[i], true)
              && StillFits(st.order, seen, row.lines[i].item, row.lines[i].quantity)
    {
      var q := requests[i];
      assert CheckLine(st.order, seen, q).None?;
      ClaimedNonNegative(st.order, seen, q.item);
      RequestProportional(st.order.items[q.item], q);
    }
  }

  /** A case joins the others: the caps hold afterwards exactly when the case fits what the others left. */
  lemma JoinIsExact(order: Order, others: seq<Case>, cases: seq<Case>, row: Case)
    requires ClaimsOk(order, others) && ClaimOk(order, row) && Active(row)
    requires forall item: nat ::
               ActiveQuantity(cases, item) == ActiveQuantity(others, item) + Sum(QuantityOn(item), row.lines)
    ensures QuantitiesCapped(order, cases) <==> AllFit(order, others, row.lines)
  {
    hide Sum, ActiveQuantity;
    forall i | 0 <= i < |row.lines|
      ensures ActiveQuantity(cases, row.lines[i].item)
              == ActiveQuantity(others, row.lines[i].item) + row.lines[i].quantity
      ensures row.lines[i].item < |order.items|
    {
      assert LineOk(order, row.lines[i], row.source.None?);
      JoiningCase(order, cases, others, row, row.lines[i].item);
    }
    if QuantitiesCapped(order, cases) {
      forall i | 0 <= i < |row.lines| ensures StillFits(order, others, row.lines[i].item, row.lines[i].quantity) {
      }
    }
    if AllFit(order, others, row.lines) {
      forall item: nat | item < |order.items| ensures ActiveQuantity(cases, item) <= order.items[item].quantity {
        JoiningCase(order, cases, others, row, item);
        if i :| 0 <= i < |row.lines| && row.lines[i].item == item {
          assert StillFits(order, others, row.lines[i].item, row.lines[i].quantity);
        }
      }
    }
  }

  /** An accepted application keeps the caps exactly when it also passes its own tests on the current cases;
      it was only checked against the cases its transaction saw. */
  lemma InsertKeepsCaps(st: State, seen: seq<Case>, kind: Kind, resolution: Resolution, requests: seq<LineRequest>,
                        includeFee: bool, review: bool)
    requires ClaimsOk(st.order, st.cases) && AllClaimsOk(st.order, seen)
    requires CreateSeeing(st, seen, kind, resolution, requests, includeFee, review).Accepted?
    requires forall i :: 0 <= i < |st.order.items| ==> GoodItem(st.order.items[i])
    ensures ClaimsOk(st.order, CreateSeeing(st, seen, kind, resolution, requests, includeFee, review).state.cases)
            <==> ClaimFits(st.order, st.cases, NewCase(kind, resolution, requests, includeFee, review))
  {
    var row := NewCase(kind, resolution, requests, includeFee, review);
    NewClaimOk(st, seen, kind, resolution, requests, includeFee, review);
    InsertedCases(st, seen, kind, resolution, requests, includeFee, review);
    hide CreateSeeing, ClaimOk, AllClaimsOk;
    InsertedCaps(st.order, st.cases, row);
  }

  lemma InsertedCaps(order: Order, cases: seq<Case>, row: Case)
    requires ClaimsOk(order, cases) && ClaimOk(order, row) && Active(row)
    ensures ClaimsOk(order, cases + [row]) <==> ClaimFits(order, cases, row)
  {
    forall item: nat
      ensures ActiveQuantity(cases + [row], item) == ActiveQuantity(cases, item) + Sum(QuantityOn(item), row.lines)
    {
      SumSnoc(CaseQuantity(item), cases, row);
    }
    JoinIsExact(order, cases, cases + [row], row);
    FeeOfNew(cases, row);
    AllClaimsSnoc(order, cases, row);
    hide ClaimOk, AllClaimsOk, QuantitiesCapped, FeeOnce, AllFit, FeeClaimed;
  }

  lemma InsertedCases(st: State, seen: seq<Case>, kind: Kind, resolution: Resolution, requests: seq<LineRequest>,
                      includeFee: bool, review: bool)
    requires CreateSeeing(st, seen, kind, resolution, requests, includeFee, review).Accepted?
    ensures CreateSeeing(st, seen, kind, resolution, requests, includeFee, review).state
         == st.(cases := st.cases + [NewCase(kind, resolution, requests, includeFee, review)])
  {
    hide Sum, CheckLines;
  }

  lemma AllClaimsSnoc(order: Order, cases: seq<Case>, row: Case)
    requires AllClaimsOk(order, cases) && ClaimOk(order, row)
    ensures AllClaimsOk(order, cases + [row])
  {
  }

  lemma FeeOfNew(cases: seq<Case>, row: Case)
    requires FeeOnce(cases) && Active(row)
    ensures FeeOnce(cases + [row]) <==> !(row.includeFee && FeeClaimed(cases))
  {
    var cases' := cases + [row];
    if row.includeFee && FeeClaimed(cases) {
      var c :| 0 <= c < |cases| && cases[c].includeFee && Active(cases[c]);
      assert ClaimsFee(cases'[c]) && ClaimsFee(cases'[|cases|]);
    } else {
      forall c, d | 0 <= c < d < |cases'| ensures !(ClaimsFee(cases'[c]) && ClaimsFee(cases'[d])) {
        if d < |cases| { assert !(ClaimsFee(cases[c]) && ClaimsFee(cases[d])); }
      }
    }
  }

  lemma CreateKeepsClaims(st: State, kind: Kind, resolution: Resolution, requests: seq<LineRequest>, includeFee: bool,
                          review: bool)
    requires ClaimsOk(st.order, st.cases) && Create(st, kind, resolution, requests, includeFee, review).Accepted?
    requires forall i :: 0 <= i < |st.order.items| ==> GoodItem(st.order.items[i])
    ensures ClaimsOk(st.order, Create(st, kind, resolution, requests, includeFee, review).state.cases)
  {
    NewClaimOk(st, st.cases, kind, resolution, requests, includeFee, review);
    InsertKeepsCaps(st, st.cases, kind, resolution, requests, includeFee, review);
  }

  lemma RequestProportional(base: OrderItem, q: LineRequest)
    requires GoodItem(base) && 1 <= q.quantity <= base.quantity && 0 <= q.amount <= Proportional(base, q.quantity)
    ensures q.amount * base.quantity <= base.total * q.quantity
  {
    ProportionalIsFloor(base, q.quantity);
    assert q.amount * base.quantity <= Proportional(base, q.quantity) * base.quantity;
  }

  lemma {:induction false} InactiveClaimsNothing(cases: seq<Case>, item: nat)
    requires !ActiveConflicts(cases)
    ensures ActiveQuantity(cases, item) == 0
  {
    SumZero(CaseQuantity(item), cases);
  }

  lemma SystemKeepsClaims(st: State, source: nat)
    requires ClaimsOk(st.order, st.cases) && SystemReturn(st, source).Accepted?
    requires forall i :: 0 <= i < |st.order.items| ==> GoodItem(st.order.items[i])
    ensures ClaimsOk(st.order, SystemReturn(st, source).state.cases)
  {
    var cases' := SystemReturn(st, source).state.cases;
    var row := cases'[|st.cases|];
    hide Sum, Shares, HasSource, Wrap64;
    forall item: nat | item < |st.order.items| ensures Sum(QuantityOn(item), row.lines) == st.order.items[item].quantity
    {
      assert row.lines[item].item == item;
      DistinctSum(row.lines, item);
    }
    assert ClaimOk(st.order, row);
    forall item: nat | item < |st.order.items| ensures ActiveQuantity(cases', item) <= st.order.items[item].quantity {
      SumSnoc(CaseQuantity(item), st.cases, row);
      InactiveClaimsNothing(st.cases, item);
    }
  }

  lemma OneCaseKeeps(st: State, c: nat, row: Case)
    requires c < |st.cases| && KeepsClaims(st.cases[c], row)
    ensures AllKeepClaims(st.cases, st.cases[c := row])
  {
    forall d | 0 <= d < |st.cases| ensures KeepsClaims(st.cases[d], st.cases[c := row][d]) {
      if d != c { assert KeepsClaims(st.cases[d], st.cases[d]); }
    }
  }

  lemma SomeoneElseKeeps(cases: seq<Case>)
    ensures AllKeepClaims(cases, cases)
  {
    forall c | 0 <= c < |cases| ensures KeepsClaims(cases[c], cases[c]) {
    }
  }

  /** Every step but an application, a system return and an appeal keeps each case's claims or gives them back. */
  lemma OtherStepsKeep(st: State, cmd: Command)
    requires RefundsOk(st) && Apply(st, cmd).Accepted? && !cmd.DoCreate? && !cmd.DoSystemReturn? && !cmd.DoAppeal?
    ensures AllKeepClaims(st.cases, Next(st, cmd).cases)
  {
    var st' := Next(st, cmd);
    SomeoneElseKeeps(st.cases);
    match cmd
    case DoAddEvidence(c) => CaseSource(st, c); OneCaseKeeps(st, c, st'.cases[c]);
    case DoWithdraw(c) => CaseSource(st, c); OneCaseKeeps(st, c, st'.cases[c]);
    case DoReview(c, merchant, decision) => CaseSource(st, c); ReviewKeepsClaims(st, c, merchant, decision);
    case DoReceive(c, intact) =>
      hide RefundsOk, Sum, Wrap64;
      CaseSource(st, c);
      OneCaseKeeps(st, c, st'.cases[c]);
    case DoSettle(r, report) => SettleKeepsClaims(st, r, report);
    case DoResubmit(r, status) =>
    case DoRetry(r) =>
  }

  lemma CaseSource(st: State, c: nat)
    requires RefundsOk(st) && c < |st.cases|
    ensures !Refunding(st.cases[c]) ==> st.cases[c].source.None?
  {
    assert CaseOk(st.order, st.cases[c]);
  }

  lemma ReviewKeepsClaims(st: State, c: nat, merchant: bool, decision: Decision)
    requires c < |st.cases| && st.cases[c].source.None? && Review(st, c, merchant, decision).Accepted?
    ensures AllKeepClaims(st.cases, Review(st, c, merchant, decision).state.cases)
  {
    hide Sum, Wrap64, ValidGrants, ResolutionAllowed;
    var st' := Review(st, c, merchant, decision).state;
    if decision.Approve? {
      ApprovalGrants(st, c, decision.resolution, decision.lines, decision.refundFee);
      hide ApproveCase;
      assert st'.cases == st.cases[c := st'.cases[c]];
      forall i | 0 <= i < |st.cases[c].lines| ensures SameLine(st.cases[c].lines[i], st'.cases[c].lines[i]) {
      }
    }
    OneCaseKeeps(st, c, st'.cases[c]);
  }

  lemma SettleKeepsClaims(st: State, r: nat, report: Report)
    requires RefundsOk(st) && Settle(st, r, report).Accepted?
    ensures AllKeepClaims(st.cases, Settle(st, r, report).state.cases)
  {
    SomeoneElseKeeps(st.cases);
    if report == Success {
      assert RefundOk(st.cases, st.refunds, r);
      hide RefundsOk, Wrap64;
      var owner := st.refunds[r].owner;
      OneCaseKeeps(st, owner, Settle(st, r, report).state.cases[owner]);
    }
  }

  lemma GoodItems(st: State)
    requires RefundsOk(st)
    ensures forall i :: 0 <= i < |st.order.items| ==> GoodItem(st.order.items[i])
  {
    var top: nat :| TopTotal(st.order, st.payment.amount, top);
  }

  lemma StepKeepsClaims(st: State, cmd: Command)
    requires RefundsOk(st) && ClaimsOk(st.order, st.cases) && !cmd.DoAppeal?
    ensures ClaimsOk(st.order, Next(st, cmd).cases)
  {
    GoodItems(st);
    hide RefundsOk, ClaimsOk, CreateSeeing, SystemReturn;
    if Apply(st, cmd).Accepted? {
      match cmd
      case DoCreate(kind, resolution, requests, includeFee, review) =>
        CreateKeepsClaims(st, kind, resolution, requests, includeFee, review);
      case DoSystemReturn(source) => SystemKeepsClaims(st, source);
      case _ =>
        OtherStepsKeep(st, cmd);
        KeepingKeepsClaims(st.order, st.cases, Next(st, cmd).cases);
    }
  }

  lemma OrderStays(st: State, cmd: Command)
    ensures Next(st, cmd).order == st.order && Next(st, cmd).payment.amount == st.payment.amount
  {
    hide Sum, Wrap64, Shares, CheckLines, ApproveLines;
  }

  /** In every run without appeals, active claims never exceed what was ordered of any item, customers' amounts never
      exceed an item's total, and the delivery fee is claimed at most once. */
  lemma {:induction false} RunKeepsClaims(order: Order, paymentAmount: int, cmds: seq<Command>)
    requires BoundedOrder(order, paymentAmount) && forall i :: 0 <= i < |cmds| ==> !cmds[i].DoAppeal?
    ensures var st := Run(Fresh(order, paymentAmount), cmds);
            && st.order == order && ClaimsOk(order, st.cases)
            && (NoSystemCase(st.cases) ==> forall item: nat :: item < |order.items| ==>
                ActiveAmount(st.cases, item) <= order.items[item].total)
  {
    var top: nat :| TopTotal(order, paymentAmount, top);
    if cmds != [] {
      var n := |cmds| - 1;
      var st := Run(Fresh(order, paymentAmount), cmds[..n]);
      RunKeepsClaims(order, paymentAmount, cmds[..n]);
      RunKeepsRefunds(order, paymentAmount, cmds[..n]);
      StepKeepsClaims(st, cmds[n]);
      OrderStays(st, cmds[n]);
    }
    hide BoundedOrder, Next;
    var st := Run(Fresh(order, paymentAmount), cmds);
    forall item: nat | item < |order.items| && NoSystemCase(st.cases)
      ensures ActiveAmount(st.cases, item) <= order.items[item].total
    {
      AmountsCapped(order, st.cases, item);
    }
  }

  // ----- appeals

  lemma {:induction false} ActiveAfterAppeal(cases: seq<Case>, c: nat, row: Case, item: nat)
    requires c < |cases| && !Active(cases[c]) && Active(row) && row.lines == cases[c].lines
    ensures ActiveQuantity(cases[c := row], item) == ActiveQuantity(cases, item) + Sum(QuantityOn(item), row.lines)
  {
    SumUpdate(CaseQuantity(item), cases, c, row);
  }

  lemma FeeAfterAppeal(cases: seq<Case>, c: nat, row: Case)
    requires FeeOnce(cases) && c < |cases| && !Active(cases[c]) && Active(row) && row.includeFee == cases[c].includeFee
    ensures FeeOnce(cases[c := row]) <==> !(row.includeFee && FeeClaimed(cases))
  {
    var cases' := cases[c := row];
    if row.includeFee && FeeClaimed(cases) {
      var d :| 0 <= d < |cases| && cases[d].includeFee && Active(cases[d]);
      assert ClaimsFee(cases'[c]) && ClaimsFee(cases'[d]) && (c < d || d < c);
    } else {
      forall d, e | 0 <= d < e < |cases'| ensures !(ClaimsFee(cases'[d]) && ClaimsFee(cases'[e])) {
        if d != c && e != c { assert !(ClaimsFee(cases[d]) && ClaimsFee(cases[e])); }
      }
    }
  }

  lemma AppealedCases(st: State, c: nat)
    requires Appeal(st, c).Accepted?
    ensures c < |st.cases| && !Active(st.cases[c])
    ensures Appeal(st, c).state == SetCase(st, c, st.cases[c].(status := PlatformReviewing, wasAppealed := true))
  {
  }

  /** An appeal keeps the caps exactly when the case would still pass the tests of an application, which the appeal
      leaves out: every line fits what the others left, and nobody else claims the fee it includes. */
  lemma AppealKeepsCaps(st: State, c: nat)
    requires ClaimsOk(st.order, st.cases) && Appeal(st, c).Accepted?
    ensures c < |st.cases|
    ensures ClaimsOk(st.order, Appeal(st, c).state.cases) <==> ClaimFits(st.order, st.cases, st.cases[c])
  {
    AppealedCases(st, c);
    hide Sum, Appeal;
    var row := st.cases[c].(status := PlatformReviewing, wasAppealed := true);
    var cases' := st.cases[c := row];
    assert ClaimOk(st.order, st.cases[c]);
    forall item: nat
      ensures ActiveQuantity(cases', item) == ActiveQuantity(st.cases, item) + Sum(QuantityOn(item), row.lines)
    {
      ActiveAfterAppeal(st.cases, c, row, item);
    }
    assert ClaimOk(st.order, row);
    assert AllClaimsOk(st.order, cases');
    JoinIsExact(st.order, st.cases, cases', row);
    FeeAfterAppeal(st.cases, c, row);
  }
}
