/** Refunds of one payment: never more reserved or refunded than was paid, and one live refund per case. */
module AfterSaleRefunds {
  import opened Sums
  import opened Machine
  import opened RefundAllocation
  import opened AfterSaleModel

  // ----- the bound

  /** Under this bound no sum of the refund checks leaves 64 bits. */
  ghost predicate BoundedOrder(order: Order, paymentAmount: int) {
    && 0 < paymentAmount <= order.paid <= MAX_INT64 && 2 * paymentAmount <= MAX_INT64 && 0 <= order.fee
    && exists top: nat :: TopTotal(order, paymentAmount, top)
  }

  predicate GoodItem(item: OrderItem) {
    item.quantity >= 1 && 0 <= item.total && item.total * item.quantity <= MAX_INT64
  }

  predicate TopTotal(order: Order, paymentAmount: int, top: nat) {
    && (forall i :: 0 <= i < |order.items| ==> GoodItem(order.items[i]) && order.items[i].total <= top)
    && paymentAmount + order.fee + 50 * top <= MAX_INT64
  }

  // ----- invariant

  function SucceededAmount(): Refund -> int { (r: Refund) => if r.status == Succeeded then r.amount else 0 }

  function CaseRefunded(): Case -> int { (c: Case) => c.refunded }

  predicate Superseded(refunds: seq<Refund>, r: nat)
    requires r < |refunds|
  {
    refunds[r].status == RefundFailed && IsReplaced(refunds, r)
  }

  predicate Refunding(c: Case) { c.status == RefundProcessing || c.status == Completed }

  /** A refund is for everything approved on a case that is being refunded; unless a later one took its place,
      the case has been refunded exactly when this one succeeded. */
  predicate RefundOk(cases: seq<Case>, refunds: seq<Refund>, r: nat)
    requires r < |refunds|
  {
    var row := refunds[r];
    && row.owner < |cases| && row.amount > 0 && row.amount == cases[row.owner].approved && Refunding(cases[row.owner])
    && (row.replacing.Some? ==> row.replacing.value < r && refunds[row.replacing.value].status == RefundFailed)
    && (!Superseded(refunds, r) ==> cases[row.owner].refunded == if row.status == Succeeded then row.amount else 0)
  }

  /** Of the refunds of one case, all but the last have failed and been replaced. */
  predicate OneLive(refunds: seq<Refund>) {
    forall r: nat, q: nat :: r < q < |refunds| && refunds[r].owner == refunds[q].owner ==> Superseded(refunds, r)
  }

  predicate CustomerLines(order: Order, c: Case) {
    && |c.lines| <= 50
    && forall i :: 0 <= i < |c.lines| ==>
         c.lines[i].item < |order.items| && c.lines[i].quantity >= 1
             && 0 <= c.lines[i].amount <= order.items[c.lines[i].item].total
  }

  predicate CaseOk(order: Order, c: Case) {
    && (!Refunding(c) ==> c.refunded == 0 && c.source.None?)
    && (c.source.None? ==> CustomerLines(order, c))
    && (forall i :: 0 <= i < |c.lines| ==> c.lines[i].quantity >= 0)
    && (c.status == WaitingReturn ==> c.approved <= AmountCap(order, c))
  }

  predicate CasesOk(order: Order, cases: seq<Case>) { forall c :: 0 <= c < |cases| ==> CaseOk(order, cases[c]) }

  predicate RefundRowsOk(cases: seq<Case>, refunds: seq<Refund>) {
    forall r: nat :: r < |refunds| ==> RefundOk(cases, refunds, r)
  }

  /** A bound on anything approved on a customer's case. */
  function AmountCap(order: Order, c: Case): int { Sum(LineAmount(), c.lines) + order.fee }

  function LineAmount(): Line -> int { (l: Line) => l.amount }

  ghost predicate Capped(st: State) {
    0 <= st.payment.refunded && st.payment.refunded + Reserved(st.refunds) <= st.payment.amount
  }

  ghost predicate RefundsOk(st: State) {
    && BoundedOrder(st.order, st.payment.amount)
    && Capped(st)
    && st.payment.refunded == st.orderRefunded == Sum(SucceededAmount(), st.refunds) == Sum(CaseRefunded(), st.cases)
    && AmountsWithin(st.refunds, st.payment.amount)
    && RefundRowsOk(st.cases, st.refunds) && OneLive(st.refunds) && CasesOk(st.order, st.cases)
  }

  predicate AmountsWithin(refunds: seq<Refund>, amount: int) {
    forall r :: 0 <= r < |refunds| ==> refunds[r].amount <= amount
  }

  // ----- reserving

  lemma {:induction false} ReservedNonNegative(refunds: seq<Refund>)
    requires forall r :: 0 <= r < |refunds| ==> refunds[r].amount > 0
    ensures Reserved(refunds) >= 0
  {
    SumNonNegative(OpenAmount(), refunds);
  }

  /** An accepted reservation keeps the cap exactly when the checked sum does not leave 64 bits. */
  lemma ReservationKeepsCap(st: State, c: nat, total: int)
    requires Capped(st) && Reserved(st.refunds) >= 0 && st.payment.amount <= MAX_INT64 && total <= MAX_INT64
    requires CreateRefundTask(st, c, total).Accepted?
    ensures Capped(CreateRefundTask(st, c, total).state)
            <==> total <= MAX_INT64 - (st.payment.refunded + Reserved(st.refunds))
  {
    SumSnoc(OpenAmount(), st.refunds, Refund(c, total, Creating, None));
  }

  lemma CapOf(order: Order, paymentAmount: int, c: Case)
    requires BoundedOrder(order, paymentAmount) && CustomerLines(order, c)
    ensures 0 <= AmountCap(order, c) <= MAX_INT64 - paymentAmount
  {
    var top: nat :| TopTotal(order, paymentAmount, top);
    hide Sum;
    LinesWithin(order, c.lines, top);
    Times(|c.lines|, top);
  }

  lemma Times(n: nat, top: nat)
    requires n <= 50
    ensures n * top <= 50 * top
  {
  }

  lemma {:induction false} LinesWithin(order: Order, lines: seq<Line>, top: nat)
    requires forall i :: 0 <= i < |order.items| ==> 0 <= order.items[i].total <= top
    requires forall i :: 0 <= i < |lines| ==>
               lines[i].item < |order.items| && 0 <= lines[i].amount <= order.items[lines[i].item].total
    ensures 0 <= Sum(LineAmount(), lines) <= |lines| * top
  {
    if lines != [] {
      LinesWithin(order, lines[..|lines| - 1], top);
    }
  }

  lemma {:induction false} GrantsWithin(lines: seq<Line>, grants: map<nat, ApprovedLine>)
    requires ValidGrants(lines, grants) && forall i :: 0 <= i < |lines| ==> lines[i].amount >= 0
    ensures 0 <= Sum(ApprovedAmount(), ApproveLines(lines, grants)) <= Sum(LineAmount(), lines)
  {
    if lines != [] {
      var n := |lines| - 1;
      GrantsWithin(lines[..n], grants);
      assert ApproveLines(lines, grants)[..n] == ApproveLines(lines[..n], grants);
    }
  }

  lemma ApprovedSame(lines: seq<Line>, grants: map<nat, ApprovedLine>)
    ensures Sum(LineAmount(), ApproveLines(lines, grants)) == Sum(LineAmount(), lines)
  {
    SumPointwise(LineAmount(), ApproveLines(lines, grants), lines);
  }

  // ----- keeping the rows in order

  lemma UnreplacedIsLast(refunds: seq<Refund>, k: nat)
    requires OneLive(refunds) && k < |refunds| && !IsReplaced(refunds, k)
    ensures forall r: nat :: k < r < |refunds| ==> refunds[r].owner != refunds[k].owner
  {
  }

  /** A new refund of a case: its first, or the replacement of its failed last one. */
  lemma AddRefund(cases: seq<Case>, cases': seq<Case>, refunds: seq<Refund>, row: Refund)
    requires RefundRowsOk(cases, refunds) && OneLive(refunds)
    requires row.owner < |cases'| && row.amount == cases'[row.owner].approved > 0 && Refunding(cases'[row.owner])
    requires cases'[row.owner].refunded == 0 && row.status == Creating
    requires |cases| <= |cases'| && forall c :: 0 <= c < |cases| && c != row.owner ==> cases'[c] == cases[c]
    requires if row.replacing.None? then row.owner >= |cases| || !Refunding(cases[row.owner])
             else && row.owner < |cases| && cases' == cases
                  && row.replacing.value < |refunds| && !IsReplaced(refunds, row.replacing.value)
                  && refunds[row.replacing.value].owner == row.owner
                  && refunds[row.replacing.value].status == RefundFailed
    ensures RefundRowsOk(cases', refunds + [row]) && OneLive(refunds + [row])
  {
    var refunds' := refunds + [row];
    var n := |refunds|;
    if row.replacing.Some? { UnreplacedIsLast(refunds, row.replacing.value); }
    forall r: nat | r < n && refunds[r].owner == row.owner ensures Superseded(refunds', r) {
      assert RefundOk(cases, refunds, r);
      if r == row.replacing.value {
        assert ReplacedBy(refunds', r, n);
      } else {
        assert Superseded(refunds, r);
        StaysSuperseded(refunds, row, r);
      }
    }
    forall r: nat, q: nat | r < q <= n && refunds'[r].owner == refunds'[q].owner ensures Superseded(refunds', r) {
      if q < n {
        assert Superseded(refunds, r);
        StaysSuperseded(refunds, row, r);
      }
    }
    forall r: nat | r <= n ensures RefundOk(cases', refunds', r) {
      if r < n {
        assert RefundOk(cases, refunds, r);
        if refunds[r].owner != row.owner && Superseded(refunds, r) { StaysSuperseded(refunds, row, r); }
      }
    }
  }

  lemma StaysSuperseded(refunds: seq<Refund>, row: Refund, r: nat)
    requires r < |refunds| && Superseded(refunds, r)
    ensures Superseded(refunds + [row], r)
  {
    var q :| 0 <= q < |refunds| && ReplacedBy(refunds, r, q);
    assert ReplacedBy(refunds + [row], r, q);
  }

  /** A report on an open refund: only success moves money, to the case it is for. */
  lemma MarkRefund(cases: seq<Case>, refunds: seq<Refund>, r: nat, status: RefundStatus)
    requires RefundRowsOk(cases, refunds) && OneLive(refunds) && r < |refunds| && Open(refunds[r].status)
    ensures refunds[r].owner < |cases| && cases[refunds[r].owner].refunded == 0
            && refunds[r].amount == cases[refunds[r].owner].approved > 0
    ensures var owner := refunds[r].owner;
            var c := cases[owner];
            var cases' := if status == Succeeded
                then cases[owner := c.(refunded := refunds[r].amount, status := Completed)] else cases;
            var refunds' := refunds[r := refunds[r].(status := status)];
            RefundRowsOk(cases', refunds') && OneLive(refunds')
  {
    assert RefundOk(cases, refunds, r);
    var owner := refunds[r].owner;
    var c := cases[owner];
    var cases' := if status == Succeeded then cases[owner := c.(refunded := refunds[r].amount, status := Completed)]
        else cases;
    var refunds' := refunds[r := refunds[r].(status := status)];
    forall q: nat | q < |refunds| && q != r ensures Superseded(refunds', q) == Superseded(refunds, q) {
      SameReplaced(refunds, r, status, q);
    }
    SameReplaced(refunds, r, status, r);
    assert !IsReplaced(refunds, r) by {
      forall q: nat | q < |refunds| ensures !ReplacedBy(refunds, r, q) {
        assert RefundOk(cases, refunds, q);
      }
    }
    UnreplacedIsLast(refunds, r);
    forall q: nat | q < |refunds| ensures RefundOk(cases', refunds', q) {
      assert RefundOk(cases, refunds, q);
      if q < r && refunds[q].owner == owner {
        assert Superseded(refunds, q);
      }
    }
  }

  lemma SameReplaced(refunds: seq<Refund>, r: nat, status: RefundStatus, q: nat)
    requires r < |refunds| && q < |refunds|
    ensures IsReplaced(refunds[r := refunds[r].(status := status)], q) == IsReplaced(refunds, q)
  {
    var refunds' := refunds[r := refunds[r].(status := status)];
    assert forall p: nat :: ReplacedBy(refunds', q, p) == ReplacedBy(refunds, q, p);
  }

  /** A case that is not being refunded may change freely. */
  lemma ChangeCase(cases: seq<Case>, refunds: seq<Refund>, c: nat, row: Case)
    requires RefundRowsOk(cases, refunds) && c < |cases| && !Refunding(cases[c])
    ensures RefundRowsOk(cases[c := row], refunds)
  {
    var cases' := cases[c := row];
    forall r: nat | r < |refunds| ensures RefundOk(cases', refunds, r) {
      assert RefundOk(cases, refunds, r);
    }
  }

  lemma AddCase(cases: seq<Case>, refunds: seq<Refund>, row: Case)
    requires RefundRowsOk(cases, refunds)
    ensures RefundRowsOk(cases + [row], refunds)
  {
    forall r: nat | r < |refunds| ensures RefundOk(cases + [row], refunds, r) {
      assert RefundOk(cases, refunds, r);
    }
  }

  // ----- every step

  lemma Unwrapped(x: int)
    requires InInt64(x)
    ensures Wrap64(x) == x
  {
  }

  lemma BoundedPayment(st: State)
    requires RefundsOk(st)
    ensures 0 < st.payment.amount <= MAX_INT64
  {
  }

  /** The reservation of a case's first refund. */
  lemma TaskKeeps(st: State, mid: State, c: nat, total: int, row: Case)
    requires RefundsOk(st) && total <= MAX_INT64 - (st.payment.refunded + Reserved(st.refunds))
    requires mid.refunds == st.refunds && mid.payment == st.payment && CreateRefundTask(mid, c, total).Accepted?
    requires c <= |st.cases| && (c < |st.cases| ==> !Refunding(st.cases[c]))
    requires row.approved == total && Refunding(row) && row.refunded == 0 && CaseOk(st.order, row)
    ensures var cases' := if c < |st.cases| then st.cases[c := row] else st.cases + [row];
            RefundsOk(st.(cases := cases', refunds := st.refunds + [Refund(c, total, Creating, None)]))
  {
    hide Wrap64, CaseOk, Superseded, Sum, RefundRowsOk, OneLive, BoundedOrder;
    BoundedPayment(st);
    AmountsPositive(st.cases, st.refunds);
    assert 0 <= st.payment.amount <= MAX_INT64;
    var task := Refund(c, total, Creating, None);
    var cases' := if c < |st.cases| then st.cases[c := row] else st.cases + [row];
    ReservedNonNegative(st.refunds);
    Unwrapped(st.payment.refunded + Reserved(st.refunds));
    Unwrapped(st.payment.refunded + Reserved(st.refunds) + total);
    SumSnoc(OpenAmount(), st.refunds, task);
    SumSnoc(SucceededAmount(), st.refunds, task);
    if c < |st.cases| {
      assert CaseOk(st.order, st.cases[c]);
      assert st.cases[c].refunded == 0 by { IdleCase(st.order, st.cases[c]); }
      SumUpdate(CaseRefunded(), st.cases, c, row);
    } else {
      SumSnoc(CaseRefunded(), st.cases, row);
    }
    AddRefund(st.cases, cases', st.refunds, task);
  }

  lemma AmountsPositive(cases: seq<Case>, refunds: seq<Refund>)
    requires RefundRowsOk(cases, refunds)
    ensures forall r :: 0 <= r < |refunds| ==> refunds[r].amount > 0
  {
    forall r: nat | r < |refunds| ensures refunds[r].amount > 0 {
      assert RefundOk(cases, refunds, r);
    }
  }

  lemma IdleCase(order: Order, c: Case)
    requires CaseOk(order, c) && !Refunding(c)
    ensures c.refunded == 0 && CustomerLines(order, c)
  {
  }

  /** A case that is not being refunded moves to another such state. */
  lemma ChangeKeeps(st: State, c: nat, row: Case)
    requires RefundsOk(st) && c < |st.cases| && !Refunding(st.cases[c]) && CaseOk(st.order, row) && row.refunded == 0
    ensures RefundsOk(SetCase(st, c, row))
  {
    hide CaseOk, OneLive;
    assert CaseOk(st.order, st.cases[c]);
    IdleCase(st.order, st.cases[c]);
    SumUpdate(CaseRefunded(), st.cases, c, row);
    ChangeCase(st.cases, st.refunds, c, row);
  }

  /** The proportional part of an item is the floor of its exact part, and at most the whole. */
  lemma ProportionalIsFloor(item: OrderItem, quantity: int)
    requires GoodItem(item) && 0 <= quantity <= item.quantity
    ensures Proportional(item, quantity) == (item.total * quantity) / item.quantity <= item.total
    ensures Proportional(item, quantity) * item.quantity <= item.total * quantity
  {
    assert 0 <= item.total * quantity <= item.total * item.quantity;
    Unwrapped(item.total * quantity);
    Division(item.total * quantity, item.quantity);
    Cancel(item.quantity, Proportional(item, quantity), item.total);
  }

  lemma {:induction false} QuantitiesNonNegative(order: Order, cases: seq<Case>, item: nat)
    requires CasesOk(order, cases)
    ensures ActiveQuantity(cases, item) >= 0
  {
    forall c | 0 <= c < |cases| ensures CaseQuantity(item)(cases[c]) >= 0 {
      assert CaseOk(order, cases[c]);
      SumNonNegative(QuantityOn(item), cases[c].lines);
    }
    SumNonNegative(CaseQuantity(item), cases);
  }

  /** Whatever passes the checks asks for no more than the item's total. */
  lemma {:induction false} CheckedLines(order: Order, cases: seq<Case>, requests: seq<LineRequest>)
    requires CheckLines(order, cases, requests).None?
    ensures forall i :: 0 <= i < |requests| ==> CheckLine(order, cases, requests[i]).None?
  {
    if requests != [] {
      CheckedLines(order, cases, requests[1..]);
      assert requests == [requests[0]] + requests[1..];
    }
  }

  lemma CheckedLine(order: Order, cases: seq<Case>, q: LineRequest)
    requires CasesOk(order, cases) && CheckLine(order, cases, q).None? && q.quantity >= 1
    requires q.item < |order.items| ==> GoodItem(order.items[q.item])
    ensures q.item < |order.items| && q.quantity <= order.items[q.item].quantity
            && q.amount <= order.items[q.item].total
  {
    QuantitiesNonNegative(order, cases, q.item);
    ProportionalIsFloor(order.items[q.item], q.quantity);
  }

  lemma CreatedCase(st: State, seen: seq<Case>, kind: Kind, resolution: Resolution, requests: seq<LineRequest>,
                    includeFee: bool, review: bool)
    requires RefundsOk(st) && CasesOk(st.order, seen)
             && CreateSeeing(st, seen, kind, resolution, requests, includeFee, review).Accepted?
    ensures var row := NewCase(kind, resolution, requests, includeFee, review);
            CreateSeeing(st, seen, kind, resolution, requests, includeFee, review).state
                == st.(cases := st.cases + [row]) && CaseOk(st.order, row)
  {
    hide CheckLine, FeeClaimed, RefundRowsOk, OneLive, Sum;
    var row := NewCase(kind, resolution, requests, includeFee, review);
    var top: nat :| TopTotal(st.order, st.payment.amount, top);
    CheckedLines(st.order, seen, requests);
    forall i | 0 <= i < |requests|
      ensures row.lines[i].item < |st.order.items| && row.lines[i].quantity >= 1
      ensures 0 <= row.lines[i].amount <= st.order.items[row.lines[i].item].total
    {
      CheckedLine(st.order, seen, requests[i]);
    }
  }

  /** Whatever snapshot an application was checked against, it keeps the refunds in order. */
  lemma CreateKeeps(st: State, seen: seq<Case>, kind: Kind, resolution: Resolution, requests: seq<LineRequest>,
                    includeFee: bool, review: bool)
    requires RefundsOk(st) && CasesOk(st.order, seen)
             && CreateSeeing(st, seen, kind, resolution, requests, includeFee, review).Accepted?
    ensures RefundsOk(CreateSeeing(st, seen, kind, resolution, requests, includeFee, review).state)
  {
    CreatedCase(st, seen, kind, resolution, requests, includeFee, review);
    hide CreateSeeing, CaseOk, OneLive;
    var row := NewCase(kind, resolution, requests, includeFee, review);
    SumSnoc(CaseRefunded(), st.cases, row);
    AddCase(st.cases, st.refunds, row);
  }

  /** A system case refunds what is left of the payment. */
  lemma SystemKeeps(st: State, source: nat)
    requires RefundsOk(st) && SystemReturn(st, source).Accepted?
    ensures RefundsOk(SystemReturn(st, source).state)
  {
    hide HasSource, ActiveConflicts, OneLive, RefundRowsOk, Shares, Sum, Wrap64;
    var remaining := st.payment.amount - st.payment.refunded - Reserved(st.refunds);
    var row := SystemCase(st.order, remaining, source);
    var mid := st.(cases := st.cases + [row]);
    var top: nat :| TopTotal(st.order, st.payment.amount, top);
    assert CaseOk(st.order, row);
    NothingReserved(st);
    TaskKeeps(st, mid, |st.cases|, remaining, row);
  }

  lemma NothingReserved(st: State)
    requires RefundsOk(st)
    ensures Reserved(st.refunds) >= 0
  {
    AmountsPositive(st.cases, st.refunds);
    ReservedNonNegative(st.refunds);
  }

  lemma MoveKeeps(st: State, c: nat, allowed: set<CaseStatus>, target: CaseStatus)
    requires RefundsOk(st) && Move(st, c, allowed, target).Accepted?
    requires RefundProcessing !in allowed && Completed !in allowed
    requires target != RefundProcessing && target != Completed && target != WaitingReturn
    ensures RefundsOk(Move(st, c, allowed, target).state)
  {
    hide RefundRowsOk, OneLive, Sum;
    assert CaseOk(st.order, st.cases[c]);
    ChangeKeeps(st, c, st.cases[c].(status := target));
  }

  /** What an approval writes on the case. */
  lemma ApprovalWithin(st: State, c: nat, grants: map<nat, ApprovedLine>, refundFee: bool)
    requires RefundsOk(st) && c < |st.cases| && !Refunding(st.cases[c]) && ValidGrants(st.cases[c].lines, grants)
    ensures var row := st.cases[c];
            var lines := ApproveLines(row.lines, grants);
            var total := Sum(ApprovedAmount(), lines) + if refundFee then st.order.fee else 0;
            && row.source.None? && row.refunded == 0 && CustomerLines(st.order, row.(lines := lines))
            && total <= AmountCap(st.order, row.(lines := lines)) <= MAX_INT64 - st.payment.amount
  {
    var row := st.cases[c];
    var lines := ApproveLines(row.lines, grants);
    assert CaseOk(st.order, row);
    GrantsWithin(row.lines, grants);
    ApprovedSame(row.lines, grants);
    CapOf(st.order, st.payment.amount, row.(lines := lines));
  }

  lemma ApprovedCaseOk(st: State, c: nat, row: Case, total: int)
    requires RefundsOk(st) && c < |st.cases| && !Refunding(st.cases[c])
    requires row.source == st.cases[c].source && row.refunded == st.cases[c].refunded && row.approved == total
    requires CustomerLines(st.order, row) && total <= AmountCap(st.order, row) <= MAX_INT64 - st.payment.amount
    ensures row.refunded == 0 && total <= MAX_INT64 - (st.payment.refunded + Reserved(st.refunds))
    ensures CaseOk(st.order, row.(status := RefundProcessing)) && CaseOk(st.order, row.(status := WaitingReturn))
    ensures CaseOk(st.order, row.(status := ReplacementProcessing))
            && CaseOk(st.order, row.(status := CompensationProcessing))
  {
    hide Sum, RefundRowsOk, OneLive;
    assert CaseOk(st.order, st.cases[c]);
    forall status ensures AmountCap(st.order, row.(status := status)) == AmountCap(st.order, row) {
    }
  }

  lemma ApproveKeeps(st: State, c: nat, wanted: Option<Resolution>, grants: map<nat, ApprovedLine>, refundFee: bool)
    requires RefundsOk(st) && c < |st.cases| && Reviewable(st.cases[c].status)
    requires ApproveCase(st, c, wanted, grants, refundFee).Accepted?
    ensures RefundsOk(ApproveCase(st, c, wanted, grants, refundFee).state)
  {
    hide RefundsOk, CaseOk, Sum, ApproveLines, ValidGrants, ResolutionAllowed, CreateRefundTask, AmountCap,
      CustomerLines, ApproveCase;
    var row := st.cases[c];
    var resolution := if wanted.Some? then wanted.value else row.requested;
    var lines := ApproveLines(row.lines, grants);
    var total := Sum(ApprovedAmount(), lines) + if refundFee then st.order.fee else 0;
    var row' := row.(lines := lines, approval := Some(resolution), approved := total);
    ApprovalGrants(st, c, wanted, grants, refundFee);
    ApprovalWithin(st, c, grants, refundFee);
    SameCap(st.order, row.(lines := lines), row');
    ApprovedCaseOk(st, c, row', total);
    match resolution
    case RefundOnly => TaskKeeps(st, st, c, total, row'.(status := RefundProcessing));
    case ReturnAndRefund => ChangeKeeps(st, c, row'.(status := WaitingReturn));
    case Replacement => ChangeKeeps(st, c, row'.(status := ReplacementProcessing));
    case Compensate => ChangeKeeps(st, c, row'.(status := CompensationProcessing));
  }

  lemma SameCap(order: Order, a: Case, b: Case)
    requires a.lines == b.lines && CustomerLines(order, a)
    ensures AmountCap(order, a) == AmountCap(order, b) && CustomerLines(order, b)
  {
  }

  /** The shape of an accepted approval. */
  lemma ApprovalGrants(st: State, c: nat, wanted: Option<Resolution>, grants: map<nat, ApprovedLine>, refundFee: bool)
    requires c < |st.cases| && ApproveCase(st, c, wanted, grants, refundFee).Accepted?
    ensures var row := st.cases[c];
            var resolution := if wanted.Some? then wanted.value else row.requested;
            var lines := ApproveLines(row.lines, grants);
            var total := Sum(ApprovedAmount(), lines) + if refundFee then st.order.fee else 0;
            var row' := row.(lines := lines, approval := Some(resolution), approved := total);
            var st' := ApproveCase(st, c, wanted, grants, refundFee).state;
            && ValidGrants(row.lines, grants)
            && match resolution
               case RefundOnly => CreateRefundTask(st, c, total).Accepted?
                 && st' == st.(cases := st.cases[c := row'.(status := RefundProcessing)],
                               refunds := st.refunds + [Refund(c, total, Creating, None)])
               case ReturnAndRefund => st' == SetCase(st, c, row'.(status := WaitingReturn))
               case Replacement => st' == SetCase(st, c, row'.(status := ReplacementProcessing))
               case Compensate => st' == SetCase(st, c, row'.(status := CompensationProcessing))
  {
    hide Sum, ApproveLines, ValidGrants, Wrap64;
  }

  lemma ReviewKeeps(st: State, c: nat, merchant: bool, decision: Decision)
    requires RefundsOk(st) && Review(st, c, merchant, decision).Accepted?
    ensures RefundsOk(Review(st, c, merchant, decision).state)
  {
    hide RefundRowsOk, OneLive, Sum, ApproveCase;
    assert CaseOk(st.order, st.cases[c]);
    match decision
    case Reject => ChangeKeeps(st, c, st.cases[c].(status := CaseRejected));
    case RequestEvidence => ChangeKeeps(st, c, st.cases[c].(status := EvidenceRequired));
    case Escalate => ChangeKeeps(st, c, st.cases[c].(status := PlatformReviewing));
    case Approve(resolution, lines, refundFee) => ApproveKeeps(st, c, resolution, lines, refundFee);
  }

  lemma ReceiveKeeps(st: State, c: nat, intact: bool)
    requires RefundsOk(st) && Receive(st, c, intact).Accepted?
    ensures RefundsOk(Receive(st, c, intact).state)
  {
    assert CaseOk(st.order, st.cases[c]);
    CapOf(st.order, st.payment.amount, st.cases[c]);
    NothingReserved(st);
    hide RefundRowsOk, OneLive, Sum, Wrap64;
    if st.cases[c].kind == UnopenedReturn && !intact {
      ChangeKeeps(st, c, st.cases[c].(status := PlatformReviewing));
    } else {
      TaskKeeps(st, st, c, st.cases[c].approved, st.cases[c].(status := RefundProcessing));
    }
  }

  lemma AppealKeeps(st: State, c: nat)
    requires RefundsOk(st) && Appeal(st, c).Accepted?
    ensures RefundsOk(Appeal(st, c).state)
  {
    hide RefundRowsOk, OneLive, Sum;
    assert CaseOk(st.order, st.cases[c]);
    ChangeKeeps(st, c, st.cases[c].(status := PlatformReviewing, wasAppealed := true));
  }

  /** What an open refund could still move is within everything the ledger guards compare it with. */
  lemma OpenRefundFits(st: State, r: nat)
    requires RefundsOk(st) && r < |st.refunds| && Open(st.refunds[r].status)
    ensures var row := st.refunds[r];
            && row.owner < |st.cases| && row.amount > 0
            && st.payment.refunded + row.amount <= st.payment.amount
            && st.orderRefunded + row.amount <= st.order.paid
            && st.cases[row.owner].refunded == 0 && row.amount == st.cases[row.owner].approved
  {
    MarkRefund(st.cases, st.refunds, r, RefundPending);
    AmountsPositive(st.cases, st.refunds);
    SumAtLeast(OpenAmount(), st.refunds, r);
  }

  /** So the guards of the settlement never refuse a success. */
  lemma LedgerNeverExceeded(st: State, r: nat, report: Report)
    requires RefundsOk(st)
    ensures Settle(st, r, report) != Refused(LedgerExceeded)
  {
    if r < |st.refunds| && Open(st.refunds[r].status) {
      OpenRefundFits(st, r);
      hide RefundsOk, Wrap64;
      Unwrapped(st.payment.refunded + st.refunds[r].amount);
      Unwrapped(st.orderRefunded + st.refunds[r].amount);
      Unwrapped(st.refunds[r].amount);
    }
  }

  lemma RefundSums(refunds: seq<Refund>, r: nat, status: RefundStatus)
    requires r < |refunds| && Open(refunds[r].status)
    ensures var refunds' := refunds[r := refunds[r].(status := status)];
            && Reserved(refunds') == Reserved(refunds) - (if Open(status) then 0 else refunds[r].amount)
            && Sum(SucceededAmount(), refunds') == Sum(SucceededAmount(), refunds)
               + (if status == Succeeded then refunds[r].amount else 0)
  {
    SumUpdate(OpenAmount(), refunds, r, refunds[r].(status := status));
    SumUpdate(SucceededAmount(), refunds, r, refunds[r].(status := status));
  }

  lemma ReportKeeps(st: State, r: nat, status: RefundStatus)
    requires RefundsOk(st) && r < |st.refunds| && Open(st.refunds[r].status) && status != Succeeded
    ensures RefundsOk(st.(refunds := st.refunds[r := st.refunds[r].(status := status)]))
  {
    MarkRefund(st.cases, st.refunds, r, status);
    RefundSums(st.refunds, r, status);
    hide RefundRowsOk, OneLive, Sum, CaseOk;
  }

  lemma SuccessKeeps(st: State, r: nat)
    requires RefundsOk(st) && r < |st.refunds| && Open(st.refunds[r].status)
    ensures Settle(st, r, Success).Accepted? && RefundsOk(Settle(st, r, Success).state)
  {
    LedgerNeverExceeded(st, r, Success);
    OpenRefundFits(st, r);
    MarkRefund(st.cases, st.refunds, r, Succeeded);
    RefundSums(st.refunds, r, Succeeded);
    hide RefundRowsOk, OneLive, Sum, Wrap64;
    var row := st.refunds[r];
    var c := st.cases[row.owner];
    assert CaseOk(st.order, c);
    SumUpdate(CaseRefunded(), st.cases, row.owner, c.(refunded := row.amount, status := Completed));
    assert CaseOk(st.order, c.(refunded := row.amount, status := Completed));
  }

  lemma SettleKeeps(st: State, r: nat, report: Report)
    requires RefundsOk(st) && Settle(st, r, report).Accepted?
    ensures RefundsOk(Settle(st, r, report).state)
  {
    hide RefundsOk, Wrap64;
    match report
    case Success => SuccessKeeps(st, r);
    case Processing => ReportKeeps(st, r, RefundPending);
    case Closed => ReportKeeps(st, r, RefundFailed);
    case Abnormal => ReportKeeps(st, r, RefundException);
  }

  lemma RetryKeeps(st: State, r: nat)
    requires RefundsOk(st) && Retry(st, r).Accepted?
    ensures RefundsOk(Retry(st, r).state)
  {
    assert RefundOk(st.cases, st.refunds, r);
    var row := Refund(st.refunds[r].owner, st.refunds[r].amount, Creating, Some(r));
    AmountsPositive(st.cases, st.refunds);
    RetryFits(st, r);
    SumSnoc(OpenAmount(), st.refunds, row);
    SumSnoc(SucceededAmount(), st.refunds, row);
    AddRefund(st.cases, st.cases, st.refunds, row);
    hide RefundRowsOk, OneLive, Sum, CaseOk;
  }

  /** The sum a retry is checked with does not leave 64 bits. */
  lemma RetryFits(st: State, r: nat)
    requires RefundsOk(st) && r < |st.refunds|
    ensures Reserved(st.refunds) >= 0
    ensures Wrap64(Wrap64(st.payment.refunded + Reserved(st.refunds)) + st.refunds[r].amount)
         == st.payment.refunded + Reserved(st.refunds) + st.refunds[r].amount
  {
    NothingReserved(st);
    AmountsPositive(st.cases, st.refunds);
    assert st.refunds[r].amount <= MAX_INT64 - st.payment.amount;
    hide RefundsOk, Wrap64;
    Unwrapped(st.payment.refunded + Reserved(st.refunds));
    Unwrapped(st.payment.refunded + Reserved(st.refunds) + st.refunds[r].amount);
  }

  lemma SoundCases(st: State)
    requires RefundsOk(st)
    ensures CasesOk(st.order, st.cases)
  {
  }

  lemma StepKeepsRefunds(st: State, cmd: Command)
    requires RefundsOk(st)
    ensures RefundsOk(Next(st, cmd))
  {
    SoundCases(st);
    hide RefundsOk, CreateSeeing, Move, Appeal, Review, Receive, SystemReturn, Settle, Retry;
    if Apply(st, cmd).Accepted? {
      match cmd
      case DoCreate(kind, resolution, requests, includeFee, review) =>
        CreateKeeps(st, st.cases, kind, resolution, requests, includeFee, review);
      case DoAddEvidence(c) => MoveKeeps(st, c, {Submitted, EvidenceRequired}, Submitted);
      case DoWithdraw(c) => MoveKeeps(st, c, {Submitted, EvidenceRequired, ShopReviewing}, Withdrawn);
      case DoAppeal(c) => AppealKeeps(st, c);
      case DoReview(c, merchant, decision) => ReviewKeeps(st, c, merchant, decision);
      case DoReceive(c, intact) => ReceiveKeeps(st, c, intact);
      case DoSystemReturn(source) => SystemKeeps(st, source);
      case DoSettle(r, report) => SettleKeeps(st, r, report);
      case DoResubmit(r, status) => ReportKeeps(st, r, status);
      case DoRetry(r) => RetryKeeps(st, r);
    }
  }

  /** In every run, appeals included, refunded plus reserved never exceeds the payment, the money refunded on the
      payment, the order, the refunds and the cases agrees, and every case has at most one live refund. */
  lemma {:induction false} RunKeepsRefunds(order: Order, paymentAmount: int, cmds: seq<Command>)
    requires BoundedOrder(order, paymentAmount)
    ensures RefundsOk(Run(Fresh(order, paymentAmount), cmds))
  {
    if cmds != [] {
      RunKeepsRefunds(order, paymentAmount, cmds[..|cmds| - 1]);
      StepKeepsRefunds(Run(Fresh(order, paymentAmount), cmds[..|cmds| - 1]), cmds[|cmds| - 1]);
    }
  }

  lemma {:induction false} LineShares(order: Order, shares: seq<int>, n: nat)
    requires |shares| == |order.items| && n <= |shares|
    ensures Sum(LineAmount(), SystemLines(order, shares)[..n]) == Sum(Id(), shares[..n])
  {
    if n > 0 {
      LineShares(order, shares, n - 1);
      var lines := SystemLines(order, shares);
      assert lines[..n] == lines[..n - 1] + [lines[n - 1]] && shares[..n] == shares[..n - 1] + [shares[n - 1]];
      SumSnoc(LineAmount(), lines[..n - 1], lines[n - 1]);
      SumSnoc(Id(), shares[..n - 1], shares[n - 1]);
    }
  }

  /** A system return refunds exactly what is left of the payment: the fee and the item shares add up to it, and where
      no product wraps none of them is negative. */
  lemma SystemRefundAddsUp(order: Order, remaining: int, source: nat)
    requires order.items != [] && remaining >= 0
    ensures var c, fee := SystemCase(order, remaining, source), RefundableFee(order, remaining);
            && fee + Sum(LineAmount(), c.lines) == remaining == c.approved && 0 <= fee <= remaining
            && (Bounded(Totals(order.items), remaining - fee) ==> forall i :: 0 <= i < |c.lines| ==>
                c.lines[i].amount >= 0)
  {
    var amount := remaining - RefundableFee(order, remaining);
    var shares := Shares(Totals(order.items), amount);
    var lines := SystemLines(order, shares);
    SharesAddUp(Totals(order.items), amount);
    if Bounded(Totals(order.items), amount) { SharesNonNegative(Totals(order.items), amount); }
    LineShares(order, shares, |shares|);
    assert lines[..|lines|] == lines && shares[..|shares|] == shares;
  }
}
