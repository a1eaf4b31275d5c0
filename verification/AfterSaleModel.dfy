/** The after-sale cases, refunds and payment of one order. */
module AfterSaleModel {
  import opened Sums
  import opened Machine
  import opened RefundAllocation

  // ----- rows

  datatype OrderItem = OrderItem(quantity: int, total: int)

  datatype Order = Order(items: seq<OrderItem>, fee: int, paid: int)

  datatype Kind = UnopenedReturn | Damaged | MissingItem | OutOfStock | LateDelivery | OtherKind

  datatype Resolution = RefundOnly | ReturnAndRefund | Replacement | Compensate

  datatype CaseStatus =
    | Submitted | EvidenceRequired | ShopReviewing | PlatformReviewing | Appealed
    | CaseRejected | Withdrawn | ClosedManual
    | RefundProcessing | WaitingReturn | ReplacementProcessing | CompensationProcessing | Completed

  datatype Line = Line(item: nat, quantity: int, amount: int, approvedQuantity: int, approvedAmount: int)

  datatype Case = Case(kind: Kind, requested: Resolution, status: CaseStatus, lines: seq<Line>, includeFee: bool,
                       approval: Option<Resolution>, approved: int, refunded: int, wasAppealed: bool,
                       source: Option<nat>)

  datatype RefundStatus = Creating | SubmissionUnknown | RefundPending | RefundException | Succeeded | RefundFailed

  datatype Refund = Refund(owner: nat, amount: int, status: RefundStatus, replacing: Option<nat>)

  datatype Account = Account(amount: int, refunded: int)

  datatype State = State(order: Order, cases: seq<Case>, payment: Account, orderRefunded: int, refunds: seq<Refund>)

  // ----- replies

  datatype Error =
    | Invalid | NotFound | DuplicateActive | AmountExceeded | StatusConflict | PlatformReviewRequired
    | ManualReview | RefundExceeded | LedgerExceeded | StatusRegression | RetryNotAllowed

  datatype Outcome = Accepted(state: State) | Replayed | Refused(error: Error)

  // ----- queries

  /** Cases in these states have given their claims back. */
  predicate Released(s: CaseStatus) { s == CaseRejected || s == Withdrawn || s == ClosedManual }

  predicate Active(c: Case) { !Released(c.status) }

  function QuantityOn(item: nat): Line -> int { (l: Line) => if l.item == item then l.quantity else 0 }

  function AmountOn(item: nat): Line -> int { (l: Line) => if l.item == item then l.amount else 0 }

  function CaseQuantity(item: nat): Case -> int { (c: Case) => if Active(c) then Sum(QuantityOn(item), c.lines) else 0 }

  function CaseAmount(item: nat): Case -> int { (c: Case) => if Active(c) then Sum(AmountOn(item), c.lines) else 0 }

  /** What active cases have requested of an item. */
  function ActiveQuantity(cases: seq<Case>, item: nat): int { Sum(CaseQuantity(item), cases) }

  function ActiveAmount(cases: seq<Case>, item: nat): int { Sum(CaseAmount(item), cases) }

  predicate FeeClaimed(cases: seq<Case>) {
    exists c :: 0 <= c < |cases| && cases[c].includeFee && Active(cases[c])
  }

  predicate ActiveConflicts(cases: seq<Case>) {
    exists c :: 0 <= c < |cases| && Active(cases[c])
  }

  predicate Open(s: RefundStatus) {
    s == Creating || s == SubmissionUnknown || s == RefundPending || s == RefundException
  }

  function OpenAmount(): Refund -> int { (r: Refund) => if Open(r.status) then r.amount else 0 }

  function Reserved(refunds: seq<Refund>): int { Sum(OpenAmount(), refunds) }

  predicate ReplacedBy(refunds: seq<Refund>, r: nat, q: nat) {
    q < |refunds| && refunds[q].replacing == Some(r)
  }

  predicate IsReplaced(refunds: seq<Refund>, r: nat) {
    exists q :: 0 <= q < |refunds| && ReplacedBy(refunds, r, q)
  }

  predicate ResolutionAllowed(kind: Kind, resolution: Resolution) {
    match kind
    case UnopenedReturn => resolution == ReturnAndRefund
    case Damaged => resolution == RefundOnly || resolution == Replacement
    case MissingItem => resolution == RefundOnly || resolution == Replacement
    case OutOfStock => resolution == RefundOnly
    case LateDelivery => resolution == Compensate
    case OtherKind => true
  }

  // ----- claims

  datatype LineRequest = LineRequest(item: nat, quantity: int, amount: int)

  predicate DistinctItems(requests: seq<LineRequest>) {
    forall i, j :: 0 <= i < j < |requests| ==> requests[i].item != requests[j].item
  }

  /** Go's 64-bit product and truncating division. */
  function Proportional(item: OrderItem, quantity: int): int
    requires item.quantity > 0
  {
    Part(item.total, quantity, item.quantity)
  }

  /** The check of one requested line against the order item and what active cases already claim of it. */
  function CheckLine(order: Order, cases: seq<Case>, q: LineRequest): Option<Error> {
    if q.item >= |order.items| then Some(AmountExceeded)
    else
      var base := order.items[q.item];
      if q.quantity > base.quantity - ActiveQuantity(cases, q.item) then Some(DuplicateActive)
      else if base.quantity <= 0 then Some(Invalid)
      else if q.amount > base.total - ActiveAmount(cases, q.item) || q.amount > Proportional(base, q.quantity)
        then Some(AmountExceeded)
      else None
  }

  function CheckLines(order: Order, cases: seq<Case>, requests: seq<LineRequest>): Option<Error> {
    if requests == [] then None
    else
      var first := CheckLine(order, cases, requests[0]);
      if first.Some? then first else CheckLines(order, cases, requests[1..])
  }

  function RequestedAmount(): LineRequest -> int { (q: LineRequest) => q.amount }

  function LinesOf(requests: seq<LineRequest>): seq<Line> {
    seq(|requests|, i requires 0 <= i < |requests| =>
        Line(requests[i].item, requests[i].quantity, requests[i].amount, 0, 0))
  }

  predicate ValidRequest(kind: Kind, resolution: Resolution, requests: seq<LineRequest>, includeFee: bool) {
    && ResolutionAllowed(kind, resolution) && (includeFee ==> kind == OutOfStock || kind == OtherKind)
    && 1 <= |requests| <= 50 && DistinctItems(requests)
    && forall i :: 0 <= i < |requests| ==> requests[i].quantity >= 1 && requests[i].amount >= 0
  }

  /** A customer's application, checked against the cases its transaction sees. `review` says whether it goes straight
      to the platform. */
  function CreateSeeing(st: State, seen: seq<Case>, kind: Kind, resolution: Resolution, requests: seq<LineRequest>,
                        includeFee: bool, review: bool): Outcome {
    if !ValidRequest(kind, resolution, requests, includeFee) then Refused(Invalid)
    else if exists i :: 0 <= i < |requests| && requests[i].item >= |st.order.items| then Refused(AmountExceeded)
    else
      var failed := CheckLines(st.order, seen, requests);
      if failed.Some? then Refused(failed.value)
      else if includeFee && FeeClaimed(seen) then Refused(AmountExceeded)
      else
        var amount := Sum(RequestedAmount(), requests) + if includeFee then st.order.fee else 0;
        if amount <= 0 && resolution != Replacement && resolution != Compensate then Refused(AmountExceeded)
        else Accepted(st.(cases := st.cases + [NewCase(kind, resolution, requests, includeFee, review)]))
  }

  function NewCase(kind: Kind, resolution: Resolution, requests: seq<LineRequest>, includeFee: bool, review: bool): Case
  {
    Case(kind, resolution, if review then PlatformReviewing else Submitted, LinesOf(requests), includeFee, None, 0, 0,
         false, None)
  }

  /** An application nothing happens beside: it sees the current cases. */
  function Create(st: State, kind: Kind, resolution: Resolution, requests: seq<LineRequest>, includeFee: bool,
                  review: bool): Outcome
  {
    CreateSeeing(st, st.cases, kind, resolution, requests, includeFee, review)
  }

  // ----- transitions

  function SetCase(st: State, c: nat, row: Case): State
    requires c < |st.cases|
  {
    st.(cases := st.cases[c := row])
  }

  function Move(st: State, c: nat, allowed: set<CaseStatus>, target: CaseStatus): Outcome {
    if c >= |st.cases| then Refused(NotFound)
    else if st.cases[c].status !in allowed then Refused(StatusConflict)
    else Accepted(SetCase(st, c, st.cases[c].(status := target)))
  }

  function AddEvidence(st: State, c: nat): Outcome {
    Move(st, c, {Submitted, EvidenceRequired}, Submitted)
  }

  function Withdraw(st: State, c: nat): Outcome {
    Move(st, c, {Submitted, EvidenceRequired, ShopReviewing}, Withdrawn)
  }

  /** A rejected case comes back once; nothing is checked against the claims made since. */
  function Appeal(st: State, c: nat): Outcome {
    if c >= |st.cases| then Refused(NotFound)
    else if st.cases[c].status != CaseRejected || st.cases[c].wasAppealed then Refused(StatusConflict)
    else Accepted(SetCase(st, c, st.cases[c].(status := PlatformReviewing, wasAppealed := true)))
  }

  datatype ApprovedLine = ApprovedLine(quantity: int, amount: int)

  datatype Decision = Reject | RequestEvidence | Escalate
                    | Approve(resolution: Option<Resolution>, lines: map<nat, ApprovedLine>, refundFee: bool)

  predicate Reviewable(s: CaseStatus) {
    s == Submitted || s == ShopReviewing || s == PlatformReviewing || s == Appealed
  }

  function ApproveLine(l: Line, grants: map<nat, ApprovedLine>, i: nat): Line {
    if i in grants then l.(approvedQuantity := grants[i].quantity, approvedAmount := grants[i].amount)
    else l.(approvedQuantity := l.quantity, approvedAmount := l.amount)
  }

  function ApproveLines(lines: seq<Line>, grants: map<nat, ApprovedLine>): (r: seq<Line>)
    ensures |r| == |lines|
  {
    seq(|lines|, i requires 0 <= i < |lines| => ApproveLine(lines[i], grants, i))
  }

  function ApprovedAmount(): Line -> int { (l: Line) => l.approvedAmount }

  predicate ValidGrants(lines: seq<Line>, grants: map<nat, ApprovedLine>) {
    && (forall i: nat :: i in grants ==> grants[i].quantity >= 1 && grants[i].amount >= 0)
    && (forall i: nat :: i in grants && i < |lines| ==>
        grants[i].quantity <= lines[i].quantity && grants[i].amount <= lines[i].amount)
  }

  /** Reserves a refund against the payment. */
  function CreateRefundTask(st: State, c: nat, total: int): Outcome {
    if total <= 0 || Wrap64(Wrap64(st.payment.refunded + Reserved(st.refunds)) + total) > st.payment.amount
    then Refused(RefundExceeded)
    else Accepted(st.(refunds := st.refunds + [Refund(c, total, Creating, None)]))
  }

  function ApproveCase(st: State, c: nat, wanted: Option<Resolution>, grants: map<nat, ApprovedLine>,
                       refundFee: bool): Outcome
    requires c < |st.cases|
  {
    var row := st.cases[c];
    var resolution := if wanted.Some? then wanted.value else row.requested;
    if !ResolutionAllowed(row.kind, resolution) then Refused(Invalid)
    else if !ValidGrants(row.lines, grants) then Refused(AmountExceeded)
    else if refundFee && !row.includeFee then Refused(AmountExceeded)
    else
      var lines := ApproveLines(row.lines, grants);
      var total := Sum(ApprovedAmount(), lines) + if refundFee then st.order.fee else 0;
      var row' := row.(lines := lines, approval := Some(resolution), approved := total);
      match resolution
      case RefundOnly =>
        (match CreateRefundTask(st, c, total)
         case Accepted(st') => Accepted(SetCase(st', c, row'.(status := RefundProcessing)))
         case other => other)
      case ReturnAndRefund => Accepted(SetCase(st, c, row'.(status := WaitingReturn)))
      case Replacement => Accepted(SetCase(st, c, row'.(status := ReplacementProcessing)))
      case Compensate => Accepted(SetCase(st, c, row'.(status := CompensationProcessing)))
  }

  function Review(st: State, c: nat, merchant: bool, decision: Decision): Outcome {
    if c >= |st.cases| then Refused(NotFound)
    else if merchant && st.cases[c].status == PlatformReviewing then Refused(PlatformReviewRequired)
    else if !Reviewable(st.cases[c].status) then Refused(StatusConflict)
    else
      match decision
      case Reject => Accepted(SetCase(st, c, st.cases[c].(status := CaseRejected)))
      case RequestEvidence => Accepted(SetCase(st, c, st.cases[c].(status := EvidenceRequired)))
      case Escalate => Accepted(SetCase(st, c, st.cases[c].(status := PlatformReviewing)))
      case Approve(resolution, lines, refundFee) => ApproveCase(st, c, resolution, lines, refundFee)
  }

  /** The goods came back; broken seals send an unopened return to the platform instead of refunding it. */
  function Receive(st: State, c: nat, intact: bool): Outcome {
    if c >= |st.cases| then Refused(NotFound)
    else if st.cases[c].status != WaitingReturn || st.cases[c].approval != Some(ReturnAndRefund)
      then Refused(StatusConflict)
    else if st.cases[c].kind == UnopenedReturn && !intact
      then Accepted(SetCase(st, c, st.cases[c].(status := PlatformReviewing)))
    else
      match CreateRefundTask(st, c, st.cases[c].approved)
      case Accepted(st') => Accepted(SetCase(st', c, st.cases[c].(status := RefundProcessing)))
      case other => other
  }

  function Totals(items: seq<OrderItem>): seq<int> { seq(|items|, i requires 0 <= i < |items| => items[i].total) }

  function RefundableFee(order: Order, remaining: int): int {
    var fee := if order.fee < 0 then 0 else order.fee;
    if fee > remaining then remaining else fee
  }

  function SystemLines(order: Order, shares: seq<int>): seq<Line>
    requires |shares| == |order.items|
  {
    seq(|order.items|, i requires 0 <= i < |order.items| =>
      Line(i, order.items[i].quantity, shares[i], order.items[i].quantity, shares[i]))
  }

  function SystemCase(order: Order, remaining: int, source: nat): Case {
    var fee := RefundableFee(order, remaining);
    var shares := Shares(Totals(order.items), remaining - fee);
    Case(OtherKind, RefundOnly, RefundProcessing, SystemLines(order, shares), fee > 0, Some(RefundOnly), remaining, 0,
         false, Some(source))
  }

  predicate HasSource(cases: seq<Case>, source: nat) {
    exists c :: 0 <= c < |cases| && cases[c].source == Some(source)
  }

  /** The full refund of a failed delivery. */
  function SystemReturn(st: State, source: nat): Outcome {
    if HasSource(st.cases, source) then Replayed
    else if st.order.paid <= 0 || st.payment.amount <= 0 then Refused(StatusConflict)
    else if ActiveConflicts(st.cases) || Reserved(st.refunds) > 0 || st.payment.refunded > 0 || st.orderRefunded > 0
    then Refused(ManualReview)
    else
      var remaining := st.payment.amount - st.payment.refunded - Reserved(st.refunds);
      if remaining <= 0 then Refused(ManualReview)
      else if st.order.items == [] then Refused(StatusConflict)
      else CreateRefundTask(st.(cases := st.cases + [SystemCase(st.order, remaining, source)]), |st.cases|, remaining)
  }

  // ----- settlement

  datatype Report = Success | Processing | Closed | Abnormal

  /** The provider's word on a refund. */
  function Settle(st: State, r: nat, report: Report): Outcome {
    if r >= |st.refunds| || st.refunds[r].owner >= |st.cases| then Refused(NotFound)
    else
      var row := st.refunds[r];
      if row.status == Succeeded then (if report == Success then Replayed else Refused(StatusRegression))
      else if row.status == RefundFailed then (if report == Closed then Replayed else Refused(StatusRegression))
      else
        match report
        case Success =>
          var c := st.cases[row.owner];
          if Wrap64(st.payment.refunded + row.amount) > st.payment.amount
             || Wrap64(st.orderRefunded + row.amount) > st.order.paid
             || Wrap64(c.refunded + row.amount) > c.approved
          then Refused(LedgerExceeded)
          else
            var done := c.refunded + row.amount == c.approved;
            Accepted(SetCase(st, row.owner,
                             c.(refunded := c.refunded + row.amount, status := if done then Completed else c.status))
              .(payment := st.payment.(refunded := st.payment.refunded + row.amount),
                orderRefunded := st.orderRefunded + row.amount,
                refunds := st.refunds[r := row.(status := Succeeded)]))
        case Processing => Accepted(st.(refunds := st.refunds[r := row.(status := RefundPending)]))
        case Closed => Accepted(st.(refunds := st.refunds[r := row.(status := RefundFailed)]))
        case Abnormal => Accepted(st.(refunds := st.refunds[r := row.(status := RefundException)]))
  }

  /** The submission worker moves an open refund between the open states. */
  function Resubmit(st: State, r: nat, status: RefundStatus): Outcome {
    if r >= |st.refunds| then Refused(NotFound)
    else if !Open(st.refunds[r].status) || !Open(status) then Refused(RetryNotAllowed)
    else Accepted(st.(refunds := st.refunds[r := st.refunds[r].(status := status)]))
  }

  /** Retrying a closed refund reserves the amount again under a new refund. */
  function Retry(st: State, r: nat): Outcome {
    if r >= |st.refunds| then Refused(NotFound)
    else if st.refunds[r].status != RefundFailed then Refused(RetryNotAllowed)
    else if IsReplaced(st.refunds, r) then Replayed
    else if Wrap64(Wrap64(st.payment.refunded + Reserved(st.refunds)) + st.refunds[r].amount) > st.payment.amount
      then Refused(RefundExceeded)
    else Accepted(st.(refunds := st.refunds + [Refund(st.refunds[r].owner, st.refunds[r].amount, Creating, Some(r))]))
  }

  // ----- steps

  datatype Command =
    | DoCreate(kind: Kind, resolution: Resolution, requests: seq<LineRequest>, includeFee: bool, review: bool)
    | DoAddEvidence(c: nat)
    | DoWithdraw(c: nat)
    | DoAppeal(c: nat)
    | DoReview(c: nat, merchant: bool, decision: Decision)
    | DoReceive(c: nat, intact: bool)
    | DoSystemReturn(source: nat)
    | DoSettle(refund: nat, report: Report)
    | DoResubmit(refund: nat, status: RefundStatus)
    | DoRetry(refund: nat)

  function Apply(st: State, cmd: Command): Outcome {
    match cmd
    case DoCreate(kind, resolution, requests, includeFee, review) =>
      Create(st, kind, resolution, requests, includeFee, review)
    case DoAddEvidence(c) => AddEvidence(st, c)
    case DoWithdraw(c) => Withdraw(st, c)
    case DoAppeal(c) => Appeal(st, c)
    case DoReview(c, merchant, decision) => Review(st, c, merchant, decision)
    case DoReceive(c, intact) => Receive(st, c, intact)
    case DoSystemReturn(source) => SystemReturn(st, source)
    case DoSettle(r, report) => Settle(st, r, report)
    case DoResubmit(r, status) => Resubmit(st, r, status)
    case DoRetry(r) => Retry(st, r)
  }

  function Next(st: State, cmd: Command): State {
    match Apply(st, cmd)
    case Accepted(st') => st'
    case _ => st
  }

  function Run(st: State, cmds: seq<Command>): State {
    if cmds == [] then st else Next(Run(st, cmds[..|cmds| - 1]), cmds[|cmds| - 1])
  }

  function Fresh(order: Order, paymentAmount: int): State {
    State(order, [], Account(paymentAmount, 0), 0, [])
  }
}
