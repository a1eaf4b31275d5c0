/** What an accepted after-sale command writes, told on the resulting rows: granted lines, case states, refund rows. */
module AfterSaleMeaning {
  import opened Sums
  import opened Machine
  import opened RefundAllocation
  import opened AfterSaleModel
  import opened AfterSaleRefunds
  import opened AfterSaleClaims

  // ----- approvals

  /** Every line keeps its request and carries what was granted on it, or all of its request when nothing was said. */
  predicate CarriesGrants(was: seq<Line>, lines: seq<Line>, grants: map<nat, ApprovedLine>) {
    && |lines| == |was|
    && forall i :: 0 <= i < |was| ==>
         && lines[i].item == was[i].item && lines[i].quantity == was[i].quantity && lines[i].amount == was[i].amount
         && (if i in grants
             then lines[i].approvedQuantity == grants[i].quantity && lines[i].approvedAmount == grants[i].amount
             else lines[i].approvedQuantity == was[i].quantity && lines[i].approvedAmount == was[i].amount)
  }

  function AfterApproval(resolution: Resolution): CaseStatus {
    match resolution
    case RefundOnly => RefundProcessing
    case ReturnAndRefund => WaitingReturn
    case Replacement => ReplacementProcessing
    case Compensate => CompensationProcessing
  }

  function Chosen(row: Case, wanted: Option<Resolution>): Resolution {
    match wanted
    case Some(resolution) => resolution
    case None => row.requested
  }

  /** An approval changes its own case and, when it refunds at once, reserves one refund of exactly what it approved. */
  ghost predicate Approves(st: State, st': State, c: nat, wanted: Option<Resolution>, grants: map<nat, ApprovedLine>,
                           fee: bool)
    requires c < |st.cases|
  {
    && |st'.cases| == |st.cases| && (forall d :: 0 <= d < |st.cases| && d != c ==> st'.cases[d] == st.cases[d])
    && st'.order == st.order && st'.payment == st.payment && st'.orderRefunded == st.orderRefunded
    && var was, row, resolution := st.cases[c], st'.cases[c], Chosen(st.cases[c], wanted);
       && CarriesGrants(was.lines, row.lines, grants)
       && row.approved == Sum(ApprovedAmount(), row.lines) + (if fee then st.order.fee else 0)
       && row == was.(lines := row.lines, approval := Some(resolution), approved := row.approved,
                      status := AfterApproval(resolution))
       && st'.refunds == if resolution == RefundOnly then st.refunds + [Refund(c, row.approved, Creating, None)]
          else st.refunds
  }

  lemma ApprovalExactly(st: State, c: nat, wanted: Option<Resolution>, grants: map<nat, ApprovedLine>, fee: bool)
    requires c < |st.cases| && ApproveCase(st, c, wanted, grants, fee).Accepted?
    ensures Approves(st, ApproveCase(st, c, wanted, grants, fee).state, c, wanted, grants, fee)
    ensures fee ==> st.cases[c].includeFee
    ensures forall i :: i in grants && i < |st.cases[c].lines| ==>
              && 1 <= grants[i].quantity <= st.cases[c].lines[i].quantity
              && 0 <= grants[i].amount <= st.cases[c].lines[i].amount
  {
    hide Sum, Wrap64, ResolutionAllowed;
  }

  // ----- the state of a case

  /** The state of a case after an accepted command. */
  function StatusAfter(st: State, cmd: Command, c: nat): CaseStatus
    requires c < |st.cases|
  {
    var row := st.cases[c];
    match cmd
    case DoCreate(_, _, _, _, _) => row.status
    case DoAddEvidence(d) => if d == c then Submitted else row.status
    case DoWithdraw(d) => if d == c then Withdrawn else row.status
    case DoAppeal(d) => if d == c then PlatformReviewing else row.status
    case DoReview(d, _, decision) =>
      if d != c then row.status
      else (match decision
            case Reject => CaseRejected
            case RequestEvidence => EvidenceRequired
            case Escalate => PlatformReviewing
            case Approve(wanted, _, _) => AfterApproval(Chosen(row, wanted)))
    case DoReceive(d, intact) =>
      if d != c then row.status else if row.kind == UnopenedReturn && !intact then PlatformReviewing
      else RefundProcessing
    case DoSystemReturn(_) => row.status
    case DoSettle(r, report) =>
      if report == Success && r < |st.refunds| && st.refunds[r].owner == c
          && row.refunded + st.refunds[r].amount == row.approved
      then Completed else row.status
    case DoResubmit(_, _) => row.status
    case DoRetry(_) => row.status
  }

  lemma StatusMoves(st: State, cmd: Command, c: nat)
    requires c < |st.cases| && Apply(st, cmd).Accepted?
    ensures c < |Next(st, cmd).cases| && Next(st, cmd).cases[c].status == StatusAfter(st, cmd, c)
  {
    hide Sum, Wrap64, ValidGrants, ResolutionAllowed, CheckLines, FeeClaimed, IsReplaced, ApproveLines;
  }

  // ----- the refund rows

  /** Which refund row a command adds. */
  function NewRefund(st: State, cmd: Command): Option<Refund> {
    match cmd
    case DoReview(c, _, Approve(wanted, grants, fee)) =>
      if c < |st.cases| && Chosen(st.cases[c], wanted) == RefundOnly
      then Some(Refund(c, ApprovedTotal(st.order, st.cases[c].lines, grants, fee, |st.cases[c].lines|), Creating, None))
      else None
    case DoReceive(c, intact) =>
      if c < |st.cases| && !(st.cases[c].kind == UnopenedReturn && !intact)
      then Some(Refund(c, st.cases[c].approved, Creating, None)) else None
    case DoSystemReturn(_) =>
      Some(Refund(|st.cases|, st.payment.amount - st.payment.refunded - Reserved(st.refunds), Creating, None))
    case DoRetry(r) =>
      if r < |st.refunds| then Some(Refund(st.refunds[r].owner, st.refunds[r].amount, Creating, Some(r))) else None
    case _ => None
  }

  /** What is granted on the first `n` lines, with the delivery fee when it is refunded. */
  function ApprovedTotal(order: Order, lines: seq<Line>, grants: map<nat, ApprovedLine>, fee: bool, n: nat): int
    requires n <= |lines|
  {
    if n == 0 then (if fee then order.fee else 0)
    else ApprovedTotal(order, lines, grants, fee, n - 1) + if n - 1 in grants then grants[n - 1].amount
    else lines[n - 1].amount
  }

  lemma {:induction false} GrantsTotal(order: Order, was: seq<Line>, lines: seq<Line>, grants: map<nat, ApprovedLine>,
                                       fee: bool, n: nat)
    requires CarriesGrants(was, lines, grants) && n <= |was|
    ensures ApprovedTotal(order, was, grants, fee, n)
            == Sum(ApprovedAmount(), lines[..n]) + (if fee then order.fee else 0)
  {
    if n > 0 {
      GrantsTotal(order, was, lines, grants, fee, n - 1);
      assert lines[..n][..n - 1] == lines[..n - 1];
    }
  }

  /** The state a refund row is in after an accepted command. */
  function RefundAfter(st: State, cmd: Command, r: nat): RefundStatus
    requires r < |st.refunds|
  {
    match cmd
    case DoSettle(q, report) =>
      if q != r then st.refunds[r].status
      else (match report
            case Success => Succeeded
            case Processing => RefundPending
            case Closed => RefundFailed
            case Abnormal => RefundException)
    case DoResubmit(q, status) => if q == r then status else st.refunds[r].status
    case _ => st.refunds[r].status
  }

  lemma RefundsMove(st: State, cmd: Command)
    requires Apply(st, cmd).Accepted?
    ensures var st', added := Next(st, cmd), NewRefund(st, cmd);
            && |st'.refunds| == |st.refunds| + (if added.Some? then 1 else 0)
            && (forall r: nat :: r < |st.refunds| ==>
                  st'.refunds[r] == st.refunds[r].(status := RefundAfter(st, cmd, r)))
            && (added.Some? ==> st'.refunds[|st.refunds|] == added.value)
  {
    hide Sum, Wrap64, ValidGrants, ResolutionAllowed, CheckLines, FeeClaimed, IsReplaced, ApproveLines, ApprovedTotal,
      ApproveCase;
    match cmd
    case DoReview(c, merchant, decision) =>
      if decision.Approve? {
        ApprovalExactly(st, c, decision.resolution, decision.lines, decision.refundFee);
        var row := Next(st, cmd).cases[c];
        GrantsTotal(st.order, st.cases[c].lines, row.lines, decision.lines, decision.refundFee, |row.lines|);
        assert row.lines[..|row.lines|] == row.lines;
      }
    case _ =>
  }

  // ----- approvals over runs

  datatype Approval = Approval(wanted: Option<Resolution>, grants: map<nat, ApprovedLine>, fee: bool)

  predicate ApprovesCase(st: State, cmd: Command, c: nat) {
    cmd.DoReview? && cmd.c == c && cmd.decision.Approve? && Apply(st, cmd).Accepted?
  }

  /** The last accepted approval of a case. */
  function LastApproval(st: State, cmds: seq<Command>, c: nat): Option<Approval> {
    if cmds == [] then None
    else
      var n := |cmds| - 1;
      if ApprovesCase(Run(st, cmds[..n]), cmds[n], c)
      then Some(Approval(cmds[n].decision.resolution, cmds[n].decision.lines, cmds[n].decision.refundFee))
      else LastApproval(st, cmds[..n], c)
  }

  /** The case carries exactly what its last approval granted, and nothing else was approved on it. */
  ghost predicate Stands(order: Order, row: Case, last: Option<Approval>) {
    match last
    case None => row.approval.None? && row.approved == 0
                 && forall i :: 0 <= i < |row.lines| ==>
                      row.lines[i].approvedQuantity == 0 && row.lines[i].approvedAmount == 0
    case Some(a) =>
      && CarriesGrants(row.lines, row.lines, a.grants) && row.approval == Some(Chosen(row, a.wanted))
      && row.approved == Sum(ApprovedAmount(), row.lines) + (if a.fee then order.fee else 0)
  }

  predicate SameApproval(was: Case, row: Case) {
    row.lines == was.lines && row.approval == was.approval && row.approved == was.approved
        && row.requested == was.requested
    && row.source == was.source
  }

  lemma OtherApprovals(st: State, cmd: Command, c: nat)
    requires c < |st.cases| && !ApprovesCase(st, cmd, c)
    ensures c < |Next(st, cmd).cases| && SameApproval(st.cases[c], Next(st, cmd).cases[c])
            && Next(st, cmd).order == st.order
  {
    hide Sum, Wrap64, ValidGrants, ResolutionAllowed, CheckLines, FeeClaimed, IsReplaced, ApproveLines;
  }

  lemma NewCases(st: State, cmd: Command, c: nat)
    requires |st.cases| <= c < |Next(st, cmd).cases|
    ensures Next(st, cmd).cases[c].source.None? ==> Stands(st.order, Next(st, cmd).cases[c], None)
    ensures |Next(st, cmd).cases| == |st.cases| + 1 && Next(st, cmd).order == st.order
  {
    hide Sum, Wrap64, ValidGrants, ResolutionAllowed, CheckLines, FeeClaimed, IsReplaced, ApproveLines;
  }

  lemma {:induction false} NothingApproved(st: State, cmds: seq<Command>, c: nat)
    requires c >= |Run(st, cmds).cases|
    ensures LastApproval(st, cmds, c).None? && (cmds != [] ==> c >= |Run(st, cmds[..|cmds| - 1]).cases|)
  {
    if cmds != [] {
      var n := |cmds| - 1;
      if c < |Run(st, cmds[..n]).cases| {
        CasesStay(Run(st, cmds[..n]), cmds[n]);
      }
      hide Next, Apply;
      NothingApproved(st, cmds[..n], c);
      NotThere(Run(st, cmds[..n]), cmds[n], c);
    }
  }

  lemma NotThere(st: State, cmd: Command, c: nat)
    requires c >= |st.cases|
    ensures !ApprovesCase(st, cmd, c)
  {
  }

  lemma CasesStay(st: State, cmd: Command)
    ensures |st.cases| <= |Next(st, cmd).cases| <= |st.cases| + 1 && Next(st, cmd).order == st.order
  {
    hide Sum, Wrap64, ValidGrants, ResolutionAllowed, CheckLines, FeeClaimed, IsReplaced, ApproveLines;
  }

  lemma ApprovedStands(st: State, cmd: Command, c: nat)
    requires ApprovesCase(st, cmd, c)
    ensures c < |st.cases| && c < |Next(st, cmd).cases| && Next(st, cmd).order == st.order
    ensures var d := cmd.decision;
            Stands(st.order, Next(st, cmd).cases[c], Some(Approval(d.resolution, d.lines, d.refundFee)))
    ensures Next(st, cmd).cases[c].source == st.cases[c].source
  {
    var d := cmd.decision;
    ApprovalExactly(st, c, d.resolution, d.lines, d.refundFee);
    hide ApproveCase, Sum;
  }

  /** In every run a customer's case carries exactly what its last accepted approval granted: each granted line its
      granted
      quantity and amount, every other line its request, and in total their sum, with the delivery fee exactly when that
      approval refunds it; without an approval nothing is approved. */
  lemma {:induction false} ApprovalStands(order: Order, paymentAmount: int, cmds: seq<Command>, c: nat)
    requires var st := Run(Fresh(order, paymentAmount), cmds); c < |st.cases| && st.cases[c].source.None?
    ensures var start := Fresh(order, paymentAmount);
            Stands(order, Run(start, cmds).cases[c], LastApproval(start, cmds, c)) && Run(start, cmds).order == order
  {
    var start := Fresh(order, paymentAmount);
    if cmds != [] {
      var n := |cmds| - 1;
      var st := Run(start, cmds[..n]);
      CasesStay(st, cmds[n]);
      OrderIsKept(order, paymentAmount, cmds[..n]);
      hide Next, Apply, Stands;
      if c < |st.cases| {
        if ApprovesCase(st, cmds[n], c) {
          ApprovedStands(st, cmds[n], c);
        } else {
          OtherApprovals(st, cmds[n], c);
          ApprovalStands(order, paymentAmount, cmds[..n], c);
          StandsStill(order, st.cases[c], Next(st, cmds[n]).cases[c], LastApproval(start, cmds[..n], c));
        }
      } else {
        NewCases(st, cmds[n], c);
        NothingApproved(start, cmds[..n], c);
        NotThere(st, cmds[n], c);
      }
    }
  }

  lemma StandsStill(order: Order, was: Case, row: Case, last: Option<Approval>)
    requires Stands(order, was, last) && SameApproval(was, row)
    ensures Stands(order, row, last)
  {
  }

  lemma {:induction false} OrderIsKept(order: Order, paymentAmount: int, cmds: seq<Command>)
    ensures Run(Fresh(order, paymentAmount), cmds).order == order
  {
    if cmds != [] {
      OrderIsKept(order, paymentAmount, cmds[..|cmds| - 1]);
      CasesStay(Run(Fresh(order, paymentAmount), cmds[..|cmds| - 1]), cmds[|cmds| - 1]);
    }
  }

  // ----- a system return

  /** A system return adds one case for all of the order and one refund of all that is left of the payment: the delivery
      fee first, though never more than is left, and the rest over the items. */
  lemma SystemReturnExactly(st: State, source: nat)
    requires SystemReturn(st, source).Accepted?
    ensures var st', remaining := SystemReturn(st, source).state, st.payment.amount - st.payment.refunded
            - Reserved(st.refunds);
            && |st'.cases| == |st.cases| + 1 && st'.cases[..|st.cases|] == st.cases
            && st'.refunds == st.refunds + [Refund(|st.cases|, remaining, Creating, None)]
            && st'.payment == st.payment && st'.orderRefunded == st.orderRefunded
            && var row := st'.cases[|st.cases|];
               && row.status == RefundProcessing && row.approval == Some(RefundOnly) && row.source == Some(source)
               && row.approved == remaining > 0 && row.refunded == 0 && !row.wasAppealed
               && (row.includeFee <==> st.order.fee > 0) && |row.lines| == |st.order.items|
               && (forall i :: 0 <= i < |row.lines| ==>
                     && row.lines[i].item == i && row.lines[i].quantity == row.lines[i].approvedQuantity
                        == st.order.items[i].quantity
                     && row.lines[i].amount == row.lines[i].approvedAmount)
               && Sum(LineAmount(), row.lines)
                  == remaining - (if st.order.fee <= 0 then 0 else if st.order.fee <= remaining then st.order.fee
                                  else remaining)
  {
    var remaining := st.payment.amount - st.payment.refunded - Reserved(st.refunds);
    SystemRefundAddsUp(st.order, remaining, source);
    hide Sum, Shares, Wrap64;
  }

  // ----- when a command is accepted

  /** The resolutions a customer may ask for, and a reviewer may choose. */
  function Choices(kind: Kind): set<Resolution> {
    match kind
    case UnopenedReturn => {ReturnAndRefund}
    case Damaged => {RefundOnly, Replacement}
    case MissingItem => {RefundOnly, Replacement}
    case OutOfStock => {RefundOnly}
    case LateDelivery => {Compensate}
    case OtherKind => {RefundOnly, ReturnAndRefund, Replacement, Compensate}
  }

  predicate FitsPayment(st: State, amount: int) {
    amount > 0 && st.payment.refunded + Reserved(st.refunds) + amount <= st.payment.amount
  }

  /** A line fits what is left of its order item, and asks for no more than its part of the item's total. */
  predicate LineFits(st: State, q: LineRequest) {
    && q.item < |st.order.items| && q.quantity >= 1 && q.amount >= 0
    && ActiveQuantity(st.cases, q.item) + q.quantity <= st.order.items[q.item].quantity
    && ActiveAmount(st.cases, q.item) + q.amount <= st.order.items[q.item].total
    && q.amount * st.order.items[q.item].quantity <= st.order.items[q.item].total * q.quantity
  }

  predicate GrantsFit(lines: seq<Line>, grants: map<nat, ApprovedLine>) {
    forall i :: i in grants ==>
      && grants[i].quantity >= 1 && grants[i].amount >= 0
      && (i < |lines| ==> grants[i].quantity <= lines[i].quantity && grants[i].amount <= lines[i].amount)
  }

  predicate ReviewAllowed(st: State, c: nat, merchant: bool, decision: Decision) {
    && c < |st.cases| && st.cases[c].status in {Submitted, ShopReviewing, PlatformReviewing, Appealed}
    && (merchant ==> st.cases[c].status != PlatformReviewing)
    && match decision
       case Approve(wanted, grants, fee) =>
         && Chosen(st.cases[c], wanted) in Choices(st.cases[c].kind) && GrantsFit(st.cases[c].lines, grants)
         && (fee ==> st.cases[c].includeFee)
         && (Chosen(st.cases[c], wanted) == RefundOnly ==>
               FitsPayment(st, ApprovedTotal(st.order, st.cases[c].lines, grants, fee, |st.cases[c].lines|)))
       case _ => true
  }

  predicate ReceiptAllowed(st: State, c: nat, intact: bool) {
    && c < |st.cases| && st.cases[c].status == WaitingReturn && st.cases[c].approval == Some(ReturnAndRefund)
    && ((st.cases[c].kind == UnopenedReturn && !intact) || FitsPayment(st, st.cases[c].approved))
  }

  predicate CreateAllowed(st: State, kind: Kind, resolution: Resolution, requests: seq<LineRequest>, includeFee: bool) {
    && resolution in Choices(kind) && 1 <= |requests| <= 50
    && (forall i, j :: 0 <= i < j < |requests| ==> requests[i].item != requests[j].item)
    && (forall i :: 0 <= i < |requests| ==> LineFits(st, requests[i]))
    && (includeFee ==>
          (kind == OutOfStock || kind == OtherKind)
          && forall c :: 0 <= c < |st.cases| && st.cases[c].includeFee ==>
               st.cases[c].status in {CaseRejected, Withdrawn, ClosedManual})
    && (Sum(RequestedAmount(), requests) + (if includeFee then st.order.fee else 0) > 0
        || resolution in {Replacement, Compensate})
  }

  predicate SystemReturnAllowed(st: State, source: nat) {
    && (forall c :: 0 <= c < |st.cases| ==>
          st.cases[c].source != Some(source) && st.cases[c].status in {CaseRejected, Withdrawn, ClosedManual})
    && Reserved(st.refunds) == 0 && st.payment.refunded == 0 && st.order.items != []
  }

  predicate OpenStatus(s: RefundStatus) { s in {Creating, SubmissionUnknown, RefundPending, RefundException} }

  predicate Allowed(st: State, cmd: Command) {
    match cmd
    case DoCreate(kind, resolution, requests, includeFee, _) =>
      CreateAllowed(st, kind, resolution, requests, includeFee)
    case DoAddEvidence(c) => c < |st.cases| && st.cases[c].status in {Submitted, EvidenceRequired}
    case DoWithdraw(c) => c < |st.cases| && st.cases[c].status in {Submitted, EvidenceRequired, ShopReviewing}
    case DoAppeal(c) => c < |st.cases| && st.cases[c].status == CaseRejected && !st.cases[c].wasAppealed
    case DoReview(c, merchant, decision) => ReviewAllowed(st, c, merchant, decision)
    case DoReceive(c, intact) => ReceiptAllowed(st, c, intact)
    case DoSystemReturn(source) => SystemReturnAllowed(st, source)
    case DoSettle(r, _) => r < |st.refunds| && OpenStatus(st.refunds[r].status)
    case DoResubmit(r, status) => r < |st.refunds| && OpenStatus(st.refunds[r].status) && OpenStatus(status)
    case DoRetry(r) =>
      && r < |st.refunds| && st.refunds[r].status == RefundFailed && FitsPayment(st, st.refunds[r].amount)
      && forall q :: 0 <= q < |st.refunds| ==> st.refunds[q].replacing != Some(r)
  }

  lemma ChoicesAllowed(kind: Kind, resolution: Resolution)
    ensures ResolutionAllowed(kind, resolution) <==> resolution in Choices(kind)
  {
  }

  /** Without wrap-around a reservation is accepted exactly when it fits what is left of the payment. */
  lemma ReservesExactly(st: State, c: nat, total: int)
    requires RefundsOk(st) && total <= MAX_INT64 - st.payment.amount
    ensures CreateRefundTask(st, c, total).Accepted? <==> FitsPayment(st, total)
  {
    BoundedPayment(st);
    NothingReserved(st);
    hide RefundsOk, Wrap64;
    Unwrapped(st.payment.refunded + Reserved(st.refunds));
    if total > 0 { Unwrapped(st.payment.refunded + Reserved(st.refunds) + total); }
  }

  lemma ApprovalReserves(st: State, c: nat, grants: map<nat, ApprovedLine>, fee: bool)
    requires RefundsOk(st) && c < |st.cases| && Reviewable(st.cases[c].status) && ValidGrants(st.cases[c].lines, grants)
    ensures var lines := st.cases[c].lines;
            var total := Sum(ApprovedAmount(), ApproveLines(lines, grants)) + if fee then st.order.fee else 0;
            CreateRefundTask(st, c, total).Accepted?
            <==> FitsPayment(st, ApprovedTotal(st.order, lines, grants, fee, |lines|))
  {
    hide RefundsOk, Sum, CreateRefundTask, ApprovedTotal, FitsPayment, CaseOk, CustomerLines, ApproveLines,
      CarriesGrants,
      ValidGrants, Refunding, AmountCap;
    var row := st.cases[c];
    var lines := ApproveLines(row.lines, grants);
    NotRefunding(row);
    ApprovalWithin(st, c, grants, fee);
    ReservesExactly(st, c, Sum(ApprovedAmount(), lines) + if fee then st.order.fee else 0);
    ApprovedCarry(row.lines, grants);
    GrantsTotal(st.order, row.lines, lines, grants, fee, |row.lines|);
    assert lines[..|row.lines|] == lines;
  }

  lemma NotRefunding(row: Case)
    requires Reviewable(row.status)
    ensures !Refunding(row)
  {
  }

  lemma ApprovedCarry(lines: seq<Line>, grants: map<nat, ApprovedLine>)
    ensures CarriesGrants(lines, ApproveLines(lines, grants), grants)
  {
  }

  lemma GrantsChecked(lines: seq<Line>, grants: map<nat, ApprovedLine>)
    ensures ValidGrants(lines, grants) <==> GrantsFit(lines, grants)
  {
  }

  lemma ApprovalAccepted(st: State, c: nat, wanted: Option<Resolution>, grants: map<nat, ApprovedLine>, fee: bool)
    requires RefundsOk(st) && c < |st.cases| && Reviewable(st.cases[c].status)
    ensures ApproveCase(st, c, wanted, grants, fee).Accepted?
            <==> ReviewAllowed(st, c, false, Approve(wanted, grants, fee))
  {
    hide RefundsOk, Sum, CreateRefundTask, ResolutionAllowed, ApprovedTotal, FitsPayment, Choices, CaseOk,
      CustomerLines,
      ApproveLines, ValidGrants, GrantsFit;
    var row := st.cases[c];
    ChoicesAllowed(row.kind, Chosen(row, wanted));
    GrantsChecked(row.lines, grants);
    if ValidGrants(row.lines, grants) { ApprovalReserves(st, c, grants, fee); }
  }

  lemma WithinFloor(amount: int, part: int, product: int, weight: int)
    requires weight > 0 && part * weight <= product < (part + 1) * weight
    ensures amount <= part <==> amount * weight <= product
  {
    if amount <= part { Scaled(weight, amount, part); } else { Scaled(weight, part + 1, amount); }
  }

  lemma ProportionalExactly(item: OrderItem, q: LineRequest)
    requires GoodItem(item) && 1 <= q.quantity <= item.quantity
    ensures q.amount <= Proportional(item, q.quantity) <==> q.amount * item.quantity <= item.total * q.quantity
  {
    ProportionalIsFloor(item, q.quantity);
    hide Proportional;
    assert item.total * q.quantity >= 0;
    Division(item.total * q.quantity, item.quantity);
    WithinFloor(q.amount, Proportional(item, q.quantity), item.total * q.quantity, item.quantity);
  }

  lemma LineChecked(st: State, q: LineRequest)
    requires CasesOk(st.order, st.cases) && q.quantity >= 1 && q.amount >= 0
    requires q.item < |st.order.items| ==> GoodItem(st.order.items[q.item])
    ensures CheckLine(st.order, st.cases, q).None? <==> LineFits(st, q)
  {
    if q.item < |st.order.items| {
      QuantitiesNonNegative(st.order, st.cases, q.item);
      if 1 <= q.quantity <= st.order.items[q.item].quantity { ProportionalExactly(st.order.items[q.item], q); }
    }
    hide Proportional, ActiveQuantity, ActiveAmount, CasesOk;
  }

  lemma {:induction false} LinesChecked(st: State, requests: seq<LineRequest>)
    requires CasesOk(st.order, st.cases) && forall i :: 0 <= i < |requests| ==>
               requests[i].quantity >= 1 && requests[i].amount >= 0
    requires forall i :: 0 <= i < |st.order.items| ==> GoodItem(st.order.items[i])
    ensures CheckLines(st.order, st.cases, requests).None?
            <==> forall i :: 0 <= i < |requests| ==> LineFits(st, requests[i])
  {
    if requests != [] {
      hide LineFits, CheckLine, CasesOk;
      LineChecked(st, requests[0]);
      LinesChecked(st, requests[1..]);
      assert requests == [requests[0]] + requests[1..];
    }
  }

  lemma CreateAccepted(st: State, kind: Kind, resolution: Resolution, requests: seq<LineRequest>, includeFee: bool,
                       review: bool)
    requires RefundsOk(st)
    ensures Create(st, kind, resolution, requests, includeFee, review).Accepted?
            <==> CreateAllowed(st, kind, resolution, requests, includeFee)
  {
    ChoicesAllowed(kind, resolution);
    GoodItems(st);
    SoundCases(st);
    hide RefundsOk, CasesOk, LineFits, CheckLines, ResolutionAllowed, Choices, Sum, GoodItem;
    if forall i :: 0 <= i < |requests| ==> requests[i].quantity >= 1 && requests[i].amount >= 0 {
      LinesChecked(st, requests);
    }
    forall i | 0 <= i < |requests| && LineFits(st, requests[i])
      ensures requests[i].quantity >= 1 && requests[i].amount >= 0 && requests[i].item < |st.order.items|
    {
      FittingLine(st, requests[i]);
    }
    FeeIsClaimed(st.cases);
    hide FeeClaimed;
  }

  lemma FittingLine(st: State, q: LineRequest)
    requires LineFits(st, q)
    ensures q.quantity >= 1 && q.amount >= 0 && q.item < |st.order.items|
  {
  }

  lemma FeeIsClaimed(cases: seq<Case>)
    ensures FeeClaimed(cases)
            <==> !forall c :: 0 <= c < |cases| && cases[c].includeFee ==>
                  cases[c].status in {CaseRejected, Withdrawn, ClosedManual}
  {
  }

  lemma ReceiptAccepted(st: State, c: nat, intact: bool)
    requires RefundsOk(st)
    ensures AfterSaleModel.Receive(st, c, intact).Accepted? <==> ReceiptAllowed(st, c, intact)
  {
    if c < |st.cases| && st.cases[c].status == WaitingReturn {
      SoundCases(st);
      assert CaseOk(st.order, st.cases[c]);
      CapOf(st.order, st.payment.amount, st.cases[c]);
      ReservesExactly(st, c, st.cases[c].approved);
    }
    hide RefundsOk, CreateRefundTask, Sum;
  }

  lemma SystemReturnAccepted(st: State, source: nat)
    requires RefundsOk(st)
    ensures SystemReturn(st, source).Accepted? <==> SystemReturnAllowed(st, source)
  {
    BoundedPayment(st);
    NothingReserved(st);
    PaymentTwice(st);
    var remaining := st.payment.amount - st.payment.refunded - Reserved(st.refunds);
    if Reserved(st.refunds) == 0 && st.payment.refunded == 0 {
      Unwrapped(remaining);
      Unwrapped(0);
    }
    hide RefundsOk, Wrap64, Shares, Sum;
  }

  lemma PaymentTwice(st: State)
    requires RefundsOk(st)
    ensures 0 < st.order.paid && 2 * st.payment.amount <= MAX_INT64 && st.payment.refunded == st.orderRefunded >= 0
  {
  }

  lemma SettleAccepted(st: State, r: nat, report: Report)
    requires RefundsOk(st)
    ensures Settle(st, r, report).Accepted? <==> r < |st.refunds| && OpenStatus(st.refunds[r].status)
  {
    LedgerNeverExceeded(st, r, report);
    if r < |st.refunds| { assert RefundOk(st.cases, st.refunds, r); }
    hide RefundsOk, Wrap64;
  }

  lemma RetryAccepted(st: State, r: nat)
    requires RefundsOk(st)
    ensures Retry(st, r).Accepted? <==> Allowed(st, DoRetry(r))
  {
    if r < |st.refunds| {
      RetryFits(st, r);
      AmountsPositive(st.cases, st.refunds);
      assert forall q :: 0 <= q < |st.refunds| ==>
               (ReplacedBy(st.refunds, r, q) <==> st.refunds[q].replacing == Some(r));
    }
    hide RefundsOk, Wrap64, Sum;
  }

  /** In every state of a run a command is accepted exactly when its conditions hold. */
  lemma AcceptedExactly(st: State, cmd: Command)
    requires RefundsOk(st)
    ensures Apply(st, cmd).Accepted? <==> Allowed(st, cmd)
  {
    match cmd
    case DoCreate(kind, resolution, requests, includeFee, review) =>
      CreateAccepted(st, kind, resolution, requests, includeFee, review);
      hide RefundsOk, CreateSeeing, CreateAllowed;
    case DoReview(c, merchant, decision) =>
      if c < |st.cases| && Reviewable(st.cases[c].status) && decision.Approve? {
        ApprovalAccepted(st, c, decision.resolution, decision.lines, decision.refundFee);
      }
      hide RefundsOk, ApproveCase, Choices, GrantsFit, FitsPayment, ApprovedTotal;
    case DoReceive(c, intact) => ReceiptAccepted(st, c, intact); hide RefundsOk, CreateRefundTask, ReceiptAllowed;
    case DoSystemReturn(source) => SystemReturnAccepted(st, source); hide RefundsOk, SystemReturn, SystemReturnAllowed;
    case DoSettle(r, report) => SettleAccepted(st, r, report); hide RefundsOk, Settle;
    case DoRetry(r) => RetryAccepted(st, r); hide RefundsOk, Retry;
    case _ => hide RefundsOk;
  }
}
