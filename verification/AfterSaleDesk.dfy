/** The after-sale service as it runs: tables updated in place, totals accumulated in loops, rollback on error.
    Each method is proved to do what its specification in AfterSaleModel says. */
module AfterSaleDesk {
  import opened Sums
  import opened Machine
  import opened RefundAllocation
  import opened AfterSaleModel

  datatype Reply = Done | Replay | Rejected(error: Error)

  function ReplyTo(o: Outcome): Reply {
    match o
    case Accepted(_) => Done
    case Replayed => Replay
    case Refused(error) => Rejected(error)
  }

  lemma CheckFirst(order: Order, cases: seq<Case>, requests: seq<LineRequest>, i: nat)
    requires i < |requests|
    ensures CheckLines(order, cases, requests[i..])
         == (var first := CheckLine(order, cases, requests[i]);
             if first.Some? then first else CheckLines(order, cases, requests[i + 1..]))
  {
    assert requests[i..][0] == requests[i] && requests[i..][1..] == requests[i + 1..];
  }

  class Desk {
    const order: Order
    var cases: seq<Case>
    var payment: Account
    var orderRefunded: int
    var refunds: seq<Refund>

    function Tables(): State
      reads this
    {
      State(order, cases, payment, orderRefunded, refunds)
    }

    constructor (order: Order, paymentAmount: int)
      ensures Tables() == Fresh(order, paymentAmount)
    {
      this.order := order;
      cases, payment, orderRefunded, refunds := [], Account(paymentAmount, 0), 0, [];
    }

    /** Sums the locked reservations row by row. */
    method ReservedRefund() returns (amount: int)
      ensures amount == Reserved(refunds)
    {
      amount := 0;
      assert refunds[..0] == [];
      for i := 0 to |refunds|
        invariant amount == Reserved(refunds[..i])
      {
        assert refunds[..i + 1] == refunds[..i] + [refunds[i]];
        SumSnoc(OpenAmount(), refunds[..i], refunds[i]);
        if Open(refunds[i].status) {
          amount := amount + refunds[i].amount;
        }
      }
      assert refunds[..|refunds|] == refunds;
    }

    method ReserveRefund(c: nat, total: int) returns (reply: Reply)
      modifies this`refunds
      ensures var o := CreateRefundTask(old(Tables()), c, total);
              reply == ReplyTo(o) && Tables() == if o.Accepted? then o.state else old(Tables())
    {
      var reserved := ReservedRefund();
      if total <= 0 || Wrap64(Wrap64(payment.refunded + reserved) + total) > payment.amount {
        return Rejected(RefundExceeded);
      }
      refunds := refunds + [Refund(c, total, Creating, None)];
      reply := Done;
    }

    /** The totals active cases hold of an item, among the cases the transaction sees. */
    method ActiveRequested(seen: seq<Case>, item: nat) returns (quantity: int, amount: int)
      ensures quantity == ActiveQuantity(seen, item) && amount == ActiveAmount(seen, item)
    {
      quantity, amount := 0, 0;
      for i := 0 to |seen|
        invariant quantity == ActiveQuantity(seen[..i], item) && amount == ActiveAmount(seen[..i], item)
      {
        assert seen[..i + 1] == seen[..i] + [seen[i]];
        SumSnoc(CaseQuantity(item), seen[..i], seen[i]);
        SumSnoc(CaseAmount(item), seen[..i], seen[i]);
        if Active(seen[i]) {
          quantity := quantity + Sum(QuantityOn(item), seen[i].lines);
          amount := amount + Sum(AmountOn(item), seen[i].lines);
        }
      }
      assert seen[..|seen|] == seen;
    }

    /** Checks the requested lines one by one and collects the new case's lines and amount. */
    method CollectLines(seen: seq<Case>, requests: seq<LineRequest>)
      returns (failed: Option<Error>, lines: seq<Line>, amount: int)
      requires forall i :: 0 <= i < |requests| ==> requests[i].item < |order.items|
      ensures failed == CheckLines(order, seen, requests)
      ensures failed.None? ==> lines == LinesOf(requests) && amount == Sum(RequestedAmount(), requests)
    {
      failed, lines, amount := None, [], 0;
      assert requests[0..] == requests;
      var i := 0;
      while i < |requests|
        invariant 0 <= i <= |requests|
        invariant CheckLines(order, seen, requests) == CheckLines(order, seen, requests[i..])
        invariant lines == LinesOf(requests[..i]) && amount == Sum(RequestedAmount(), requests[..i])
      {
        var requested := requests[i];
        CheckFirst(order, seen, requests, i);
        var base := order.items[requested.item];
        var used, usedAmount := ActiveRequested(seen, requested.item);
        if requested.quantity > base.quantity - used { return Some(DuplicateActive), [], 0; }
        if base.quantity <= 0 { return Some(Invalid), [], 0; }
        if requested.amount > base.total - usedAmount || requested.amount > Proportional(base, requested.quantity) {
          return Some(AmountExceeded), [], 0;
        }
        assert requests[..i + 1] == requests[..i] + [requested];
        SumSnoc(RequestedAmount(), requests[..i], requested);
        amount := amount + requested.amount;
        lines := lines + [Line(requested.item, requested.quantity, requested.amount, 0, 0)];
        i := i + 1;
      }
      assert requests[..i] == requests;
    }

    /** Under the order's lock, but checked against `seen`: the snapshot is taken by the transaction's first plain read,
        before it gets the lock. */
    method CreateCase(seen: seq<Case>, kind: Kind, resolution: Resolution, requests: seq<LineRequest>, includeFee: bool,
                      review: bool)
      returns (reply: Reply)
      modifies this`cases
      ensures var o := CreateSeeing(old(Tables()), seen, kind, resolution, requests, includeFee, review);
              reply == ReplyTo(o) && Tables() == if o.Accepted? then o.state else old(Tables())
    {
      hide Sum, CheckLines;
      if !ValidRequest(kind, resolution, requests, includeFee) { return Rejected(Invalid); }
      if exists i :: 0 <= i < |requests| && requests[i].item >= |order.items| { return Rejected(AmountExceeded); }
      var failed, lines, amount := CollectLines(seen, requests);
      if failed.Some? { return Rejected(failed.value); }
      if includeFee {
        if FeeClaimed(seen) { return Rejected(AmountExceeded); }
        amount := amount + order.fee;
      }
      if amount <= 0 && resolution != Replacement && resolution != Compensate { return Rejected(AmountExceeded); }
      cases := cases
          + [Case(kind, resolution, if review then PlatformReviewing else Submitted, lines, includeFee, None, 0, 0,
                  false, None)];
      reply := Done;
    }

    method CustomerTransition(c: nat, appeal: bool, allowed: set<CaseStatus>, target: CaseStatus) returns (reply: Reply)
      requires appeal ==> allowed == {CaseRejected} && target == PlatformReviewing
      modifies this`cases
      ensures var o := if appeal then Appeal(old(Tables()), c) else Move(old(Tables()), c, allowed, target);
              reply == ReplyTo(o) && Tables() == if o.Accepted? then o.state else old(Tables())
    {
      if c >= |cases| { return Rejected(NotFound); }
      if cases[c].status !in allowed || (appeal && cases[c].wasAppealed) { return Rejected(StatusConflict); }
      cases := cases[c := cases[c].(status := target, wasAppealed := appeal || cases[c].wasAppealed)];
      reply := Done;
    }

    /** Fills in the approved quantities and amounts line by line. */
    method GrantLines(lines: seq<Line>, grants: map<nat, ApprovedLine>)
      returns (ok: bool, granted: seq<Line>, total: int)
      requires forall i: nat :: i in grants ==> grants[i].quantity >= 1 && grants[i].amount >= 0
      ensures ok == ValidGrants(lines, grants)
      ensures ok ==> granted == ApproveLines(lines, grants) && total == Sum(ApprovedAmount(), granted)
    {
      granted, total := [], 0;
      for i := 0 to |lines|
        invariant |granted| == i && forall k :: 0 <= k < i ==> granted[k] == ApproveLine(lines[k], grants, k)
        invariant forall k: nat :: k in grants && k < i ==>
                    grants[k].quantity <= lines[k].quantity && grants[k].amount <= lines[k].amount
        invariant total == Sum(ApprovedAmount(), granted)
      {
        var line := lines[i];
        if i in grants {
          if grants[i].quantity > line.quantity || grants[i].amount > line.amount { return false, [], 0; }
          line := line.(approvedQuantity := grants[i].quantity, approvedAmount := grants[i].amount);
        } else {
          line := line.(approvedQuantity := line.quantity, approvedAmount := line.amount);
        }
        SumSnoc(ApprovedAmount(), granted, line);
        total := total + line.approvedAmount;
        granted := granted + [line];
      }
      ok := true;
    }

    method ApproveTx(c: nat, wanted: Option<Resolution>, grants: map<nat, ApprovedLine>, refundFee: bool)
      returns (reply: Reply)
      requires c < |cases|
      modifies this`cases, this`refunds
      ensures var o := ApproveCase(old(Tables()), c, wanted, grants, refundFee);
              reply == ReplyTo(o) && Tables() == if o.Accepted? then o.state else old(Tables())
    {
      hide Sum, ApproveLines, CreateRefundTask;
      var row := cases[c];
      var resolution := if wanted.Some? then wanted.value else row.requested;
      if !ResolutionAllowed(row.kind, resolution) { return Rejected(Invalid); }
      if exists i: nat :: i in grants && (grants[i].quantity < 1 || grants[i].amount < 0) {
        return Rejected(AmountExceeded);
      }
      var ok, lines, total := GrantLines(row.lines, grants);
      if !ok { return Rejected(AmountExceeded); }
      if refundFee {
        if !row.includeFee { return Rejected(AmountExceeded); }
        total := total + order.fee;
      }
      var target := WaitingReturn;
      match resolution {
        case RefundOnly =>
          reply := ReserveRefund(c, total);
          if reply != Done { return; }
          target := RefundProcessing;
        case ReturnAndRefund =>
        case Replacement => target := ReplacementProcessing;
        case Compensate => target := CompensationProcessing;
      }
      cases := cases[c := row.(lines := lines, approval := Some(resolution), approved := total, status := target)];
      reply := Done;
    }

    method ReviewCase(c: nat, merchant: bool, decision: Decision) returns (reply: Reply)
      modifies this`cases, this`refunds
      ensures reply == ReplyTo(Review(old(Tables()), c, merchant, decision))
      ensures Tables() == Next(old(Tables()), DoReview(c, merchant, decision))
    {
      hide ApproveCase;
      if c >= |cases| { return Rejected(NotFound); }
      if merchant && cases[c].status == PlatformReviewing { return Rejected(PlatformReviewRequired); }
      if !Reviewable(cases[c].status) { return Rejected(StatusConflict); }
      var target := CaseRejected;
      match decision {
        case Reject =>
        case RequestEvidence => target := EvidenceRequired;
        case Escalate => target := PlatformReviewing;
        case Approve(resolution, lines, refundFee) =>
          reply := ApproveTx(c, resolution, lines, refundFee);
          return;
      }
      cases := cases[c := cases[c].(status := target)];
      reply := Done;
    }

    method ReceiveReturn(c: nat, intact: bool) returns (reply: Reply)
      modifies this`cases, this`refunds
      ensures reply == ReplyTo(Receive(old(Tables()), c, intact))
      ensures Tables() == Next(old(Tables()), DoReceive(c, intact))
    {
      hide CreateRefundTask;
      if c >= |cases| { return Rejected(NotFound); }
      if cases[c].status != WaitingReturn || cases[c].approval != Some(ReturnAndRefund) {
        return Rejected(StatusConflict);
      }
      var target := RefundProcessing;
      if cases[c].kind == UnopenedReturn && !intact { target := PlatformReviewing; }
      if target == RefundProcessing {
        reply := ReserveRefund(c, cases[c].approved);
        if reply != Done { return; }
      }
      cases := cases[c := cases[c].(status := target)];
      reply := Done;
    }

    method SystemDeliveryReturn(source: nat) returns (reply: Reply)
      modifies this`cases, this`refunds
      ensures reply == ReplyTo(SystemReturn(old(Tables()), source))
      ensures Tables() == Next(old(Tables()), DoSystemReturn(source))
    {
      hide Sum, Shares, Wrap64;
      if HasSource(cases, source) { return Replay; }
      if order.paid <= 0 || payment.amount <= 0 { return Rejected(StatusConflict); }
      var reserved := ReservedRefund();
      if ActiveConflicts(cases) || reserved > 0 || payment.refunded > 0 || orderRefunded > 0 {
        return Rejected(ManualReview);
      }
      var remaining := payment.amount - payment.refunded - reserved;
      if remaining <= 0 { return Rejected(ManualReview); }
      if order.items == [] { return Rejected(StatusConflict); }
      var fee := order.fee;
      if fee < 0 { fee := 0; }
      if fee > remaining { fee := remaining; }
      var goodsRefund := remaining - fee;
      var allocations := AllocateSystemRefund(Totals(order.items), goodsRefund);
      var before := cases;
      var items := [];
      for index := 0 to |order.items|
        invariant allocations[..] == Shares(Totals(order.items), goodsRefund)
        invariant |items| == index && forall k :: 0 <= k < index ==> items[k] == SystemLines(order, allocations[..])[k]
      {
        var sold := order.items[index];
        items := items + [Line(index, sold.quantity, allocations[index], sold.quantity, allocations[index])];
      }
      assert items == SystemLines(order, allocations[..]);
      cases := cases
          + [Case(OtherKind, RefundOnly, RefundProcessing, items, fee > 0, Some(RefundOnly), remaining, 0, false,
                  Some(source))];
      assert cases == before + [SystemCase(order, remaining, source)];
      reply := ReserveRefund(|before|, remaining);
      if reply != Done { cases := before; }
    }
  }
}
