/** Concrete runs of applications and appeals that claim more than was ordered. */
module AfterSaleCorners {
  import opened Sums
  import opened Machine
  import opened AfterSaleModel
  import opened AfterSaleRefunds
  import opened AfterSaleClaims
  import I = AfterSaleInterleaving

  /** Two single pieces of 10 and a delivery fee of 5. */
  const PIECES: Order := Order([OrderItem(1, 10), OrderItem(1, 10)], 5, 25)

  function Wants(item: nat): seq<LineRequest> { [LineRequest(item, 1, 10)] }

  function Claim(item: nat, fee: bool): Command { DoCreate(OtherKind, RefundOnly, Wants(item), fee, false) }

  function Claimed(item: nat, fee: bool): Case { NewCase(OtherKind, RefundOnly, Wants(item), fee, false) }

  predicate Unclaimed(cases: seq<Case>, item: nat, fee: bool) {
    ActiveQuantity(cases, item) == 0 && ActiveAmount(cases, item) == 0 && (fee ==> !FeeClaimed(cases))
  }

  /** A claim on a piece its transaction sees unclaimed is accepted. */
  lemma ClaimAccepted(st: State, seen: seq<Case>, item: nat, fee: bool)
    requires st.order == PIECES && item < 2 && Unclaimed(seen, item, fee)
    ensures CreateSeeing(st, seen, OtherKind, RefundOnly, Wants(item), fee, false)
            == Accepted(st.(cases := st.cases + [Claimed(item, fee)]))
  {
    var q := LineRequest(item, 1, 10);
    assert CheckLine(st.order, seen, q) == None;
    assert CheckLines(st.order, seen, [q]) == None;
    SumSnoc(RequestedAmount(), [], q);
    assert [] + [q] == [q];
  }

  lemma InactiveUnclaimed(cases: seq<Case>, item: nat, fee: bool)
    requires forall c :: 0 <= c < |cases| ==> !Active(cases[c])
    ensures Unclaimed(cases, item, fee)
  {
    SumZero(CaseQuantity(item), cases);
    SumZero(CaseAmount(item), cases);
  }

  lemma ClaimedQuantity(c: Case, item: nat)
    requires Active(c) && c.lines == Claimed(item, false).lines
    ensures forall other: nat :: CaseQuantity(other)(c) == if other == item then 1 else 0
    ensures forall other: nat :: CaseAmount(other)(c) == if other == item then 10 else 0
  {
    var l := c.lines[0];
    assert c.lines == [] + [l];
    forall other: nat
      ensures CaseQuantity(other)(c) == if other == item then 1 else 0
      ensures CaseAmount(other)(c) == if other == item then 10 else 0
    {
      SumSnoc(QuantityOn(other), [], l);
      SumSnoc(AmountOn(other), [], l);
    }
  }

  lemma TwoClaims(c: Case, d: Case, item: nat)
    requires Active(c) && Active(d) && c.lines == d.lines == Claimed(item, false).lines
    ensures ActiveQuantity([c, d], item) == 2
  {
    ClaimedQuantity(c, item);
    ClaimedQuantity(d, item);
    assert [c, d] == [c] + [d] && [c] == [] + [c];
    SumSnoc(CaseQuantity(item), [c], d);
    SumSnoc(CaseQuantity(item), [], c);
  }

  lemma OneClaim(c: Case, item: nat, other: nat)
    requires other != item && (Active(c) ==> c.lines == Claimed(item, false).lines)
    ensures ActiveQuantity([c], other) == 0 && ActiveAmount([c], other) == 0
  {
    if Active(c) { ClaimedQuantity(c, item); }
    assert [c] == [] + [c];
    SumSnoc(CaseQuantity(other), [], c);
    SumSnoc(CaseAmount(other), [], c);
  }

  // ----- appeals

  lemma FourSteps(st: State, cmds: seq<Command>)
    requires |cmds| == 4
    ensures Run(st, cmds) == Next(Next(Next(Next(st, cmds[0]), cmds[1]), cmds[2]), cmds[3])
  {
    hide Next;
    assert cmds[..3][..2] == cmds[..2] && cmds[..2][..1] == cmds[..1] && cmds[..1][..0] == [];
    assert Run(st, cmds[..1]) == Next(st, cmds[0]);
    assert Run(st, cmds[..2]) == Next(Run(st, cmds[..1]), cmds[1]);
    assert Run(st, cmds[..3]) == Next(Run(st, cmds[..2]), cmds[2]);
  }

  /** Claimed, rejected, something else claimed, and appealed: both cases end up active. */
  lemma RejectClaimAppeal(item: nat, fee: bool)
    requires item < 2
    ensures Run(Fresh(PIECES, 25), [Claim(0, fee), DoReview(0, true, Reject), Claim(item, fee), DoAppeal(0)]).cases
         == [Claimed(0, fee).(status := PlatformReviewing, wasAppealed := true), Claimed(item, fee)]
  {
    var cmds := [Claim(0, fee), DoReview(0, true, Reject), Claim(item, fee), DoAppeal(0)];
    var s0 := Fresh(PIECES, 25);
    var s1 := s0.(cases := [Claimed(0, fee)]);
    var s2 := s0.(cases := [Claimed(0, fee).(status := CaseRejected)]);
    var s3 := s2.(cases := s2.cases + [Claimed(item, fee)]);
    InactiveUnclaimed([], 0, fee);
    InactiveUnclaimed(s2.cases, item, fee);
    ClaimAccepted(s0, [], 0, fee);
    ClaimAccepted(s2, s2.cases, item, fee);
    FourSteps(s0, cmds);
    Rejects(s1, Claimed(0, fee));
    Appeals(s3, Claimed(0, fee), Claimed(item, fee));
    assert Next(s0, cmds[0]) == s1 && Next(s2, cmds[2]) == s3;
    hide Next, Sum, Run;
  }

  lemma Rejects(st: State, c: Case)
    requires st.cases == [c] && c.status == Submitted
    ensures Next(st, DoReview(0, true, Reject)) == st.(cases := [c.(status := CaseRejected)])
  {
  }

  lemma Appeals(st: State, c: Case, d: Case)
    requires st.cases == [c.(status := CaseRejected), d] && !c.wasAppealed
    ensures Next(st, DoAppeal(0)) == st.(cases := [c.(status := PlatformReviewing, wasAppealed := true), d])
  {
  }

  /** One piece ordered, two active claims on it: rejected, claimed again, then appealed. */
  lemma AppealBreaksCaps()
    ensures var st :=
            Run(Fresh(PIECES, 25), [Claim(0, false), DoReview(0, true, Reject), Claim(0, false), DoAppeal(0)]);
            ActiveQuantity(st.cases, 0) == 2
  {
    RejectClaimAppeal(0, false);
    TwoClaims(Claimed(0, false).(status := PlatformReviewing, wasAppealed := true), Claimed(0, false), 0);
  }

  /** Every line of the appealed case fits, and yet the delivery fee is claimed twice. */
  lemma AppealClaimsFeeAgain()
    ensures var st := Run(Fresh(PIECES, 25), [Claim(0, true), DoReview(0, true, Reject), Claim(1, true), DoAppeal(0)]);
            |st.cases| == 2 && ClaimsFee(st.cases[0]) && ClaimsFee(st.cases[1]) && !FeeOnce(st.cases)
            && AllFit(PIECES, [st.cases[1]], st.cases[0].lines)
  {
    RejectClaimAppeal(1, true);
    OneClaim(Claimed(1, true), 1, 0);
  }

  // ----- snapshots

  lemma TraceAt(s: I.System, events: seq<I.Event>, n: nat)
    requires n < |events|
    ensures I.Trace(s, events[..n + 1]) == I.Fire(I.Trace(s, events[..n]), events[n])
    ensures I.Trace(s, events[..0]) == s && events[..|events|] == events
  {
    assert events[..n + 1][..n] == events[..n];
  }

  function Begins(item: nat, fee: bool): I.Event { I.Begin(OtherKind, RefundOnly, Wants(item), fee, false) }

  function Open(item: nat, fee: bool): Option<I.Application> {
    Some(I.Application([], OtherKind, RefundOnly, Wants(item), fee, false))
  }

  /** Two applications that both took their snapshot before either got the order's lock are both accepted. */
  lemma BothAccepted(item: nat, fee: bool)
    requires item < 2
    ensures I.Trace(I.Start(PIECES, 25), [Begins(0, fee), Begins(item, fee), I.Insert(0), I.Insert(1)]).st.cases
         == [Claimed(0, fee), Claimed(item, fee)]
  {
    var events := [Begins(0, fee), Begins(item, fee), I.Insert(0), I.Insert(1)];
    var s := I.Start(PIECES, 25);
    TraceAt(s, events, 0);
    TraceAt(s, events, 1);
    TraceAt(s, events, 2);
    TraceAt(s, events, 3);
    InactiveUnclaimed([], 0, fee);
    InactiveUnclaimed([], item, fee);
    ClaimAccepted(s.st, [], 0, fee);
    ClaimAccepted(s.st.(cases := [Claimed(0, fee)]), [], item, fee);
    hide CreateSeeing, Sum, I.Trace;
    assert I.Trace(s, events[..2]) == I.System(s.st, [Open(0, fee), Open(item, fee)]);
    assert I.Trace(s, events[..3]) == I.System(s.st.(cases := [Claimed(0, fee)]), [None, Open(item, fee)]);
  }

  /** So two applications can claim the same piece without any appeal. */
  lemma SnapshotsClaimTwice()
    ensures var s := I.Trace(I.Start(PIECES, 25), [Begins(0, false), Begins(0, false), I.Insert(0), I.Insert(1)]);
            ActiveQuantity(s.st.cases, 0) == 2 && s.st.order.items == PIECES.items
  {
    BothAccepted(0, false);
    TwoClaims(Claimed(0, false), Claimed(0, false), 0);
    OrderOfTrace([Begins(0, false), Begins(0, false), I.Insert(0), I.Insert(1)]);
  }

  /** Or the same delivery fee. */
  lemma SnapshotsClaimFeeTwice()
    ensures var s := I.Trace(I.Start(PIECES, 25), [Begins(0, true), Begins(1, true), I.Insert(0), I.Insert(1)]);
            !FeeOnce(s.st.cases)
  {
    BothAccepted(1, true);
    var cases := [Claimed(0, true), Claimed(1, true)];
    assert ClaimsFee(cases[0]) && ClaimsFee(cases[1]);
  }

  lemma OrderOfTrace(events: seq<I.Event>)
    ensures I.Trace(I.Start(PIECES, 25), events).st.order == PIECES
  {
    PiecesBounded();
    I.TraceKeepsRefunds(PIECES, 25, events);
  }

  lemma PiecesBounded()
    ensures BoundedOrder(PIECES, 25)
  {
    assert TopTotal(PIECES, 25, 10);
  }

  /** And an application that began before a system return is accepted right after it. */
  lemma ClaimAfterSystemReturn()
    ensures var events := [Begins(0, false), I.Other(DoSystemReturn(1)), I.Insert(0)];
            var s := I.Trace(I.Start(PIECES, 25), events);
            |s.st.cases| == 2 && s.st.cases[0].source == Some(1) && s.st.cases[1] == Claimed(0, false) && !I.Capped(s)
  {
    var events := [Begins(0, false), I.Other(DoSystemReturn(1)), I.Insert(0)];
    var s := I.Start(PIECES, 25);
    TraceAt(s, events, 0);
    TraceAt(s, events, 1);
    TraceAt(s, events, 2);
    ReturnsAll(s.st);
    var st := Next(s.st, DoSystemReturn(1));
    InactiveUnclaimed([], 0, false);
    ClaimAccepted(st, [], 0, false);
    PiecesBounded();
    I.TraceKeepsRefunds(PIECES, 25, events[..2]);
    hide CreateSeeing, Sum, I.Trace, Next;
    assert I.Trace(s, events[..2]) == I.System(st, [Open(0, false)]);
    var t := I.Trace(s, events);
    assert t.st.cases == st.cases + [Claimed(0, false)];
    SystemTakesAll(PIECES, st.cases, 0, 0);
    SumSnoc(CaseQuantity(0), st.cases, Claimed(0, false));
    ClaimedQuantity(Claimed(0, false), 0);
    assert ActiveQuantity(t.st.cases, 0) > PIECES.items[0].quantity;
  }

  lemma ReturnsAll(st: State)
    requires st == Fresh(PIECES, 25)
    ensures var st' := Next(st, DoSystemReturn(1));
            |st'.cases| == 1 && st'.cases[0].source == Some(1) && st'.order == PIECES
  {
    hide RefundAllocation.Shares;
  }
}
