/** Who decides a case once the platform has it: when the merchant's decisions are refused, and when they are not. */
module AfterSaleReview {
  import opened Sums
  import opened Machine
  import opened AfterSaleModel
  import opened AfterSaleRefunds

  /** The merchant may review a case in these states. */
  predicate WithMerchant(s: CaseStatus) { Reviewable(s) && s != PlatformReviewing }

  /** A merchant's rejection goes through exactly in those states, and in every other state all its decisions are
      refused. */
  lemma MerchantDecides(st: State, c: nat)
    requires c < |st.cases|
    ensures Review(st, c, true, Reject).Accepted? <==> WithMerchant(st.cases[c].status)
    ensures !WithMerchant(st.cases[c].status) ==> forall d: Decision :: Review(st, c, true, d).Refused?
  {
  }

  predicate AcceptedAt(st: State, cmds: seq<Command>, i: nat)
    requires i < |cmds|
  {
    Apply(Run(st, cmds[..i]), cmds[i]).Accepted?
  }

  /** The commands that decide or end a case. */
  predicate Disposes(cmd: Command, c: nat) {
    match cmd
    case DoReview(d, _, _) => d == c
    case DoWithdraw(d) => d == c
    case _ => false
  }

  predicate AsksEvidence(cmd: Command, c: nat) {
    cmd.DoReview? && cmd.c == c && cmd.decision == RequestEvidence
  }

  /** Step `i` added evidence to the case, and nothing decided or ended it since. */
  predicate ReturnedAt(st: State, cmds: seq<Command>, c: nat, i: nat)
    requires i < |cmds|
  {
    && cmds[i] == DoAddEvidence(c) && AcceptedAt(st, cmds, i)
    && forall j :: i < j < |cmds| ==> !(Disposes(cmds[j], c) && AcceptedAt(st, cmds, j))
  }

  predicate Returned(st: State, cmds: seq<Command>, c: nat) {
    exists i :: 0 <= i < |cmds| && ReturnedAt(st, cmds, c, i)
  }

  /** How an accepted command may move a case. */
  predicate MovesCase(st: State, st': State, cmd: Command, c: nat)
    requires c < |st.cases|
  {
    && c < |st'.cases|
    && (cmd == DoAddEvidence(c) ==> WithMerchant(st'.cases[c].status))
    && (Disposes(cmd, c) ==> !WithMerchant(st'.cases[c].status))
    && (cmd != DoAddEvidence(c) && !Disposes(cmd, c) ==>
        (WithMerchant(st'.cases[c].status) <==> WithMerchant(st.cases[c].status)))
    && (st'.cases[c].status == EvidenceRequired ==> AsksEvidence(cmd, c) || st.cases[c].status == EvidenceRequired)
  }

  lemma TaskStatus(st: State, d: nat, total: int)
    ensures CreateRefundTask(st, d, total).Accepted? ==> CreateRefundTask(st, d, total).state.cases == st.cases
  {
    hide Sum, Wrap64;
  }

  lemma ApproveStatus(st: State, d: nat, wanted: Option<Resolution>, grants: map<nat, ApprovedLine>, refundFee: bool)
    requires d < |st.cases| && ApproveCase(st, d, wanted, grants, refundFee).Accepted?
    ensures var st' := ApproveCase(st, d, wanted, grants, refundFee).state;
            && |st'.cases| == |st.cases| && (forall c :: 0 <= c < |st.cases| && c != d ==> st'.cases[c] == st.cases[c])
            && !WithMerchant(st'.cases[d].status) && st'.cases[d].status != EvidenceRequired
  {
    ApprovalGrants(st, d, wanted, grants, refundFee);
    hide ApproveCase, Sum, ApproveLines, ValidGrants, CreateRefundTask;
  }

  lemma ReviewStatus(st: State, d: nat, merchant: bool, decision: Decision, c: nat)
    requires c < |st.cases| && Review(st, d, merchant, decision).Accepted?
    ensures MovesCase(st, Review(st, d, merchant, decision).state, DoReview(d, merchant, decision), c)
  {
    hide ApproveCase;
    if decision.Approve? { ApproveStatus(st, d, decision.resolution, decision.lines, decision.refundFee); }
  }

  lemma SettleStatus(st: State, r: nat, report: Report, c: nat)
    requires RefundsOk(st) && c < |st.cases| && Settle(st, r, report).Accepted?
    ensures MovesCase(st, Settle(st, r, report).state, DoSettle(r, report), c)
  {
    hide Sum, Wrap64;
    if report == Success {
      assert RefundOk(st.cases, st.refunds, r);
    }
    hide RefundsOk;
  }

  lemma ReceiveStatus(st: State, d: nat, intact: bool, c: nat)
    requires c < |st.cases| && Receive(st, d, intact).Accepted?
    ensures MovesCase(st, Receive(st, d, intact).state, DoReceive(d, intact), c)
  {
    if d < |st.cases| { TaskStatus(st, d, st.cases[d].approved); }
    hide CreateRefundTask;
  }

  lemma SystemStatus(st: State, source: nat, c: nat)
    requires c < |st.cases| && SystemReturn(st, source).Accepted?
    ensures MovesCase(st, SystemReturn(st, source).state, DoSystemReturn(source), c)
  {
    var remaining := st.payment.amount - st.payment.refunded - Reserved(st.refunds);
    TaskStatus(st.(cases := st.cases + [SystemCase(st.order, remaining, source)]), |st.cases|, remaining);
    hide CreateRefundTask, Sum, SystemCase;
  }

  lemma StepStatus(st: State, cmd: Command, c: nat)
    requires RefundsOk(st) && c < |st.cases| && Apply(st, cmd).Accepted?
    ensures MovesCase(st, Next(st, cmd), cmd, c)
  {
    hide Sum, Wrap64, RefundsOk, Settle, Review, Receive, SystemReturn, CheckLines, FeeClaimed;
    match cmd
    case DoReview(d, merchant, decision) => ReviewStatus(st, d, merchant, decision, c);
    case DoSettle(r, report) => SettleStatus(st, r, report, c);
    case DoReceive(d, intact) => ReceiveStatus(st, d, intact, c);
    case DoSystemReturn(source) => SystemStatus(st, source, c);
    case _ =>
  }

  lemma {:induction false} RunKeepsOk(st: State, cmds: seq<Command>, c: nat)
    requires RefundsOk(st) && c < |st.cases|
    ensures RefundsOk(Run(st, cmds)) && c < |Run(st, cmds).cases|
  {
    if cmds != [] {
      hide RefundsOk, Next;
      var n := |cmds| - 1;
      RunKeepsOk(st, cmds[..n], c);
      var mid := Run(st, cmds[..n]);
      StepKeepsRefunds(mid, cmds[n]);
      CaseStays(mid, cmds[n], c);
    }
  }

  lemma CaseStays(st: State, cmd: Command, c: nat)
    requires RefundsOk(st) && c < |st.cases|
    ensures c < |Next(st, cmd).cases|
  {
    hide RefundsOk, Apply;
    if Apply(st, cmd).Accepted? { StepStatus(st, cmd, c); }
  }

  lemma ReturnedSnoc(st: State, cmds: seq<Command>, c: nat)
    requires cmds != []
    ensures var n := |cmds| - 1;
            Returned(st, cmds, c) <==>
              (cmds[n] == DoAddEvidence(c) && AcceptedAt(st, cmds, n))
              || (Returned(st, cmds[..n], c) && !(Disposes(cmds[n], c) && AcceptedAt(st, cmds, n)))
  {
    hide Run, Apply;
    var n := |cmds| - 1;
    var so := cmds[..n];
    forall i: nat | i < n ensures AcceptedAt(st, so, i) == AcceptedAt(st, cmds, i) && so[i] == cmds[i] {
      assert so[..i] == cmds[..i];
    }
    if cmds[n] == DoAddEvidence(c) && AcceptedAt(st, cmds, n) {
      assert ReturnedAt(st, cmds, c, n);
    }
    if i: nat :| i < n && ReturnedAt(st, so, c, i) && !(Disposes(cmds[n], c) && AcceptedAt(st, cmds, n)) {
      assert ReturnedAt(st, cmds, c, i);
    }
    if i: nat :| i < n && ReturnedAt(st, cmds, c, i) {
      assert ReturnedAt(st, so, c, i);
    }
  }

  /** From a case under platform review, over every run: the merchant can decide it at the end exactly when evidence was
      added to it and nothing decided or ended it since. */
  lemma {:induction false} MerchantDecidesAgain(st: State, cmds: seq<Command>, c: nat)
    requires RefundsOk(st) && c < |st.cases| && st.cases[c].status == PlatformReviewing
    ensures c < |Run(st, cmds).cases|
    ensures Review(Run(st, cmds), c, true, Reject).Accepted? <==> Returned(st, cmds, c)
  {
    RunKeepsOk(st, cmds, c);
    MerchantDecides(Run(st, cmds), c);
    if cmds != [] {
      hide RefundsOk, Next, Returned;
      var n := |cmds| - 1;
      MerchantDecidesAgain(st, cmds[..n], c);
      RunKeepsOk(st, cmds[..n], c);
      MerchantDecides(Run(st, cmds[..n]), c);
      ReturnedSnoc(st, cmds, c);
      LastStatus(st, cmds, c);
    }
  }

  lemma LastStatus(st: State, cmds: seq<Command>, c: nat)
    requires cmds != [] && RefundsOk(Run(st, cmds[..|cmds| - 1])) && c < |Run(st, cmds[..|cmds| - 1]).cases|
    ensures var n := |cmds| - 1;
            var mid, end := Run(st, cmds[..n]), Run(st, cmds);
            && c < |end.cases|
            && (WithMerchant(end.cases[c].status) <==>
                  (cmds[n] == DoAddEvidence(c) && AcceptedAt(st, cmds, n))
                  || (WithMerchant(mid.cases[c].status) && !(Disposes(cmds[n], c) && AcceptedAt(st, cmds, n))))
            && (end.cases[c].status == EvidenceRequired ==>
                AsksEvidence(cmds[n], c) || mid.cases[c].status == EvidenceRequired)
            && (WithMerchant(end.cases[c].status) ==>
                WithMerchant(mid.cases[c].status) || mid.cases[c].status == EvidenceRequired)
  {
    hide RefundsOk, Apply;
    var n := |cmds| - 1;
    var mid := Run(st, cmds[..n]);
    if Apply(mid, cmds[n]).Accepted? {
      StepStatus(mid, cmds[n], c);
      if cmds[n] == DoAddEvidence(c) { EvidenceFrom(mid, c); }
    }
  }

  lemma EvidenceFrom(st: State, c: nat)
    requires c < |st.cases| && Apply(st, DoAddEvidence(c)).Accepted?
    ensures WithMerchant(st.cases[c].status) || st.cases[c].status == EvidenceRequired
  {
  }

  /** And as long as nobody asks for evidence, the platform keeps the case: every decision of the merchant is
      refused. */
  lemma {:induction false} PlatformKeepsCase(st: State, cmds: seq<Command>, c: nat, decision: Decision)
    requires RefundsOk(st) && c < |st.cases| && st.cases[c].status == PlatformReviewing
    requires forall i :: 0 <= i < |cmds| ==> !AsksEvidence(cmds[i], c)
    ensures c < |Run(st, cmds).cases| && Run(st, cmds).cases[c].status != EvidenceRequired
    ensures Review(Run(st, cmds), c, true, decision).Refused?
  {
    RunKeepsOk(st, cmds, c);
    MerchantDecides(Run(st, cmds), c);
    if cmds != [] {
      hide RefundsOk, Next;
      var n := |cmds| - 1;
      PlatformKeepsCase(st, cmds[..n], c, Reject);
      RunKeepsOk(st, cmds[..n], c);
      MerchantDecides(Run(st, cmds[..n]), c);
      LastStatus(st, cmds, c);
    }
  }

  /** The shortest way back: the platform asks for evidence, the customer adds some, and the merchant's decision is
      reviewed as the platform's would be. */
  lemma EvidenceReturnsCase(st: State, c: nat, decision: Decision)
    requires c < |st.cases| && st.cases[c].status == PlatformReviewing
    ensures Review(st, c, true, decision) == Refused(PlatformReviewRequired)
    ensures var back := Run(st, [DoReview(c, false, RequestEvidence), DoAddEvidence(c)]);
            && back.cases == st.cases[c := st.cases[c].(status := Submitted)]
            && Review(back, c, true, Reject).Accepted?
               && Review(back, c, true, decision) == Review(back, c, false, decision)
  {
    var cmds := [DoReview(c, false, RequestEvidence), DoAddEvidence(c)];
    assert cmds[..1][..0] == [] && cmds[..1] == [cmds[0]];
    assert Run(st, cmds[..1]) == Next(st, cmds[0]);
    assert Run(st, cmds) == Next(Next(st, cmds[0]), cmds[1]);
  }
}
