/** The asset worker's batch as it runs on one instance: claim and issue compensations, then expire holds and lots. */
module CompensationQueue {
  import opened Ordering
  import opened Machine
  import opened LedgerModel
  import opened LedgerInvariant
  import opened LedgerBatch
  import opened LedgerExpiry
  import opened LedgerStore
  import CW = CompensationWorker

  function IsClaimable(comps: seq<CW.Compensation>, now: Time): nat -> bool {
    (c: nat) => c < |comps| && CW.Claimable(comps[c], now)
  }

  /** `ORDER BY next_retry_at, id`, rows without a retry time first. */
  function RetryBefore(comps: seq<CW.Compensation>): (nat, nat) -> bool {
    (a: nat, b: nat) =>
      var ra := if a < |comps| then comps[a].nextRetry else None;
      var rb := if b < |comps| then comps[b].nextRetry else None;
      if ra.Some? && rb.Some? && ra.value != rb.value then ra.value < rb.value
      else if ra.Some? != rb.Some? then rb.Some?
      else a <= b
  }

  function ClaimOrder(comps: seq<CW.Compensation>, now: Time): seq<nat> {
    Query(|comps|, IsClaimable(comps, now), RetryBefore(comps))
  }

  /** What a claimed row ends up as when nothing interferes: credited and marked, refused, or invalid. */
  function IssuedBy(s: CW.System, registered: bool, retryAt: Time): CW.System
    requires |s.workers| == 1
  {
    var s1 := CW.Fire(s, CW.Issue(0, registered, CW.Heard));
    if |s1.workers| == 1 && s1.workers[0].Credited? then CW.Fire(s1, CW.MarkIssued(0))
    else if |s1.workers| == 1 && s1.workers[0].Refused? then CW.Fire(s1, CW.MarkRefused(0, retryAt))
    else s1
  }

  // ----- the order of claims

  lemma RetryIsTotal(comps: seq<CW.Compensation>)
    ensures TotalOrder(RetryBefore(comps)) && Antisymmetric(RetryBefore(comps))
  {
  }

  /** The claimed row has waited longest: it never failed or its retry time is the earliest, ties by id. */
  lemma ClaimsLongestWaiting(comps: seq<CW.Compensation>, now: Time, c: nat)
    requires c < |comps| && CW.Claimable(comps[c], now)
    ensures ClaimOrder(comps, now) != []
    ensures var first := ClaimOrder(comps, now)[0];
            && first < |comps| && CW.Claimable(comps[first], now)
            && match comps[first].nextRetry
               case None => comps[c].nextRetry.Some? || first <= c
               case Some(at) =>
                 comps[c].nextRetry.Some?
                 && (at < comps[c].nextRetry.value || (at == comps[c].nextRetry.value && first <= c))
  {
    RetryIsTotal(comps);
    QuerySorted(|comps|, IsClaimable(comps, now), RetryBefore(comps));
    assert c in ClaimOrder(comps, now);
    assert ClaimOrder(comps, now)[0] in ClaimOrder(comps, now);
    HeadFirst(RetryBefore(comps), ClaimOrder(comps, now), c);
    assert RetryBefore(comps)(ClaimOrder(comps, now)[0], c);
  }

  // ----- a round of claims

  /** Claims and issues up to `limit` rows. */
  function IssueRound(s: CW.System, customers: set<nat>, limit: nat, now: Time, retryAt: Time): CW.System
    requires |s.workers| == 1
    decreases limit
  {
    if limit == 0 || ClaimOrder(s.comps, now) == [] then s
    else IssueRound(IssueFirst(s, customers, now, retryAt), customers, limit - 1, now, retryAt)
  }

  function IssueFirst(s: CW.System, customers: set<nat>, now: Time, retryAt: Time): (r: CW.System)
    requires |s.workers| == 1 && ClaimOrder(s.comps, now) != []
    ensures |r.workers| == 1
  {
    var c := ClaimOrder(s.comps, now)[0];
    assert c in ClaimOrder(s.comps, now);
    IssuedBy(CW.Fire(s, CW.Claim(0, c, now)), s.comps[c].owner in customers, retryAt)
  }

  /** What a round makes of a row it claims: credited and linked, put off, or failed because it can never be issued. */
  predicate Served(was: CW.Compensation, row: CW.Compensation, now: Time, retryAt: Time) {
    && CW.SameRow(was, row) && row.attempts == was.attempts + 1 && row.lockedUntil.None?
    && (row.status == CW.Failed <==> !CW.Issuable(was))
    && (row.status == CW.Failed || (row.status == CW.Issued && row.txn.Some?)
        || (row.status == CW.Approved && row.nextRetry == Some(retryAt)))
  }

  lemma FirstServed(s: CW.System, customers: set<nat>, now: Time, retryAt: Time)
    requires s.workers == [CW.Free] && ClaimOrder(s.comps, now) != []
    ensures var c, s' := ClaimOrder(s.comps, now)[0], IssueFirst(s, customers, now, retryAt);
            && s'.workers == [CW.Free] && c < |s.comps| && |s'.comps| == |s.comps|
            && Served(s.comps[c], s'.comps[c], now, retryAt)
            && forall d: nat :: d < |s.comps| && d != c ==> s'.comps[d] == s.comps[d]
  {
    hide Transfer, ClaimOrder;
    var c := ClaimOrder(s.comps, now)[0];
    FirstInOrder(s.comps, now);
  }

  lemma FirstInOrder(comps: seq<CW.Compensation>, now: Time)
    requires ClaimOrder(comps, now) != []
    ensures ClaimOrder(comps, now)[0] < |comps| && CW.Claimable(comps[ClaimOrder(comps, now)[0]], now)
  {
    assert ClaimOrder(comps, now)[0] in ClaimOrder(comps, now);
  }

  /** With the first row served, the rest of the queue stays in its order. */
  lemma QueueMovesUp(comps: seq<CW.Compensation>, comps': seq<CW.Compensation>, now: Time, retryAt: Time)
    requires ClaimOrder(comps, now) != [] && |comps'| == |comps| && now < retryAt
    requires var c := ClaimOrder(comps, now)[0];
             && c < |comps| && Served(comps[c], comps'[c], now, retryAt)
             && forall d: nat :: d < |comps| && d != c ==> comps'[d] == comps[d]
    ensures ClaimOrder(comps', now) == ClaimOrder(comps, now)[1..]
  {
    var order, order' := ClaimOrder(comps, now), ClaimOrder(comps', now);
    RetryIsTotal(comps);
    RetryIsTotal(comps');
    QuerySorted(|comps|, IsClaimable(comps, now), RetryBefore(comps));
    QuerySorted(|comps'|, IsClaimable(comps', now), RetryBefore(comps'));
    TailMembers(order);
    forall x: nat ensures x in order[1..] <==> x in order' {
      assert x in order <==> x < |comps| && CW.Claimable(comps[x], now);
      assert x in order' <==> x < |comps| && CW.Claimable(comps'[x], now);
    }
    Members(order[1..]);
    hide ClaimOrder;
    SortedOnce(RetryBefore(comps'), order[1..], order');
  }

  lemma Members(order: seq<nat>)
    ensures forall k :: 0 <= k < |order| ==> order[k] in order
  {
  }

  /** A round serves exactly the first `limit` rows of the queue and leaves every other row and the rest of the queue
      as they were. A retry is put off past the round, so no row is served twice. */
  lemma {:induction false} RoundServes(s: CW.System, customers: set<nat>, limit: nat, now: Time, retryAt: Time)
    requires s.workers == [CW.Free] && now < retryAt
    ensures var s', order := IssueRound(s, customers, limit, now, retryAt), ClaimOrder(s.comps, now);
            && s'.workers == [CW.Free] && |s'.comps| == |s.comps|
            && ClaimOrder(s'.comps, now) == order[|Limited(order, limit)|..]
            && forall c: nat :: c < |s.comps| ==>
                 if c in Limited(order, limit) then Served(s.comps[c], s'.comps[c], now, retryAt)
                 else s'.comps[c] == s.comps[c]
    decreases limit
  {
    hide ClaimOrder, IssueFirst, Served;
    var order := ClaimOrder(s.comps, now);
    if limit != 0 && order != [] {
      var next := IssueFirst(s, customers, now, retryAt);
      FirstServed(s, customers, now, retryAt);
      QueueMovesUp(s.comps, next.comps, now, retryAt);
      RoundServes(next, customers, limit - 1, now, retryAt);
      OrderIsDistinct(s.comps, now);
      TailMembers(order);
      assert order == [order[0]] + order[1..];
      assert Limited(order, limit) == [order[0]] + Limited(order[1..], limit - 1);
      assert order[0] !in Limited(order[1..], limit - 1);
    }
  }

  lemma OrderIsDistinct(comps: seq<CW.Compensation>, now: Time)
    ensures Distinct(ClaimOrder(comps, now))
  {
  }

  lemma {:induction false} RoundKeeps(s: CW.System, customers: set<nat>, limit: nat, now: Time, retryAt: Time)
    requires CW.Ok(s) && s.workers == [CW.Free]
    ensures CW.Ok(IssueRound(s, customers, limit, now, retryAt))
    decreases limit
  {
    hide CW.Ok, ClaimOrder, IssuedBy, CW.Fire;
    if limit != 0 && ClaimOrder(s.comps, now) != [] {
      var c := ClaimOrder(s.comps, now)[0];
      FirstServed(s, customers, now, retryAt);
      FirstInOrder(s.comps, now);
      CW.FireKeeps(s, CW.Claim(0, c, now));
      ClaimIsBusy(s, c, now);
      IssuedByKeeps(CW.Fire(s, CW.Claim(0, c, now)), s.comps[c].owner in customers, retryAt);
      RoundKeeps(IssueFirst(s, customers, now, retryAt), customers, limit - 1, now, retryAt);
    }
  }

  lemma ClaimIsBusy(s: CW.System, c: nat, now: Time)
    requires |s.workers| == 1
    ensures var s' := CW.Fire(s, CW.Claim(0, c, now));
            |s'.workers| == 1 && |s'.comps| == |s.comps| && (c < |s.comps| ==> s'.comps[c].owner == s.comps[c].owner)
  {
  }

  lemma {:induction false} ExpireLotsKeeps(s: CW.System, ids: seq<nat>, now: Time)
    requires CW.Ok(s)
    ensures CW.Ok(s.(ledger := ExpireLots(s.ledger, ids, now).state))
    decreases |ids|
  {
    if ids != [] {
      CW.PostKeeps(s, DoExpireLot(ids[0], now));
      hide CW.Ok;
      var s' := s.(ledger := Next(s.ledger, DoExpireLot(ids[0], now)));
      ExpireLotsKeeps(s', ids[1..], now);
    }
  }

  lemma {:induction false} ExpireHoldsKeeps(s: CW.System, ids: seq<nat>, now: Time)
    requires CW.Ok(s)
    ensures CW.Ok(s.(ledger := ExpireHolds(s.ledger, ids, now).state))
    decreases |ids|
  {
    if ids != [] {
      CW.PostKeeps(s, DoExpireHold(ids[0], now));
      hide CW.Ok;
      var s' := s.(ledger := Next(s.ledger, DoExpireHold(ids[0], now)));
      ExpireHoldsKeeps(s', ids[1..], now);
    }
  }

  lemma IssuedByKeeps(s: CW.System, registered: bool, retryAt: Time)
    requires CW.Ok(s) && |s.workers| == 1
    ensures CW.Ok(IssuedBy(s, registered, retryAt))
  {
    var s1 := CW.Fire(s, CW.Issue(0, registered, CW.Heard));
    CW.FireKeeps(s, CW.Issue(0, registered, CW.Heard));
    CW.FireKeeps(s1, CW.MarkIssued(0));
    CW.FireKeeps(s1, CW.MarkRefused(0, retryAt));
  }

  class Queue {
    const store: Store
    const customers: set<nat>
    const interval: int
    var comps: seq<CW.Compensation>

    function View(worker: CW.Worker): CW.System
      reads this, store
    {
      CW.System(store.Tables(), comps, [worker])
    }

    constructor (store: Store, customers: set<nat>, interval: int)
      ensures this.store == store && this.customers == customers && this.interval == interval && comps == []
    {
      this.store, this.customers, this.interval, comps := store, customers, interval, [];
    }

    method ClaimNext(now: Time) returns (row: Option<nat>)
      modifies this`comps
      ensures row.None? <==> ClaimOrder(old(comps), now) == []
      ensures row.None? ==> comps == old(comps)
      ensures row.Some? ==> row.value < |comps| && row.value == ClaimOrder(old(comps), now)[0]
                            && View(CW.Claimed(row.value)) == CW.Fire(old(View(CW.Free)), CW.Claim(0, row.value, now))
    {
      var found := ClaimOrder(comps, now);
      if found == [] { return None; }
      var c := found[0];
      assert c in found;
      comps := comps[c :=
                     comps[c].(status := CW.Issuing, lockedUntil := Some(now + CW.LEASE),
                               attempts := comps[c].attempts + 1)];
      return Some(c);
    }

    method IssueClaimed(c: nat, now: Time)
      requires c < |comps|
      modifies this`comps, store
      ensures View(CW.Free) == IssuedBy(old(View(CW.Claimed(c))), old(comps)[c].owner in customers, now + interval)
    {
      hide Transfer;
      var row := comps[c];
      if row.assetType != "balance" || row.amount <= 0 {
        comps := comps[c := row.(status := CW.Failed, lockedUntil := None)];
        return;
      }
      var id := |store.txns|;
      var reply := store.TransferFunds(CW.CreditCommand(comps, c, row.owner in customers), true);
      if reply.Refused? || reply.NothingToDo? {
        comps := comps[c := row.(status := CW.Approved, nextRetry := Some(now + interval), lockedUntil := None)];
        return;
      }
      if reply.Replay? { id := reply.row; }
      if comps[c].status == CW.Issuing {
        comps := comps[c := comps[c].(status := CW.Issued, txn := Some(id), nextRetry := None, lockedUntil := None)];
      }
    }

    /** One round of the worker: the claims, then the holds and the lots that are due. */
    method RunBatch(limit: nat, now: Time)
      modifies this`comps, store
      ensures var s := IssueRound(old(View(CW.Free)), customers, limit, now, now + interval);
              var holds := ExpireHolds(s.ledger, Limited(DueHolds(s.ledger.holds, now), limit), now);
              && comps == s.comps
              && store.Tables() == if holds.error.Some? then holds.state
                                   else ExpireLots(holds.state, Limited(DueLots(holds.state.lots, now), limit),
                                                   now).state
      ensures old(CW.Ok(View(CW.Free))) ==> CW.Ok(View(CW.Free))
    {
      hide CW.Ok, CW.Fire, IssuedBy, ClaimOrder, ExpireLots, ExpireHolds, IssueRound;
      ghost var start := View(CW.Free);
      ghost var round := IssueRound(start, customers, limit, now, now + interval);
      var i := 0;
      while i < limit
        invariant i <= limit && IssueRound(View(CW.Free), customers, limit - i, now, now + interval) == round
      {
        ghost var s := View(CW.Free);
        RoundStep(s, customers, limit - i, now, now + interval);
        var row := ClaimNext(now);
        if row.None? { break; }
        ClaimIsBusy(s, row.value, now);
        assert View(CW.Claimed(row.value)) == CW.Fire(s, CW.Claim(0, row.value, now));
        IssueClaimed(row.value, now);
        assert View(CW.Free) == IssueFirst(s, customers, now, now + interval);
        i := i + 1;
      }
      RoundStep(View(CW.Free), customers, limit - i, now, now + interval);
      assert View(CW.Free) == round;
      if CW.Ok(start) {
        RoundKeeps(start, customers, limit, now, now + interval);
        ExpireHoldsKeeps(round, Limited(DueHolds(store.holds, now), limit), now);
      }
      var _, error := store.ExpireDueHolds(limit, now);
      if error.Some? { return; }
      if CW.Ok(start) {
        ExpireLotsKeeps(View(CW.Free), Limited(DueLots(store.lots, now), limit), now);
      }
      var _, _ := store.ExpireDueLots(limit, now);
    }
  }

  lemma RoundStep(s: CW.System, customers: set<nat>, limit: nat, now: Time, retryAt: Time)
    requires |s.workers| == 1
    ensures limit == 0 || ClaimOrder(s.comps, now) == [] ==> IssueRound(s, customers, limit, now, retryAt) == s
    ensures limit > 0 && ClaimOrder(s.comps, now) != [] ==>
              IssueRound(s, customers, limit, now, retryAt)
              == IssueRound(IssueFirst(s, customers, now, retryAt), customers, limit - 1, now, retryAt)
  {
  }
}
