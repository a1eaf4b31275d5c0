/** The resumable registry backfills: batches in id order, a checkpoint after each, and resuming after a stop
    anywhere. */
module Backfill {
  import opened Machine
  import opened Ordering

  // ----- rows

  /** A payment, refund or delivery return with its registry fields. */
  datatype Row =
    | PaymentRow(order: nat, bizType: Option<string>, bizId: Option<nat>)
    | RefundRow(afterSale: Option<nat>, bizType: Option<string>, bizId: Option<nat>)
    | ReturnRow(afterSale: Option<nat>, status: string, closedAt: Option<Time>,
                settlement: Option<string>, settlementBiz: Option<nat>, settlementStatus: Option<string>,
                settledAt: Option<Time>)

  /** A row's id is its index; ids have gaps. */
  type Table = seq<Option<Row>>

  predicate Pending(r: Row) {
    match r
    case PaymentRow(_, bizType, bizId) => bizType.None? || bizId.None?
    case RefundRow(_, bizType, bizId) => bizType.None? || bizId.None?
    case ReturnRow(_, _, _, settlement, _, settlementStatus, _) => settlement.None? || settlementStatus.None?
  }

  function ReturnSettlementStatus(status: string, afterSale: Option<nat>): string {
    if status == "closed" then "succeeded"
    else if afterSale.None? then "not_started"
    else if status == "disputed" || status == "exception" then "exception"
    else "processing"
  }

  /** The update's condition on top of the row still being pending: a refund without a case is never matched. */
  predicate Matches(r: Row) {
    Pending(r) && (r.RefundRow? ==> r.afterSale.Some?)
  }

  function Fixed(r: Row): Row {
    if !Matches(r) then r
    else
      match r
      case PaymentRow(order, _, _) => PaymentRow(order, Some("retail_order"), Some(order))
      case RefundRow(afterSale, _, _) => RefundRow(afterSale, Some("retail_after_sale"), afterSale)
      case ReturnRow(afterSale, status, closedAt, _, _, _, _) =>
        var settled := ReturnSettlementStatus(status, afterSale);
        ReturnRow(afterSale, status, closedAt, Some("retail_cash_refund"), afterSale, Some(settled),
                  if settled == "succeeded" then closedAt else None)
  }

  /** A fixed row never matches again. */
  lemma FixedOnce(r: Row)
    ensures !Matches(Fixed(r)) && Fixed(Fixed(r)) == Fixed(r)
  {
  }

  /** What the registry says of a row that was missing it; a refund without a case cannot be registered. */
  predicate Registered(was: Row, row: Row) {
    match was
    case PaymentRow(order, _, _) => row == PaymentRow(order, Some("retail_order"), Some(order))
    case RefundRow(afterSale, _, _) =>
      if afterSale.Some? then row == RefundRow(afterSale, Some("retail_after_sale"), afterSale) else row == was
    case ReturnRow(afterSale, status, closedAt, _, _, _, _) =>
      && row.ReturnRow? && row.afterSale == afterSale && row.status == status && row.closedAt == closedAt
      && row.settlement == Some("retail_cash_refund") && row.settlementBiz == afterSale
      && (row.settlementStatus == Some("succeeded") <==> status == "closed")
      && (row.settlementStatus == Some("not_started") <==> status != "closed" && afterSale.None?)
      && (row.settlementStatus == Some("exception")
          <==> afterSale.Some? && (status == "disputed" || status == "exception"))
      && (row.settlementStatus == Some("processing")
          <==> afterSale.Some? && status != "closed" && status != "disputed" && status != "exception")
      && row.settledAt == if status == "closed" then closedAt else None
  }

  /** The registry of a row is missing as long as one of its fields is. */
  predicate Unregistered(r: Row) {
    match r
    case PaymentRow(_, bizType, bizId) => !(bizType.Some? && bizId.Some?)
    case RefundRow(_, bizType, bizId) => !(bizType.Some? && bizId.Some?)
    case ReturnRow(_, _, _, settlement, _, settlementStatus, _) => !(settlement.Some? && settlementStatus.Some?)
  }

  /** Fixing registers exactly the rows whose registry was missing and leaves every other row as it was. */
  lemma FixedExactly(r: Row)
    ensures if Unregistered(r) then Registered(r, Fixed(r)) else Fixed(r) == r
    ensures Unregistered(r) ==> (Unregistered(Fixed(r)) <==> r.RefundRow? && r.afterSale.None?)
  {
    assert "closed" != "disputed" && "closed" != "exception";
    assert |"succeeded"| == 9 && |"not_started"| == 11 && |"exception"| == 9 && |"processing"| == 10;
    assert "succeeded"[0] != "exception"[0];
  }

  predicate PendingAt(table: Table, id: nat) { id < |table| && table[id].Some? && Pending(table[id].value) }

  function FixedAt(table: Table, id: nat): Option<Row>
    requires id < |table|
  {
    if table[id].Some? then Some(Fixed(table[id].value)) else None
  }

  /** The table with every row in (lo, hi] fixed: what the job is for. */
  function Swept(table: Table, lo: int, hi: int): (r: Table)
    ensures |r| == |table|
  {
    seq(|table|, id requires 0 <= id < |table| => if lo < id <= hi then FixedAt(table, id) else table[id])
  }

  /** Sweeping what was swept changes nothing, and sweeps over overlapping ranges join. */
  lemma SweepsJoin(table: Table, lo: int, mid: int, from: int, hi: int)
    requires lo <= from <= mid <= hi
    ensures Swept(Swept(table, lo, mid), from, hi) == Swept(table, lo, hi)
  {
    var once := Swept(table, lo, mid);
    forall id: nat | id < |table| ensures Swept(once, from, hi)[id] == Swept(table, lo, hi)[id] {
      if table[id].Some? { FixedOnce(table[id].value); }
    }
  }

  // ----- batches

  function IsDue(table: Table, lo: int, hi: int): nat -> bool {
    (id: nat) => lo < id <= hi && PendingAt(table, id)
  }

  function IdOrder(): (nat, nat) -> bool { (a: nat, b: nat) => a <= b }

  function Due(table: Table, lo: int, hi: int): seq<nat> { Query(|table|, IsDue(table, lo, hi), IdOrder()) }

  lemma DueAscends(table: Table, lo: int, hi: int)
    ensures forall i, j :: 0 <= i < j < |Due(table, lo, hi)| ==> Due(table, lo, hi)[i] < Due(table, lo, hi)[j]
  {
    QuerySorted(|table|, IsDue(table, lo, hi), IdOrder());
    var due := Due(table, lo, hi);
    forall i, j | 0 <= i < j < |due| ensures due[i] < due[j] {
      assert IdOrder()(due[i], due[j]) && due[i] != due[j];
    }
  }

  function Batch(table: Table, lo: int, hi: int, size: nat): seq<nat> {
    var due := Due(table, lo, hi);
    if |due| <= size then due else due[..size]
  }

  /** A batch is ascending, stays in the range, and skips nothing that is due before its last id. */
  lemma BatchCovers(table: Table, lo: int, hi: int, size: nat)
    requires size >= 1
    ensures var b := Batch(table, lo, hi, size);
            && (forall i :: 0 <= i < |b| ==> lo < b[i] <= hi && PendingAt(table, b[i]))
            && (forall i, j :: 0 <= i < j < |b| ==> b[i] < b[j])
            && (forall id: nat :: lo < id <= hi && PendingAt(table, id) && (b == [] || id <= b[|b| - 1]) ==> id in b)
            && (b == [] ==> forall id: nat :: lo < id <= hi ==> !PendingAt(table, id))
  {
    var due, b := Due(table, lo, hi), Batch(table, lo, hi, size);
    DueAscends(table, lo, hi);
    assert forall i :: 0 <= i < |b| ==> b[i] == due[i] && due[i] in due;
    assert b != [] ==> forall k :: |b| <= k < |due| ==> b[|b| - 1] < due[k];
    forall id: nat | lo < id <= hi && PendingAt(table, id) && (b == [] || id <= b[|b| - 1]) ensures id in b {
      assert id in due;
      var k :| 0 <= k < |due| && due[k] == id;
      assert k < |b| && b[k] == id;
    }
  }

  // ----- the runner

  /** What befalls a batch: it goes through; its transaction fails on every attempt; the process dies after the
      commit but before the checkpoint, or right after the checkpoint. */
  datatype Fault = GoesThrough | TransactionFails | DiesBeforeCheckpoint | DiesAfterCheckpoint

  datatype Progress = Progress(scanned: nat, planned: nat, updated: nat)

  datatype Checkpoint = Checkpoint(lastId: int, completed: bool, progress: Progress)

  /** How far a sweep from the first checkpoint got: every committed batch counts, checkpointed or not. */
  ghost predicate Reached(start: Table, from: int, table: Table, checkpoint: int, mid: int, execute: bool) {
    from <= checkpoint <= mid && table == if execute then Swept(start, from, mid) else start
  }

  /** How many of the rows an update changes. */
  function Matching(table: Table, rows: seq<nat>): nat
    requires forall i :: 0 <= i < |rows| ==> rows[i] < |table| && table[rows[i]].Some?
  {
    if rows == [] then 0
    else Matching(table, rows[..|rows| - 1]) + if Matches(table[rows[|rows| - 1]].value) then 1 else 0
  }

  lemma SweptNothing(table: Table, at: int)
    ensures Swept(table, at, at) == table
  {
  }

  // ----- the counters

  lemma DueRows(table: Table, lo: int, hi: int)
    ensures var due := Due(table, lo, hi); forall i :: 0 <= i < |due| ==> lo < due[i] <= hi && PendingAt(table, due[i])
  {
    var due := Due(table, lo, hi);
    assert forall i :: 0 <= i < |due| ==> due[i] in due;
  }

  lemma IdOrderIsStrict()
    ensures TotalOrder(IdOrder()) && Antisymmetric(IdOrder())
  {
  }

  /** The due rows of two adjacent ranges are those of the whole range. */
  lemma DueSplits(table: Table, lo: int, mid: int, hi: int)
    requires lo <= mid <= hi
    ensures Due(table, lo, hi) == Due(table, lo, mid) + Due(table, mid, hi)
  {
    var a, b := Due(table, lo, mid), Due(table, mid, hi);
    IdOrderIsStrict();
    QuerySorted(|table|, IsDue(table, lo, hi), IdOrder());
    DueAscends(table, lo, mid);
    DueAscends(table, mid, hi);
    DueRows(table, lo, mid);
    DueRows(table, mid, hi);
    forall i, j | 0 <= i < j < |a + b| ensures (a + b)[i] < (a + b)[j] {
      assert i < |a| ==> (a + b)[i] == a[i];
      assert j >= |a| ==> (a + b)[j] == b[j - |a|];
    }
    SortedOnce(IdOrder(), Due(table, lo, hi), a + b);
  }

  /** A batch is what is due up to its last id. */
  lemma BatchIsDue(table: Table, lo: int, hi: int, size: nat)
    requires size >= 1 && Batch(table, lo, hi, size) != []
    ensures var b := Batch(table, lo, hi, size); lo < b[|b| - 1] <= hi && b == Due(table, lo, b[|b| - 1])
  {
    var b := Batch(table, lo, hi, size);
    var last := b[|b| - 1];
    BatchCovers(table, lo, hi, size);
    DueAscends(table, lo, last);
    IdOrderIsStrict();
    assert forall id: nat :: id in b ==> lo < id <= last && PendingAt(table, id);
    SortedOnce(IdOrder(), b, Due(table, lo, last));
  }

  /** What was swept below a range does not change what is due in it. */
  lemma DueAfterSweep(table: Table, from: int, mid: int, hi: int)
    requires from <= mid
    ensures Due(Swept(table, from, mid), mid, hi) == Due(table, mid, hi)
  {
    var once := Swept(table, from, mid);
    IdOrderIsStrict();
    QuerySorted(|table|, IsDue(table, mid, hi), IdOrder());
    QuerySorted(|once|, IsDue(once, mid, hi), IdOrder());
    forall id: nat ensures id in Due(once, mid, hi) <==> id in Due(table, mid, hi) {
      assert mid < id < |table| ==> once[id] == table[id];
    }
    SortedOnce(IdOrder(), Due(once, mid, hi), Due(table, mid, hi));
  }

  lemma {:induction false} MatchingAppend(table: Table, a: seq<nat>, b: seq<nat>)
    requires forall i :: 0 <= i < |a| ==> a[i] < |table| && table[a[i]].Some?
    requires forall i :: 0 <= i < |b| ==> b[i] < |table| && table[b[i]].Some?
    ensures Matching(table, a + b) == Matching(table, a) + Matching(table, b)
  {
    if b == [] {
      assert a + b == a;
    } else {
      assert (a + b)[..|a + b| - 1] == a + b[..|b| - 1];
      MatchingAppend(table, a, b[..|b| - 1]);
    }
  }

  lemma {:induction false} MatchingSame(table: Table, other: Table, rows: seq<nat>)
    requires forall i :: 0 <= i < |rows| ==>
               rows[i] < |table| && table[rows[i]].Some? && rows[i] < |other| && other[rows[i]] == table[rows[i]]
    ensures Matching(table, rows) == Matching(other, rows)
  {
    if rows != [] { MatchingSame(table, other, rows[..|rows| - 1]); }
  }

  /** The counters after the range (lo, hi] of `table` was worked on: every due row is scanned and planned, and in an
      executing run every due row that matches is updated. */
  function Counted(progress: Progress, table: Table, lo: int, hi: int, execute: bool): Progress {
    var due := Due(table, lo, hi);
    DueRows(table, lo, hi);
    Progress(progress.scanned + |due|, progress.planned + |due|,
             progress.updated + if execute then Matching(table, due) else 0)
  }

  lemma CountsBatch(progress: Progress, start: Table, from: int, mid: int, table: Table, max: int, size: nat,
                    execute: bool)
    requires from <= mid && size >= 1 && table == if execute then Swept(start, from, mid) else start
    requires Batch(table, mid, max, size) != []
    ensures var rows := Batch(table, mid, max, size);
            var so, last := Counted(progress, start, from, mid, execute), rows[|rows| - 1];
            && (forall i :: 0 <= i < |rows| ==> rows[i] < |table| && table[rows[i]].Some?)
            && Counted(progress, start, from, last, execute)
               == Progress(so.scanned + |rows|, so.planned + |rows|,
                           so.updated + if execute then Matching(table, rows) else 0)
  {
    var rows := Batch(table, mid, max, size);
    var last := rows[|rows| - 1];
    BatchIsDue(table, mid, max, size);
    if execute { DueAfterSweep(start, from, mid, last); }
    assert rows == Due(start, mid, last);
    DueSplits(start, from, mid, last);
    DueRows(start, from, mid);
    DueRows(start, mid, last);
    MatchingAppend(start, Due(start, from, mid), rows);
    MatchingSame(start, table, rows);
  }

  /** Nothing is due behind the last batch, so a completed session has counted the whole range. */
  lemma CountsAll(progress: Progress, start: Table, from: int, mid: int, table: Table, max: int, size: nat,
                  execute: bool)
    requires from <= mid && table == if execute then Swept(start, from, mid) else start
    requires size >= 1 && Batch(table, mid, max, size) == [] && (mid <= max || mid == from)
    ensures Counted(progress, start, from, mid, execute) == Counted(progress, start, from, max, execute)
  {
    if execute { DueAfterSweep(start, from, mid, max); }
    if mid <= max {
      DueSplits(start, from, mid, max);
      assert Due(start, from, mid) + [] == Due(start, from, mid);
    } else {
      NoneDue(start, from, mid);
      NoneDue(start, from, max);
    }
  }

  lemma NoneDue(table: Table, lo: int, hi: int)
    ensures Due(table, lo, hi) != [] ==> lo < hi
  {
    assert Due(table, lo, hi) == [] || Due(table, lo, hi)[0] in Due(table, lo, hi);
  }

  lemma CountsNothing(progress: Progress, table: Table, at: int, execute: bool)
    ensures Counted(progress, table, at, at, execute) == progress
  {
    NoneDue(table, at, at);
  }

  class Backfiller {
    const execute: bool
    const batchSize: nat
    const maxRetries: nat
    const max: int
    var table: Table
    var checkpoint: Checkpoint

    constructor (table: Table, execute: bool, batchSize: nat, maxRetries: nat, min: nat, max: nat)
      ensures this.table == table && this.execute == execute && this.batchSize == batchSize
      ensures this.maxRetries == maxRetries && this.max == max
      ensures checkpoint == Checkpoint(if min > 0 then min - 1 else 0, false, Progress(0, 0, 0))
    {
      this.table, this.execute, this.batchSize, this.maxRetries, this.max := table, execute, batchSize, maxRetries, max;
      checkpoint := Checkpoint(if min > 0 then min - 1 else 0, false, Progress(0, 0, 0));
    }

    /** What survives a stop. */
    function Save(): Saved
      reads this
    {
      Saved(table, checkpoint.lastId, checkpoint.completed)
    }

    /** One attempt at a batch: updates the rows that are still pending. */
    method UpdateRows(rows: seq<nat>) returns (updated: nat)
      requires forall i :: 0 <= i < |rows| ==> rows[i] < |table| && table[rows[i]].Some?
      requires forall i, j :: 0 <= i < j < |rows| ==> rows[i] < rows[j]
      modifies this`table
      ensures |table| == |old(table)|
      ensures forall id: nat :: id < |table| ==>
                table[id] == if id in rows then FixedAt(old(table), id) else old(table)[id]
      ensures updated == Matching(old(table), rows)
    {
      updated := 0;
      for i := 0 to |rows|
        invariant |table| == |old(table)| && updated == Matching(old(table), rows[..i])
        invariant forall id: nat :: id < |table| ==>
                    table[id] == if id in rows[..i] then FixedAt(old(table), id) else old(table)[id]
      {
        var id := rows[i];
        assert rows[..i + 1] == rows[..i] + [id] && id !in rows[..i] && rows[..i + 1][..i] == rows[..i];
        if Matches(table[id].value) {
          table := table[id := Some(Fixed(table[id].value))];
          updated := updated + 1;
        }
      }
      assert rows[..|rows|] == rows;
    }

    /** Tries the batch up to the retry limit; a failed attempt rolls back. */
    method RetryTransaction(rows: seq<nat>, failures: nat) returns (ok: bool, updated: nat)
      requires forall i :: 0 <= i < |rows| ==> rows[i] < |table| && table[rows[i]].Some?
      requires forall i, j :: 0 <= i < j < |rows| ==> rows[i] < rows[j]
      modifies this`table
      ensures ok == (failures < maxRetries)
      ensures |table| == |old(table)|
      ensures forall id: nat :: id < |table| ==>
                table[id] == if ok && id in rows then FixedAt(old(table), id) else old(table)[id]
      ensures updated == if ok then Matching(old(table), rows) else 0
    {
      var before := table;
      for attempt := 0 to maxRetries
        invariant table == before && attempt <= failures
      {
        updated := UpdateRows(rows);
        if attempt == failures {
          return true, updated;
        }
        table := before;
      }
      return false, 0;
    }

    /** One session: from the checkpoint until nothing is due or a fault stops it. */
    method Run(faults: seq<Fault>) returns (finished: bool)
      requires batchSize >= 1 && maxRetries >= 1
      modifies this
      ensures Session(old(Save()), Save(), max, execute)
      ensures finished <==> checkpoint.completed
      ensures !old(checkpoint).completed ==>
                checkpoint.progress == Counted(old(checkpoint).progress, old(table), old(checkpoint).lastId,
                                               if finished then max else checkpoint.lastId, execute)
    {
      hide Counted, Matching, Batch, Due, PendingAt, Swept, FixedAt;
      ghost var start, from := table, checkpoint.lastId;
      if checkpoint.completed {
        SweptNothing(start, from);
        assert Reached(start, from, table, checkpoint.lastId, from, execute);
        return true;
      }
      var lastId, progress := checkpoint.lastId, checkpoint.progress;
      var n := 0;
      ghost var mid := from;
      ghost var counted := checkpoint.progress;
      CountsNothing(counted, start, from, execute);
      SweptNothing(start, from);
      while true
        invariant from <= checkpoint.lastId <= lastId == mid && (mid <= max || mid == from) && !checkpoint.completed
        invariant Reached(start, from, table, checkpoint.lastId, mid, execute)
        invariant progress == Counted(counted, start, from, mid, execute) == checkpoint.progress
        invariant checkpoint.lastId == mid
        decreases |table| - lastId
      {
        var rows := Batch(table, lastId, max, batchSize);
        BatchCovers(table, lastId, max, batchSize);
        if |rows| == 0 {
          NothingDue(start, from, table, mid, max, execute);
          CountsAll(counted, start, from, mid, table, max, batchSize, execute);
          break;
        }
        CountsBatch(counted, start, from, mid, table, max, batchSize, execute);
        progress := progress.(scanned := progress.scanned + |rows|, planned := progress.planned + |rows|);
        ghost var before := table;
        ghost var previous := lastId;
        lastId := rows[|rows| - 1];
        var fault := if n < |faults| then faults[n] else GoesThrough;
        n := n + 1;
        if execute {
          var ok, updated := RetryTransaction(rows, if fault == TransactionFails then maxRetries else 0);
          if !ok {
            assert table == before;
            return false;
          }
          progress := progress.(updated := progress.updated + updated);
          BatchSweeps(before, previous, rows, max, batchSize, table);
          SweepsJoin(start, from, mid, mid, lastId);
        }
        mid := lastId;
        assert Reached(start, from, table, checkpoint.lastId, mid, execute);
        if fault == DiesBeforeCheckpoint { return false; }
        checkpoint := Checkpoint(lastId, false, progress);
        assert Reached(start, from, table, checkpoint.lastId, mid, execute);
        if fault == DiesAfterCheckpoint { return false; }
      }
      checkpoint := Checkpoint(lastId, true, progress);
      assert Reached(start, from, table, checkpoint.lastId, mid, execute);
      return true;
    }
  }

  /** Fixing exactly the rows of a batch is sweeping up to its last id. */
  lemma BatchSweeps(table: Table, lo: int, rows: seq<nat>, hi: int, size: nat, now: Table)
    requires size >= 1 && rows == Batch(table, lo, hi, size) && rows != [] && |now| == |table|
    requires forall id: nat :: id < |table| ==> now[id] == if id in rows then FixedAt(table, id) else table[id]
    ensures now == Swept(table, lo, rows[|rows| - 1])
  {
    BatchCovers(table, lo, hi, size);
    var last := rows[|rows| - 1];
    forall id: nat | id < |table| ensures now[id] == Swept(table, lo, last)[id] {
      if id in rows {
        var k :| 0 <= k < |rows| && rows[k] == id;
      } else if lo < id <= last {
        assert !PendingAt(table, id);
      }
    }
  }

  lemma NothingDue(start: Table, from: int, table: Table, mid: int, max: int, execute: bool)
    requires from <= mid && table == if execute then Swept(start, from, mid) else start
    requires forall id: nat :: mid < id <= max ==> !PendingAt(table, id)
    requires mid <= max || mid == from
    ensures execute ==> table == Swept(start, from, max)
  {
    if execute {
      forall id: nat | id < |table| ensures table[id] == Swept(start, from, max)[id] {
        if mid < id <= max { assert !PendingAt(table, id); }
      }
    }
  }

  // ----- any number of interrupted sessions

  datatype Saved = Saved(table: Table, checkpoint: int, completed: bool)

  /** What a session guarantees, whatever faults it meets. */
  ghost predicate Session(s: Saved, t: Saved, max: int, execute: bool) {
    && (s.completed ==> t == s)
    && (!s.completed ==>
          && (exists mid: int ::
                Reached(s.table, s.checkpoint, t.table, t.checkpoint, mid, execute)
                && (mid <= max || mid == s.checkpoint))
          && (t.completed ==> t.table == if execute then Swept(s.table, s.checkpoint, max) else s.table))
  }

  /** What the sessions so far amount to: an initial part of one sweep, and all of it once completed. */
  ghost predicate PartOfSweep(first: Saved, t: Saved, max: int, execute: bool) {
    && (exists mid: int ::
          Reached(first.table, first.checkpoint, t.table, t.checkpoint, mid, execute)
          && (mid <= max || mid == first.checkpoint))
    && (t.completed ==> t.table == if execute then Swept(first.table, first.checkpoint, max) else first.table)
  }

  lemma OneMoreSession(first: Saved, s: Saved, t: Saved, max: int, execute: bool)
    requires PartOfSweep(first, s, max, execute) && Session(s, t, max, execute)
    ensures PartOfSweep(first, t, max, execute)
  {
    if !s.completed {
      var m: int :| Reached(first.table, first.checkpoint, s.table, s.checkpoint, m, execute)
          && (m <= max || m == first.checkpoint);
      var k: int :| Reached(s.table, s.checkpoint, t.table, t.checkpoint, k, execute)
          && (k <= max || k == s.checkpoint);
      var reach := if k < m then m else k;
      if execute {
        SweepsOverlap(first.table, first.checkpoint, m, s.checkpoint, k);
        if t.completed {
          if m <= max {
            SweepsJoin(first.table, first.checkpoint, m, s.checkpoint, max);
          } else {
            assert m == s.checkpoint == first.checkpoint;
            assert Swept(first.table, m, m) == first.table;
          }
        }
      }
      assert Reached(first.table, first.checkpoint, t.table, t.checkpoint, reach, execute);
    }
  }

  lemma SweepsOverlap(table: Table, lo: int, mid: int, from: int, hi: int)
    requires lo <= from <= mid && from <= hi
    ensures Swept(Swept(table, lo, mid), from, hi) == Swept(table, lo, if hi < mid then mid else hi)
  {
    if mid <= hi {
      SweepsJoin(table, lo, mid, from, hi);
    } else {
      var once := Swept(table, lo, mid);
      forall id: nat | id < |table| ensures Swept(once, from, hi)[id] == once[id] {
        if table[id].Some? { FixedOnce(table[id].value); }
      }
    }
  }

  /** However often and wherever the job was stopped, once a resumed session completes the table is the one a single
      uninterrupted run leaves; and a dry run leaves the table as it was throughout. */
  lemma {:induction false} ResumeIsOneRun(sessions: seq<Saved>, max: int, execute: bool)
    requires sessions != [] && !sessions[0].completed
    requires forall i :: 0 <= i < |sessions| - 1 ==> Session(sessions[i], sessions[i + 1], max, execute)
    ensures PartOfSweep(sessions[0], sessions[|sessions| - 1], max, execute)
  {
    var n := |sessions| - 1;
    if n == 0 {
      assert Swept(sessions[0].table, sessions[0].checkpoint, sessions[0].checkpoint) == sessions[0].table;
      assert Reached(sessions[0].table, sessions[0].checkpoint, sessions[0].table, sessions[0].checkpoint,
                     sessions[0].checkpoint, execute);
    } else {
      ResumeIsOneRun(sessions[..n], max, execute);
      assert Session(sessions[n - 1], sessions[n - 1 + 1], max, execute);
      OneMoreSession(sessions[0], sessions[n - 1], sessions[n], max, execute);
    }
  }

  /** Once a resumed job completes, every row of its range whose registry was missing is registered, and every other row
      is as it was. */
  lemma CompletedRegisters(sessions: seq<Saved>, max: int, id: nat)
    requires sessions != [] && !sessions[0].completed && sessions[|sessions| - 1].completed
    requires forall i :: 0 <= i < |sessions| - 1 ==> Session(sessions[i], sessions[i + 1], max, true)
    requires id < |sessions[0].table| && sessions[0].table[id].Some?
    ensures var was, table := sessions[0].table[id].value, sessions[|sessions| - 1].table;
            && id < |table| && table[id].Some?
            && if sessions[0].checkpoint < id <= max && Unregistered(was) then Registered(was, table[id].value)
               else table[id].value == was
  {
    ResumeIsOneRun(sessions, max, true);
    FixedExactly(sessions[0].table[id].value);
    hide Unregistered, Registered, Fixed, Session;
  }

  // ----- the queue of orphan attempts

  datatype Finding = Orphan(attempt: nat) | OtherFinding(code: string, object: nat)

  /** Attempts by id; `true` for those in range whose verification is missing. */
  function IsOrphan(attempts: seq<bool>, cursor: int): nat -> bool {
    (id: nat) => cursor < id && id < |attempts| && attempts[id]
  }

  function OrphansAfter(attempts: seq<bool>, cursor: int): seq<nat> {
    Query(|attempts|, IsOrphan(attempts, cursor), IdOrder())
  }

  /** Queues each attempt that is not queued yet. */
  function QueueAll(manual: seq<Finding>, ids: seq<nat>): seq<Finding> {
    if ids == [] then manual
    else
      var so := QueueAll(manual, ids[..|ids| - 1]);
      if Orphan(ids[|ids| - 1]) in so then so else so + [Orphan(ids[|ids| - 1])]
  }

  predicate NoDuplicates(manual: seq<Finding>) {
    forall i, j :: 0 <= i < j < |manual| && manual[i].Orphan? ==> manual[i] != manual[j]
  }

  lemma {:induction false} QueueKeepsDistinct(manual: seq<Finding>, ids: seq<nat>)
    requires NoDuplicates(manual)
    ensures NoDuplicates(QueueAll(manual, ids))
    ensures |manual| <= |QueueAll(manual, ids)| && QueueAll(manual, ids)[..|manual|] == manual
    ensures forall f :: f in QueueAll(manual, ids) <==> f in manual || (f.Orphan? && f.attempt in ids)
  {
    if ids != [] {
      var n := |ids| - 1;
      QueueKeepsDistinct(manual, ids[..n]);
      assert ids == ids[..n] + [ids[n]];
    }
  }

  lemma {:induction false} QueueNothingNew(manual: seq<Finding>, ids: seq<nat>)
    requires forall id: nat :: id in ids ==> Orphan(id) in manual
    ensures QueueAll(manual, ids) == manual
  {
    if ids != [] {
      var n := |ids| - 1;
      assert ids == ids[..n] + [ids[n]];
      QueueNothingNew(manual, ids[..n]);
    }
  }

  lemma {:induction false} QueueAppend(manual: seq<Finding>, a: seq<nat>, b: seq<nat>)
    ensures QueueAll(manual, a + b) == QueueAll(QueueAll(manual, a), b)
  {
    if b == [] {
      assert a + b == a;
    } else {
      var n := |b| - 1;
      assert (a + b)[..|a + b| - 1] == a + b[..n];
      QueueAppend(manual, a, b[..n]);
    }
  }

  lemma QueuedAlready(manual: seq<Finding>, ids: seq<nat>)
    requires NoDuplicates(manual)
    ensures QueueAll(QueueAll(manual, ids), ids) == QueueAll(manual, ids)
  {
    QueueKeepsDistinct(manual, ids);
    QueueNothingNew(QueueAll(manual, ids), ids);
  }

  /** Starting over after a stop queues exactly what an uninterrupted scan queues, in the same order and without
      duplicates. */
  lemma RescanQueuesOnce(manual: seq<Finding>, ids: seq<nat>, k: nat)
    requires NoDuplicates(manual) && k <= |ids|
    ensures QueueAll(QueueAll(manual, ids[..k]), ids) == QueueAll(manual, ids)
    ensures NoDuplicates(QueueAll(manual, ids))
  {
    hide QueueAll, NoDuplicates;
    QueueKeepsDistinct(manual, ids);
    assert ids == ids[..k] + ids[k..];
    QueueAppend(QueueAll(manual, ids[..k]), ids[..k], ids[k..]);
    QueueAppend(manual, ids[..k], ids[k..]);
    QueuedAlready(manual, ids[..k]);
  }

  /** A scan, stopped or not, queues an initial part of the orphans. */
  ghost predicate Scan(ids: seq<nat>, before: seq<Finding>, after: seq<Finding>) {
    exists k: nat :: k <= |ids| && after == QueueAll(before, ids[..k])
  }

  /** Two scans queue what the one that got further queues alone. */
  lemma ScansCompose(ids: seq<nat>, first: seq<Finding>, second: seq<Finding>, third: seq<Finding>)
    requires NoDuplicates(first) && Scan(ids, first, second) && Scan(ids, second, third)
    ensures Scan(ids, first, third)
  {
    hide QueueAll, NoDuplicates;
    var m: nat :| m <= |ids| && second == QueueAll(first, ids[..m]);
    var k: nat :| k <= |ids| && third == QueueAll(second, ids[..k]);
    if k <= m {
      forall id: nat | id in ids[..k] ensures Orphan(id) in second {
        assert id in ids[..m];
        QueueKeepsDistinct(first, ids[..m]);
      }
      QueueNothingNew(second, ids[..k]);
    } else {
      assert ids[..k][..m] == ids[..m];
      RescanQueuesOnce(first, ids[..k], m);
    }
  }

  /** However often the scan was stopped and started over, the queue is an initial part of what one uninterrupted scan
      queues, in its order and without duplicates, and all of it once a scan finishes. */
  lemma {:induction false} RescansQueueOnce(queues: seq<seq<Finding>>, ids: seq<nat>)
    requires queues != [] && NoDuplicates(queues[0])
    requires forall i :: 0 <= i < |queues| - 1 ==> Scan(ids, queues[i], queues[i + 1])
    ensures var n := |queues| - 1;
            && Scan(ids, queues[0], queues[n]) && NoDuplicates(queues[n])
            && (n > 0 && queues[n] == QueueAll(queues[n - 1], ids) ==> queues[n] == QueueAll(queues[0], ids))
  {
    hide QueueAll, NoDuplicates;
    var n := |queues| - 1;
    if n == 0 {
      QueueNone(queues[0]);
      assert ids[..0] == [];
    } else {
      RescansQueueOnce(queues[..n], ids);
      assert Scan(ids, queues[n - 1], queues[n - 1 + 1]);
      ScansCompose(ids, queues[0], queues[n - 1], queues[n]);
      var m: nat :| m <= |ids| && queues[n - 1] == QueueAll(queues[0], ids[..m]);
      RescanQueuesOnce(queues[0], ids, m);
      var k: nat :| k <= |ids| && queues[n] == QueueAll(queues[0], ids[..k]);
      QueueKeepsDistinct(queues[0], ids[..k]);
    }
  }

  lemma OrphansSplit(attempts: seq<bool>, cursor: int, k: nat)
    requires 0 < k <= |OrphansAfter(attempts, cursor)|
    ensures OrphansAfter(attempts, OrphansAfter(attempts, cursor)[k - 1]) == OrphansAfter(attempts, cursor)[k..]
  {
    var all := OrphansAfter(attempts, cursor);
    QuerySorted(|attempts|, IsOrphan(attempts, cursor), IdOrder());
    QuerySorted(|attempts|, IsOrphan(attempts, all[k - 1]), IdOrder());
    assert forall i, j :: 0 <= i < j < |all| ==> IdOrder()(all[i], all[j]) && all[i] != all[j];
    var rest := OrphansAfter(attempts, all[k - 1]);
    forall id: nat ensures id in rest <==> id in all[k..] {
      if id in rest {
        assert all[k - 1] in all && id in all;
        var j :| 0 <= j < |all| && all[j] == id;
        assert j >= k && all[k..][j - k] == id;
      }
      if id in all[k..] {
        var j :| 0 <= j < |all[k..]| && all[k..][j] == id;
        assert all[k + j] == id && all[k - 1] < all[k + j] && id in all;
      }
    }
    IdOrderIsStrict();
    SortedOnce(IdOrder(), rest, all[k..]);
  }

  lemma QueueNone(manual: seq<Finding>)
    ensures QueueAll(manual, []) == manual
  {
  }

  lemma QueueOne(manual: seq<Finding>, ids: seq<nat>, k: nat)
    requires k < |ids|
    ensures var so := QueueAll(manual, ids[..k]);
            QueueAll(manual, ids[..k + 1]) == if Orphan(ids[k]) in so then so else so + [Orphan(ids[k])]
  {
    assert ids[..k + 1][..k] == ids[..k];
  }

  class OrphanRecorder {
    const attempts: seq<bool>
    const batchSize: nat
    var manual: seq<Finding>

    constructor (attempts: seq<bool>, batchSize: nat)
      ensures this.attempts == attempts && this.batchSize == batchSize && manual == []
    {
      this.attempts, this.batchSize, manual := attempts, batchSize, [];
    }

    /** Scans from the start, batch by batch; `manual` is what the last checkpoint holds. */
    method RecordOrphans(faults: seq<Fault>) returns (finished: bool)
      requires batchSize >= 1
      modifies this
      ensures Scan(OrphansAfter(attempts, 0), old(manual), manual)
      ensures finished ==> manual == QueueAll(old(manual), OrphansAfter(attempts, 0))
    {
      hide QueueAll, OrphansAfter;
      ghost var all := OrphansAfter(attempts, 0);
      ghost var done: nat := 0;
      var queue, cursor, n := manual, 0, 0;
      assert all[..0] == [] && all[0..] == all;
      QueueNone(manual);
      while true
        invariant done <= |all| && 0 <= cursor
        invariant OrphansAfter(attempts, cursor) == all[done..]
        invariant queue == manual == QueueAll(old(manual), all[..done])
        decreases |all| - done
      {
        var rest := OrphansAfter(attempts, cursor);
        var rows := if |rest| <= batchSize then rest else rest[..batchSize];
        if |rows| == 0 {
          assert all[..done] == all;
          return true;
        }
        for i := 0 to |rows|
          invariant queue == QueueAll(old(manual), all[..done + i])
          invariant manual == QueueAll(old(manual), all[..done])
        {
          assert rows[i] == all[done + i];
          QueueOne(old(manual), all, done + i);
          if Orphan(rows[i]) !in queue {
            queue := queue + [Orphan(rows[i])];
          }
        }
        OrphansSplit(attempts, cursor, |rows|);
        cursor := rows[|rows| - 1];
        done := done + |rows|;
        var fault := if n < |faults| then faults[n] else GoesThrough;
        n := n + 1;
        if fault == DiesBeforeCheckpoint || fault == TransactionFails { return false; }
        manual := queue;
        if fault == DiesAfterCheckpoint { return false; }
      }
    }
  }
}
