# Verified models of the shop backend's money, stock and tooling algorithms

This project models the parts of the backend whose correctness rests on arguments over several functions or over whole
runs, and proves those arguments with Dafny 4.11. `dafny verify dfyconfig.toml` checks everything.

* **The asset ledger** (`internal/modules/asset`). `LedgerModel` holds the tables of one asset type (balances, lots, holds,
  hold lots, transactions, entries) and every posting as one function on them: credit, debit, reverse, freeze, commit,
  release, expiry of a hold and of a lot. `LedgerStore` is the service as it runs, a class whose methods update the
  tables row by row, with its lot loops and rollbacks; each method is proved to do what its function says.
  `LedgerInvariant` proves the one invariant behind the four redundant views of the same money; `LedgerSafety`,
  `LedgerOverflow`, `LedgerEntries`, `LedgerFefo`, `LedgerHolds`, `LedgerTouched`, `LedgerExpiry`, `LedgerBatch`, `LedgerReversal` and
  `LedgerRepair` draw the consequences; `LedgerRepairTx` is the repair transaction step by step, between postings.
  `LedgerMeaning`, `LedgerLotMeaning` and `LedgerHoldEnds` say what each posted command writes, read from its entries, lots and
  hold, `LedgerConditions` when a command posts, `LedgerRepeats` what repeating it does.
  `LedgerConcurrency` proves that interleaved transactions are a sequential run because of their row locks (with
  `LedgerFrame` saying which rows a posting touches), `LedgerProgress` that each posting's lock program leads to its commit;
  `LedgerCorners` gives the concrete runs where a promise ends. `CompensationWorker` and `CompensationQueue` put the
  compensation worker with its crashes, leases, lost replies and retries on top, `Adjustments` the manual adjustments.
* **After-sale money and stock** (`internal/modules/aftersale`, the retail refund settlement it relies on, and the
  admin stock adjustment). `AfterSaleModel` is the state machine of one order's cases, refunds and payment,
  `AfterSaleRefunds` and `AfterSaleClaims` prove its caps step by step, `AfterSaleInterleaving` lets applications overlap,
  each checked against the snapshot of its own transaction, `AfterSaleReview` says who may decide a case,
  `AfterSaleMeaning` when a command is accepted and what it writes, `AfterSaleCorners` gives the runs in which claims exceed
  the order, and `AfterSaleDesk` is the service with its loops.
  `RefundAllocation` is the rounding-exact split of a system refund. `StockJournal` and `StockBook` are the three writers
  of the stock journal and the check DQ-002 that audits it, `StockQuantities` what they do to each product, and
  `AfterSaleReceipt` the receipt of returned goods, which moves the case, its refund and the stock together.
* **Three smaller algorithms.** `TaintFixpoint` is the variable fixpoint of the architecture checker, `Backfill` the
  resumable registry backfills and the queue of orphan attempts, `CartModel`, `CartMeaning`, `CartInterleaving` and
  `CartDesk` the cart.

`Machine`, `Sums` and `Ordering` hold 64-bit arithmetic, sums over table rows and `SELECT ... WHERE ... ORDER BY`.

## Where the code differs from what one would expect

These are results about the code as it is; each has a concrete run and, where it makes sense, an exact condition.

* The checks in front of credits, debits and reversals admit a control balance of exactly -2^63. From there a release,
  which checks nothing, can lift an available balance to 2^63, which the code's 64-bit addition turns into -2^63
  (`LedgerCorners.ReleaseOverflows`). From a fitting state a command takes a balance out of 64 bits exactly if the control
  balance is -2^63, the customer it works on holds all of that, and it is a freeze that empties the available bucket or a
  release or hold expiry that empties the frozen one without reaching a lot past its expiry
  (`LedgerOverflow.OverflowsExactly`); a run fits throughout exactly when no command of it does that.
* `reversed+amount` in a reversal wraps for huge requests, so a debit of 10 can be reversed by 2^63
  (`LedgerCorners.ReversalWraps`); an accepted reversal respects its cap exactly when that sum stays within 64 bits.
* A release on a past-due lot marks it `expired` although it may still have something available, and the expiry worker,
  which expires holds before lots, then never picks it again (`LedgerCorners.WorkerStrandsLot`). It happens exactly when the
  released amount reaches the lot, counted over the hold's open parts in lot order (`LedgerExpiry.ReleaseStrands`).
* Repair locks the balance rows one by one but sums their entries in one snapshot, fixed by the first sum. A posting
  committed between that sum and a later row's lock is overwritten: a credit to another customer leaves the control row
  ahead of its entries by the credited amount (`LedgerRepairTx.CreditIsLost`). Repair restores the ledger exactly when the
  items cover the corruption and on no item's row the postings between the first sum and the row's lock add up to
  anything (`LedgerRepairTx.RepairRestoresExactly`).
* `issued` is not a final state of a compensation: a worker whose own credit returned an error earlier, be it refused,
  not run or committed without the worker hearing of it, writes `approved` over it
  (`CompensationWorker.IssuedIsNotAbsorbing`). The money is still credited once. Compensations approved by the
  after-sale service carry the asset type `manual_credit_pending`, which the worker can never issue.
* An application for after-sale reads what is already claimed with plain reads, from a snapshot older than the order lock:
  the idempotency step before it ends in a plain read. Two overlapping applications can claim the same piece or the same
  delivery fee, and one can be accepted right after a system return (`AfterSaleCorners.SnapshotsClaimTwice`,
  `SnapshotsClaimFeeTwice`, `ClaimAfterSystemReturn`). The claim caps hold throughout a run exactly when every accepted
  application and every appeal would also pass the application's tests at its own moment
  (`AfterSaleInterleaving.CapsHoldExactly`). The payment cap, summed under locks, survives every interleaving.
* An appeal re-activates a rejected claim without checking quantities or the delivery fee again, so two claims on one
  ordered piece or on the fee can be active (`AfterSaleCorners.AppealBreaksCaps`, `AppealClaimsFeeAgain`). It keeps the
  caps exactly when each of its lines still fits and nobody else claims the fee it includes.
* A case escalated to the platform returns to the merchant through a request for evidence, and only through one
  (`AfterSaleReview.EvidenceReturnsCase`, `MerchantDecidesAgain`, `PlatformKeepsCase`).
* The cart's test for selected items of another shop is a plain read of a snapshot older than the cart lock, so two
  overlapping mutations can select two shops (`CartInterleaving.SnapshotsSelectTwoShops`); quantities, read under the lock,
  stay in 1..99.
* The last share of a system refund can exceed its own item's total (`RefundAllocation.LastShareExceeds`), and a share whose
  product leaves 64 bits is wrong and can be negative (`RefundAllocation.ShareIsFloorExactly`, `RefundAllocation.WrappedShare`).

## Model

| member | source | states |
|---|---|---|
| LedgerStore.Store.ConsumeLots | internal/modules/asset/service.go:428-452 | the loop over the lots found by one query, updating table rows relative to their current value, takes exactly what the first-expiry-first-out specification takes, and reports a shortfall |
| LedgerStore.Store.FreezeLots | internal/modules/asset/hold.go:63-86 | the freezing loop moves available to frozen lot by lot, records one part per touched lot, and leaves the amount it could not place |
| LedgerStore.Store.SettleLots | internal/modules/asset/hold.go:207-259 | the settlement loop fills parts in lot order, splits what goes back to available from what goes to the platform by each lot's expiry, and stops at the first inconsistent lot |
| LedgerStore.Store.TransferFunds | internal/modules/asset/service.go:74-198 | a credit or debit, checked, replayed, refused or posted, changes the tables exactly as specified and changes nothing when it is not posted |
| LedgerStore.Store.ReverseFunds | internal/modules/asset/service.go:201-314 | the same for a reversal, whose cap test is evaluated in wrapping 64-bit arithmetic |
| LedgerStore.Store.FreezeFunds | internal/modules/asset/hold.go:17-119 | the same for freezing under a reservation key |
| LedgerStore.Store.SettleFunds | internal/modules/asset/hold.go:140-330 | the same for committing, releasing and expiring a hold, in whole or in part |
| LedgerStore.Store.ExpireOneLot | internal/modules/asset/hold.go:390-462 | the same for the expiry of a lot, including the lots it leaves alone |
| LedgerStore.Store.ExpireDueLots | internal/modules/asset/hold.go:338-360 | runs one transaction per due lot in expiry order up to the limit, counts those posted, stops at the first error |
| LedgerStore.Store.ExpireDueHolds | internal/modules/asset/hold.go:363-387 | the same for due holds, passing over holds in another state |
| LedgerStore.Store.Reconcile | internal/modules/asset/query_admin.go:598-642 | finds exactly the balance rows in scope that differ from their entry sums, and the unbalanced transactions |
| LedgerStore.Store.RepairItems | internal/modules/asset/query_admin.go:684-710 | sets the open items one by one to the sums of the entries its transaction sees, or nothing at all when transactions are unbalanced |
| LedgerLots.TakeSucceeds | internal/modules/asset/service.go:428-452 | consuming or freezing finds the whole amount exactly when the customer's lots hold it |
| LedgerLots.TakeParts | internal/modules/asset/hold.go:70-82 | a freeze adds fresh unsettled parts of the new hold only, at most one per lot |
| LedgerLots.SettleRuns | internal/modules/asset/hold.go:213-256 | while frozen amounts are covered by open parts no guard of the settlement fires and every unit settled goes to exactly one side |
| LedgerInvariant.TransferKeeps | internal/modules/asset/service.go:127-174 | a credit or debit keeps the invariant and moves balances and entries alike |
| LedgerInvariant.ReverseKeeps | internal/modules/asset/service.go:244-299 | so does a reversal |
| LedgerInvariant.FreezeKeeps | internal/modules/asset/hold.go:50-116 | so does a freeze |
| LedgerInvariant.SettleKeeps | internal/modules/asset/hold.go:160-322 | so do commit, release and the expiry of a hold |
| LedgerInvariant.ExpireKeeps | internal/modules/asset/hold.go:390-457 | so does the expiry of a lot |
| LedgerInvariant.RunKeepsInv | internal/modules/asset/metrics.go:20-24 | after every step of every run: each lot's grant is split without loss, balances equal lot sums and entry sums, each lot's frozen amount equals its open parts, hold totals and states agree with their parts, every transaction is balanced and unique |
| LedgerConditions.PostsExactly | internal/modules/asset/service.go:74-198 | in every state the invariant allows each of the eight commands posts exactly when conditions a caller can check hold: an allowed amount and source, unused keys, a registered customer, and enough available, left of the hold, or room before 2^63 |
| LedgerConditions.RefusedForFunds | internal/modules/asset/service.go:142-145 | a debit or freeze that is otherwise in order is refused for lack of funds exactly when the available balance is below the amount |
| LedgerRepeats.RepeatedTransfer | internal/modules/asset/service.go:84-110 | a credit or debit under the source of an earlier one, whatever was posted in between, posts nothing: it answers with the earlier transaction exactly when customer, amount, expiry and note are the same, and is refused otherwise |
| LedgerRepeats.RepeatedFreeze | internal/modules/asset/hold.go:34-42 | a freeze under the reservation of an earlier one answers with that hold exactly when amount and source are the same, and is refused otherwise |
| LedgerRepeats.RepeatedAction | internal/modules/asset/hold.go:148-159 | a reversal, commit or release under the source of an earlier one answers with its transaction |
| LedgerMeaning.CommandRecords | internal/modules/asset/service.go:175-190 | a posted command adds one transaction with its action, owner, amount (all of it where it asks for zero), source, key and original |
| LedgerMeaning.RunMeans | internal/modules/asset/service.go:157-174 | in every run each transaction's entries say what its action means: a credit gives, a debit takes, a reversal does the opposite of its original, a freeze moves to frozen, a settlement out of it, and the control account takes the other side |
| LedgerMeaning.BalanceIsMoved | internal/modules/asset/service.go:163-170 | in every run each balance is the sum of what its transactions moved |
| LedgerMeaning.ReversalOpposes | internal/modules/asset/service.go:264-268 | in every run a reversal's entry on the customer's available balance is its own amount with the sign opposite to its original's, and one of the whole amount cancels its original on every row |
| LedgerMeaning.FullReversalRestores | internal/modules/asset/service.go:201-314 | after any run a credit or debit followed by its full reversal leaves every balance row as it was |
| LedgerLotMeaning.CommandMovesLots | internal/modules/asset/hold.go:228-250 | a posted command moves each lot as its action says: between available, frozen, consumed and expired, with the status that goes with it; a credit or a reversed debit adds one lot of what it gives |
| LedgerLotMeaning.RunTotals | internal/modules/asset/service.go:428-452 | in every run each customer was granted what credits and reversals of debits gave and has consumed what debits, commits and reversals of credits took; what is neither consumed nor held has expired |
| LedgerRepair.NothingUnbalanced | internal/modules/asset/metrics.go:22 | after any run the query for unbalanced transactions is empty, whatever the balance rows contain, so a repair is never refused |
| LedgerEntries.RunRecords | internal/modules/asset/service.go:157-171 | in every run each entry carries its row's running balance, and each lot was granted by one credit or reversal of exactly its granted amount, no two lots by the same |
| LedgerSafety.InternalErrorsUnreachable | internal/modules/asset/hold.go:84-313 | none of the "cannot happen" guards can fire in a state the invariant allows |
| LedgerSafety.BalancesAreLots | internal/modules/asset/metrics.go:23-24 | a customer's balances are the sums over the lots and never negative; the control balance is minus everything outstanding |
| LedgerSafety.RemainderIsFrozen | internal/modules/asset/hold.go:204-206 | what is left of a hold never exceeds its owner's frozen total |
| LedgerSafety.ControlIsMinusCustomers | internal/modules/asset/service.go:150-163 | the control balance is minus what customers hold, so no customer holds more than it owes |
| LedgerSafety.AllBalancesSumToZero | internal/modules/asset/service.go:157-163 | over any list of all lot owners the balances of one asset type sum to zero |
| LedgerOverflow.OverflowsExactly | internal/modules/asset/hold.go:260-262 | from a state whose balances fit 64 bits a command takes one out of them exactly in one corner told from the state before it: the control balance is -2^63, the command's customer holds all of it, and a freeze empties the available bucket or a release or hold expiry empties the frozen one without reaching a past-due lot |
| LedgerOverflow.RunFitsExactly | internal/modules/asset/service.go:585-587 | a run keeps every balance within 64 bits throughout exactly when none of its commands meets that corner |
| LedgerSafety.RunFits | internal/modules/asset/hold.go:260-262 | in every run the control balance stays between -2^63 and 0, and whenever it is above -2^63 every balance fits 64 bits, although freezing, settling and expiring check nothing |
| LedgerSafety.StepControl | internal/modules/asset/service.go:146-151 | no step takes the control balance below -2^63: only a transfer that passed the overflow check lowers it |
| LedgerCorners.ReleaseOverflows | internal/modules/asset/hold.go:260-262 | a run of accepted commands whose last one computes an available balance of 2^63, which wraps to -2^63 |
| LedgerFefo.FefoLeaves | internal/modules/asset/service.go:428-452 | for every date, consuming or freezing leaves exactly max(0, before - amount) available in the lots expiring by it |
| LedgerFefo.FefoIsOptimal | internal/modules/asset/hold.go:63-83 | no other way of taking the amount from the customer's lots leaves less by any date |
| LedgerFefo.PostedLeaves | internal/modules/asset/hold.go:63-86 | every debit and freeze that posts leaves that minimum for every date at once |
| LedgerHolds.HoldLifecycle | internal/modules/asset/hold.go:274-294 | in every run a hold is terminal exactly when nothing is left of it, `committed` exactly when everything was committed, and its totals are the sums over its parts |
| LedgerHoldEnds.HoldEnds | internal/modules/asset/hold.go:274-294 | in every run a hold is `expired` exactly when nothing is left of it, not all was committed and the expiry worker settled it last, and `released` exactly when a release or a commit did |
| LedgerHoldEnds.FrozenUntil | internal/modules/asset/hold.go:88-104 | whatever happens after a freeze, its hold carries what was asked for, and the expiry worker picks it exactly when it was given an expiry that has come and something is left of it |
| LedgerHolds.FreezeCommitIsDebit | internal/modules/asset/hold.go:228-234 | freeze followed by a full commit equals a debit on every balance and on all four amounts of every lot |
| LedgerHolds.FreezeReleaseIsIdentity | internal/modules/asset/hold.go:235-250 | freeze followed by a full release changes no lot and no balance exactly when no held lot is past its expiry |
| LedgerHolds.HoldStep | internal/modules/asset/hold.go:166-176 | no step changes a hold's purpose or gives back to it, a terminal hold is never touched, an accepted action strictly shrinks the remainder |
| LedgerHolds.TerminalIsFinal | internal/modules/asset/hold.go:174-176 | terminal holds stay as they are in every run |
| LedgerHolds.OnePartlySettled | internal/modules/asset/hold.go:207-216 | in every run at most one part of a hold is partly settled |
| LedgerExpiry.ExpiredStayEmpty | internal/modules/asset/hold.go:429-441 | with a clock that never runs backwards a lot that was expired stays empty for ever |
| LedgerExpiry.LotExpiryNeverCollides | internal/modules/asset/hold.go:443-445 | so a due lot with something available has never been expired before and its posting key is free |
| LedgerExpiry.CollidesExactly | internal/modules/asset/hold.go:443-448 | over every run, whatever the clock does, an expired lot stays empty and its posting key free of collisions exactly as long as no release or hold expiry that reaches it reads a time before the lot's expiry |
| LedgerTouched.SettlementTouches | internal/modules/asset/hold.go:207-259 | a settlement changes exactly the lots with an open part of the hold whose predecessors in lot order pend less than the amount |
| LedgerExpiry.ReleaseStrands | internal/modules/asset/hold.go:235-238 | told from the state before it, a release or hold expiry leaves a past-due lot stranded exactly when the lot has something available and the amount reaches it, or it carried the status already |
| LedgerExpiry.HoldExpiryStrands | internal/modules/asset/hold.go:235-238 | the expiry of a hold strands exactly the past-due lots with something available on which it has an open part |
| LedgerExpiry.WorkerPicksExactly | internal/modules/asset/hold.go:346 | in every run the worker's query picks a past-due lot with something available exactly when it is not stranded |
| LedgerCorners.WorkerStrandsLot | internal/modules/asset/worker.go:57-65 | the worker's own order of expiring holds before lots strands a lot |
| LedgerCorners.RewoundClockBlocksExpiry | internal/modules/asset/hold.go:443-448 | when a release reads an earlier time than the expiry before it, the lot can never be expired again |
| LedgerBatch.ExpireLotsDrains | internal/modules/asset/hold.go:349-359 | every lot the worker picked is emptied, none fails, all are counted, no other lot changes |
| LedgerBatch.EarliestLotsFirst | internal/modules/asset/hold.go:346 | a limited batch takes the lots that have been due longest |
| LedgerBatch.EarliestHoldsFirst | internal/modules/asset/hold.go:371 | and the holds that have been due longest |
| LedgerBatch.ExpireHoldsDrains | internal/modules/asset/hold.go:374-386 | every hold the worker picked ends, none fails, all are counted, no other hold changes |
| LedgerBatch.ExpiryRoundCompletes | internal/modules/asset/worker.go:57-65 | after any run with a forward clock a whole expiry round completes without an error |
| LedgerReversal.ReversalCap | internal/modules/asset/service.go:235-244 | an accepted reversal respects the cap exactly when the running total stays within 64 bits |
| LedgerReversal.RunCapped | internal/modules/asset/service.go:235-244 | when requested amounts pass the bound other commands are validated against, no transfer is ever reversed by more than its amount |
| LedgerCorners.ReversalWraps | internal/modules/asset/service.go:242-244 | a run that reverses a debit of 10 by 2^63 |
| LedgerRepairTx.ReconcileAndRepair | internal/modules/asset/query_admin.go:598-710 | reconciling, posting anything before and beside the repair, and repairing brings the whole invariant back exactly when the corruption lies within the scope and nothing posted beside the repair is lost |
| LedgerRepairTx.RepairThenRun | internal/modules/asset/query_admin.go:684-710 | from any corruption of balance amounts a full-scope repair that loses nothing ends in a sound ledger that stays sound |
| LedgerRepairTx.AloneIsRepair | internal/modules/asset/query_admin.go:684-710 | the repair transaction without postings in between is that one step |
| LedgerRepairTx.RepairLoses | internal/modules/asset/query_admin.go:696-703 | beside any postings, the repair leaves on each item's row as drift exactly what the posting events between the first sum and that row's lock added up to, and every other row as it was |
| LedgerRepairTx.LockedRowsRest | internal/modules/asset/query_admin.go:696-698 | from its lock on no posting changes an item's row, in the balances or in the entries |
| LedgerRepairTx.RepairRestoresExactly | internal/modules/asset/query_admin.go:684-710 | so it restores the whole invariant exactly when the items cover the corruption and those events add up to nothing on every item's row |
| LedgerRepairTx.OneItemIsSafe | internal/modules/asset/query_admin.go:696-703 | with a single open item nothing is lost, whatever is posted meanwhile |
| LedgerRepairTx.QuietRepairRestores | internal/modules/asset/query_admin.go:684-710 | nor when from the first sum on no posting needs an item's row |
| LedgerRepairTx.CreditIsLost | internal/modules/asset/query_admin.go:684-710 | repairing a customer's row and then the control row loses, in every ledger, a credit another customer receives in between |
| LedgerFrame.CommandFrame | internal/modules/asset/hold.go:52-93 | an accepted command changes only its owner's rows, the balance rows it locks and its own hold and parts |
| LedgerConcurrency.ViewIsCurrent | internal/modules/asset/service.go:127-141 | what a transaction remembers under its locks is the current database, with no row missing from its scans |
| LedgerConcurrency.CommitIsStep | internal/modules/asset/service.go:409-425 | a commit that writes absolute balances computed from memory is one step of the sequential ledger |
| LedgerConcurrency.EffectIsCurrent | internal/modules/asset/service.go:217-240 | what a transaction does on the strength of its plain reads, the lookup of its key and the sum of earlier reversals, is what the command does to the current database: a key found stays used, and only a transaction holding the original's lock adds a reversal of it |
| LedgerConcurrency.OthersStayCurrent | internal/modules/asset/hold.go:186-203 | a commit leaves the memory of every other running transaction current |
| LedgerConcurrency.InterleavingIsSerial | internal/modules/asset/hold.go:390-442 | every interleaving of lookup, lock, read, write, commit and abort steps of any number of transactions equals the sequential run of its commits, so the invariant holds at every commit |
| LedgerProgress.UncontendedCommits | internal/modules/asset/hold.go:140-330 | every posting, run through the lookups and the account, balance and row locks of its code while no other transaction moves, ends with the outcome of the sequential ledger |
| LedgerProgress.LocksTaken | internal/modules/asset/hold.go:186-219 | alone, each of the eight programs gets all its locks in the order of its code, or gives up where the row it names is missing or not due |
| LedgerConcurrency.StaleCreditIsLost | internal/modules/asset/service.go:152-157 | without the locks the projection survives a credit exactly when the remembered balances were current |
| CompensationWorker.CreditedAtMostOnce | internal/modules/asset/worker.go:69-115 | for any number of workers, crashes, lost replies, lease expiries and retries each compensation is credited never or once with its amount, an issued one links to that credit, an unissuable one is never credited |
| CompensationWorker.LaterAttemptsReplay | internal/modules/asset/service.go:84-97 | once credited, every later attempt finds the same transaction and posts nothing, whether or not the worker hears of it |
| CompensationWorker.IssuedIsLeft | internal/modules/asset/worker.go:90-95 | a row leaves `issued` exactly when a worker whose credit returned an error earlier reports, and keeps its transaction |
| CompensationWorker.IssuedIsNotAbsorbing | internal/modules/asset/worker.go:90-95 | a run in which two workers leave a credited compensation approved |
| CompensationWorker.TraceKeeps | internal/modules/asset/worker.go:69-115 | in every run links, credits and worker memories agree with the ledger |
| CompensationWorker.ClaimsExactly | internal/modules/asset/worker.go:69-80 | a claim takes an approved or issuing row whose retry time has come and whose lease has run out, and leases it for 30 seconds |
| CompensationWorker.LeaseHolds | internal/modules/asset/worker.go:73-77 | in every run no second worker gets a row while its lease lasts |
| CompensationWorker.WritesExactly | internal/modules/asset/worker.go:90-103 | a refused worker puts the row off until its retry time; a credited one marks it issued only while it is being issued |
| CompensationWorker.CreditsTheRow | internal/modules/asset/worker.go:89-89 | every attempt asks for the compensation's own amount, for its customer, without an expiry, under one source and key a compensation |
| CompensationQueue.Queue.ClaimNext | internal/modules/asset/worker.go:69-80 | claims the first claimable row by retry time and id, or none exactly when there is none |
| CompensationQueue.ClaimsLongestWaiting | internal/modules/asset/worker.go:73 | the claimed row comes before every other claimable one by retry time, rows without one first, ties by id |
| CompensationQueue.Queue.IssueClaimed | internal/modules/asset/worker.go:83-115 | credits and marks a claimed row, or records why not, as the step relation says |
| CompensationQueue.Queue.RunBatch | internal/modules/asset/worker.go:41-66 | a whole round: up to the limit claims and issues, then the batch of due holds and, unless that failed, of due lots; the invariants of ledger and compensations survive |
| CompensationQueue.RoundServes | internal/modules/asset/worker.go:41-54 | a round serves exactly the first rows of the queue up to the limit, each once, leaves every other row alone and the rest of the queue in its order |
| Adjustments.TraceKeeps | internal/modules/asset/query_admin.go:191-393 | in every run a succeeded adjustment links to its own posting and every direct posting belongs to a succeeded adjustment |
| Adjustments.NewOrder | internal/modules/asset/query_admin.go:232-349 | a new order is answered only within its limit and for a registered customer, and adds one row with what was ordered: succeeded, or failed with the refusal and without a posting |
| Adjustments.OtherOrder | internal/modules/asset/query_admin.go:232-258 | a used key with another order is refused and changes nothing |
| Adjustments.RunKeepsLimits | internal/modules/asset/query_admin.go:191-230 | in every run no adjustment exceeds its asset's limit |
| Adjustments.PostedExactlyOnce | internal/modules/asset/query_admin.go:301-349 | in every run an adjustment has moved exactly its amount in its direction if it succeeded, and nothing otherwise |
| Adjustments.SubmitTwice | internal/modules/asset/query_admin.go:232-258 | submitting again under the same key, whatever happened in between, changes nothing and gives the same answer |
| RefundAllocation.AllocateSystemRefund | internal/modules/aftersale/system_delivery_return.go:146-173 | the in-place loop fills in the specified shares |
| RefundAllocation.SharesAddUp | internal/modules/aftersale/system_delivery_return.go:146-173 | the shares of a non-empty order add up to the amount, even where a product wraps |
| RefundAllocation.SharesNonNegative | internal/modules/aftersale/system_delivery_return.go:146-173 | where no product wraps no share is negative |
| RefundAllocation.ShareIsFloor | internal/modules/aftersale/system_delivery_return.go:167-170 | each share but the last is the floor of its exact part, with no 64-bit overflow under the stated bound |
| RefundAllocation.ShareIsFloorExactly | internal/modules/aftersale/system_delivery_return.go:167-170 | a share is the floor of its exact part exactly when amount times total fits 64 bits |
| RefundAllocation.WrappedShare | internal/modules/aftersale/system_delivery_return.go:167-170 | totals 2^61 and 1 and amount 4 give -3 and 7 |
| RefundAllocation.ShareWithinTotal | internal/modules/aftersale/system_delivery_return.go:167-170 | where no product wraps, a share but the last exceeds its item's total exactly when its exact part is one or more above it, so never while the amount is at most the weight |
| RefundAllocation.LastShare | internal/modules/aftersale/system_delivery_return.go:162-166 | where no product wraps, the last share is its exact part plus everything rounding cut off; it exceeds its item's total exactly when that outweighs its own shortfall, and by at most n - 2 when the refund is within the totals |
| RefundAllocation.LastShareExceeds | internal/modules/aftersale/system_delivery_return.go:162-166 | totals 10, 10, 10 and amount 29 give 9, 9, 11 |
| AfterSaleRefunds.SystemRefundAddsUp | internal/modules/aftersale/system_delivery_return.go:86-94 | fee and item shares of a system return add up to what is refunded, and none is negative where no product wraps |
| AfterSaleRefunds.ReservationKeepsCap | internal/modules/aftersale/service.go:766-772 | an accepted reservation keeps refunded plus reserved within the payment exactly when the checked sum stays within 64 bits |
| AfterSaleRefunds.RunKeepsRefunds | internal/modules/aftersale/service.go:757-782 | in every run, appeals included, refunded plus reserved stays within the payment, the refunded amounts on payment, order, refunds and cases agree, and each case has at most one live refund for exactly what was approved |
| AfterSaleMeaning.AcceptedExactly | internal/modules/aftersale/service.go:529-782 | in every state of a run each of the ten commands is accepted exactly when its conditions hold, told by case states, what is left of the order and what is left of the payment |
| AfterSaleMeaning.ApprovalExactly | internal/modules/aftersale/service.go:653-755 | an accepted approval leaves every granted line with its granted quantity and amount and every other with its request, approves their sum and the fee exactly when it refunds it, and for an immediate refund reserves exactly that |
| AfterSaleMeaning.ApprovalStands | internal/modules/aftersale/service.go:676-700 | in every run a customer's case carries exactly what its last accepted approval granted, and nothing without one |
| AfterSaleMeaning.StatusMoves | internal/modules/aftersale/service.go:427-632 | every accepted command moves every case to exactly the state its table gives |
| AfterSaleMeaning.RefundsMove | internal/modules/refund/service.go:270-330 | which refund row a command adds and what state it leaves every other in |
| AfterSaleRefunds.LedgerNeverExceeded | internal/modules/refund/service.go:286-288 | the settlement's own amount guards never refuse a success |
| AfterSaleRefunds.RetryKeeps | internal/modules/refund/service.go:626-702 | replacing a closed refund keeps all of this |
| AfterSaleRefunds.SystemKeeps | internal/modules/aftersale/system_delivery_return.go:60-134 | so does a system return |
| AfterSaleMeaning.SystemReturnExactly | internal/modules/aftersale/system_delivery_return.go:60-134 | a system return adds one case for all of the order and one refund of all that is left of the payment: the delivery fee, never negative and never more than is left, and the rest over the items |
| AfterSaleClaims.RunKeepsClaims | internal/modules/aftersale/service.go:129-164 | in every run of one step after another without appeals active claims never exceed the ordered quantity of an item, customers' amounts never exceed its total, the delivery fee is claimed at most once |
| AfterSaleClaims.InsertKeepsCaps | internal/modules/aftersale/service.go:66-182 | an application checked against any earlier cases and accepted keeps the caps exactly when it also passes its own tests on the current ones |
| AfterSaleInterleaving.TraceKeepsRefunds | internal/modules/aftersale/repository.go:302-312 | however applications overlap with each other and with every other step, refunded plus reserved stays within the payment |
| AfterSaleInterleaving.CapsHoldExactly | internal/modules/aftersale/repository.go:95-128 | over every interleaving the claim caps hold throughout exactly when every accepted application and every appeal would pass the application's tests at its own moment |
| AfterSaleInterleaving.FreshSnapshotPasses | internal/modules/aftersale/service.go:129-164 | an application during which nobody claimed anything passes them |
| AfterSaleCorners.SnapshotsClaimTwice | internal/modules/aftersale/service.go:66-90 | two overlapping applications both claim the one ordered piece |
| AfterSaleCorners.SnapshotsClaimFeeTwice | internal/modules/aftersale/repository.go:124-128 | two overlapping applications both claim the delivery fee |
| AfterSaleCorners.ClaimAfterSystemReturn | internal/modules/aftersale/repository.go:95-121 | an application that began before a system return is accepted after it |
| AfterSaleClaims.AmountTestIsRedundant | internal/modules/aftersale/service.go:144-152 | the test against the amount left is implied by the quantity test and the proportional part |
| AfterSaleClaims.NothingLeftAfterSystemReturn | internal/modules/aftersale/service.go:146-148 | every customer claim whose transaction sees a system return of the order is refused |
| AfterSaleClaims.AppealKeepsCaps | internal/modules/aftersale/service.go:417-424 | an appeal keeps all claim caps exactly when each of its lines would still pass the application's quantity test and nobody else claims the fee it includes |
| AfterSaleCorners.AppealBreaksCaps | internal/modules/aftersale/service.go:417-424 | a run in which one ordered piece carries two active claims |
| AfterSaleCorners.AppealClaimsFeeAgain | internal/modules/aftersale/service.go:417-424 | a run in which every line fits and the delivery fee is claimed twice |
| AfterSaleReview.EvidenceReturnsCase | internal/modules/aftersale/service.go:372-383 | an escalated case is decided by the merchant after evidence was requested and added |
| AfterSaleReview.MerchantDecidesAgain | internal/modules/aftersale/service.go:529-632 | from a case under platform review, over every run, the merchant can decide it at the end exactly when evidence was added at some step and nothing decided or ended it since |
| AfterSaleReview.PlatformKeepsCase | internal/modules/aftersale/service.go:529-560 | in every run in which nobody asks for evidence every decision of the merchant on such a case is refused |
| AfterSaleDesk.Desk.CreateCase | internal/modules/aftersale/service.go:129-182 | the application with its line loop, reading claims from its transaction's snapshot, accepts, refuses and records as specified |
| AfterSaleDesk.Desk.CollectLines | internal/modules/aftersale/service.go:139-155 | the loop finds the first failing line or collects all lines and their amount |
| AfterSaleDesk.Desk.ActiveRequested | internal/modules/aftersale/repository.go:95-121 | the quantity and amount the active cases of a snapshot hold of an item |
| AfterSaleDesk.Desk.CustomerTransition | internal/modules/aftersale/service.go:427-499 | evidence, withdrawal and appeal move a case only from their allowed states |
| AfterSaleDesk.Desk.ReviewCase | internal/modules/aftersale/service.go:529-632 | the four review decisions, with the platform's exclusive state |
| AfterSaleDesk.Desk.ApproveTx | internal/modules/aftersale/service.go:653-755 | an approval grants lines within the request, reserves a refund when it refunds at once, and rolls back when it cannot |
| AfterSaleDesk.Desk.ReservedRefund | internal/modules/aftersale/repository.go:302-312 | sums the open reservations of the payment |
| AfterSaleDesk.Desk.ReserveRefund | internal/modules/aftersale/service.go:758-782 | reserves a refund or refuses it |
| AfterSaleDesk.Desk.ReceiveReturn | internal/modules/aftersale/service.go:813-876 | received goods lead to a refund or, for broken seals, to the platform |
| AfterSaleReceipt.ReceiptDesk.ReceiveReturn | internal/modules/aftersale/service.go:813-876 | goods back to the stock and the refund are one transaction: a missing product or a refused refund rolls back both |
| AfterSaleReceipt.RestockedOnce | internal/modules/aftersale/service.go:827-863 | in every run the goods of a case go back to the stock at most once |
| AfterSaleReceipt.ReceiptExactly | internal/modules/aftersale/service.go:826-866 | a receipt that went through reserves a refund, and restocks if told to, unless an unopened return came back broken, which goes to the platform with neither |
| AfterSaleReceipt.GoodsAreApproved | internal/modules/aftersale/service.go:832-838 | what is put back of a product is what was approved on the case's lines of it |
| AfterSaleReceipt.StockGotBack | internal/modules/aftersale/service.go:827-866 | in every run each product has gained exactly the approved pieces of the receipts whose refund went through |
| AfterSaleReceipt.PutBackIsRefunded | internal/modules/aftersale/service.go:863-876 | every case whose goods went back has a refund of exactly what was approved on it |
| AfterSaleDesk.Desk.SystemDeliveryReturn | internal/modules/aftersale/system_delivery_return.go:33-140 | a full refund of a failed delivery, refused when anything is already claimed, reserved or refunded |
| StockJournal.RunKeeps | internal/modules/admin/service.go:284-315 | any run of adjusting, restocking and reserving keeps quantities non-negative, both equations of every record, gap-free chains per product and the latest record equal to the stock |
| StockJournal.ReserveKeeps | internal/modules/aftersale/service.go:929-958 | a reservation keeps the journal in order and every total unchanged |
| StockQuantities.ReplacementExactly | internal/modules/aftersale/service.go:929-958 | a replacement is reserved exactly when every product has in total what its pieces ask for, whatever their order, and moves exactly those totals |
| StockQuantities.AdjustExactly | internal/modules/admin/service.go:290-315 | an adjustment is accepted exactly when it is not zero, its product exists and nothing goes below zero; it moves that product's available by the delta in its direction, nothing else, and records just that |
| StockQuantities.RunMovesStock | internal/modules/admin/service.go:284-315 | in every run of the three writers each product has its start plus the accepted deltas plus what was restocked less what was reserved; reserved grew by just that and locked never changes |
| StockQuantities.RestockExactly | internal/modules/aftersale/service.go:830-863 | a return is refused only for a missing product and otherwise gives each product exactly its pieces back |
| StockQuantities.ByProductAscends | internal/modules/aftersale/service.go:934 | the pieces are handled in ascending product order |
| StockJournal.CheckDecidesJournal | internal/modules/cp1data/dq.go:191-308 | DQ-002 finds nothing exactly when the journal is in order |
| StockJournal.RunsPassCheck | internal/modules/cp1data/dq.go:191-308 | after any run of the three writers every DQ-002 query counts zero |
| StockBook.Book.AdjustStock | internal/modules/admin/service.go:261-315 | one locked adjustment with its record, or a refusal |
| StockBook.Book.RestockReturn | internal/modules/aftersale/service.go:830-863 | returned quantities are totalled per product and restocked in product order with one record each |
| StockBook.Book.ReserveReplacement | internal/modules/aftersale/service.go:929-958 | available moves to reserved piece by piece; a shortage rolls everything back |
| StockBook.Book.CheckStock | internal/modules/cp1data/dq.go:288-308 | counts all findings and samples the first ones up to the limit |
| TaintFixpoint.RootedSplits | tools/check-architecture/main.go:790-830 | rootedness is an owner part that ignores the variables or a variable part that ignores the owner |
| TaintFixpoint.RootedExactly | tools/check-architecture/main.go:790-830 | an expression is rooted exactly when its chain of selectors, parentheses and method calls goes through a known variable, the owner's `db` or `DB` field, or `DB()` or `dbConn()` called on an owner's field ending in `repo` |
| TaintFixpoint.LeastIsDerivable | tools/check-architecture/main.go:727-788 | the collected set is exactly the seeds and every variable at the end of a sequence of assignments, each from the owner's database, a seed or a variable earlier in the sequence |
| TaintFixpoint.Collector.CollectDerived | tools/check-architecture/main.go:727-788 | terminates with the smallest set that contains the seeds and is closed under assignment from a rooted expression |
| TaintFixpoint.LeastIgnoresOrder | tools/check-architecture/main.go:732-787 | the set does not depend on the order in which statements are visited |
| TaintFixpoint.Collector.CollectForOwners | tools/check-architecture/main.go:627-633 | one pass without an owner and one per owner, in any order, give the joint closure |
| TaintFixpoint.OneMoreOwner | tools/check-architecture/main.go:631-633 | closing under one more owner turns the closure of some owners into that of all |
| TaintFixpoint.JointLeastIgnoresOrder | tools/check-architecture/main.go:627-633 | the joint closure depends only on the set of statements and the set of owners |
| Backfill.BatchCovers | internal/modules/cp1data/wine_ticket_registry.go:33-40 | a batch is ascending, within the range, and skips nothing pending before its last id |
| Backfill.FixedExactly | internal/modules/cp1data/wine_ticket_registry.go:33-62 | fixing registers exactly the rows whose registry was missing, each with the type, id and settlement state that follow from it, and leaves every other row alone; only a refund without a case stays unregistered |
| Backfill.CompletedRegisters | internal/modules/cp1data/backfill.go:44-99 | once a resumed job completes every row of its range whose registry was missing is registered and every other row is as it was |
| Backfill.Backfiller.UpdateRows | internal/modules/cp1data/wine_ticket_registry.go:51-62 | fixes exactly the still matching rows of a batch and counts them |
| Backfill.Backfiller.RetryTransaction | internal/modules/cp1data/backfill.go:573-593 | succeeds exactly when fewer attempts fail than are allowed, and leaves nothing behind otherwise |
| Backfill.Backfiller.Run | internal/modules/cp1data/backfill.go:44-99 | one session, stopped anywhere, leaves an initial part of the sweep from its checkpoint, all of it when it completes, and nothing in a dry run; its saved counters grow by exactly the due rows, and the matching ones, up to the checkpoint |
| Backfill.ResumeIsOneRun | internal/modules/cp1data/backfill.go:54-68 | any number of interrupted sessions and a completed one leave the table of one uninterrupted run |
| Backfill.OrphanRecorder.RecordOrphans | internal/modules/cp1data/backfill.go:496-545 | each scan queues an initial part of the orphans in id order, all of them when it finishes |
| Backfill.RescansQueueOnce | internal/modules/cp1data/backfill.go:497-525 | however often the scan stops and starts over, the queue is an initial part of what one uninterrupted scan queues, in its order and without duplicates, and all of it once a scan finishes |
| CartInterleaving.TraceKeepsRows | internal/modules/cart/repository.go:119-125 | across all mutations, overlapping in any way and with catalogs changing in between, quantities stay in 1..99 |
| CartInterleaving.AskedIsHeld | internal/modules/cart/repository.go:119-125 | over every interleaving each row holds exactly what the accepted commands asked of it, so the cap of the upsert truncates no addition and no repurchase |
| CartModel.StepKeepsOneShop | internal/modules/cart/service.go:73-208 | a mutation checked against an older snapshot keeps the selection in one shop exactly when its check also holds of the current cart |
| CartInterleaving.OneShopExactly | internal/modules/cart/repository.go:41-46 | over every interleaving the selected items belong to one shop throughout exactly when that holds of every mutation |
| CartInterleaving.CurrentPasses | internal/modules/cart/service.go:73-208 | and it holds of every mutation that nothing overtook |
| CartInterleaving.SnapshotsSelectTwoShops | internal/modules/cart/repository.go:41-46 | two overlapping additions leave two shops selected |
| CartModel.RepurchaseCounts | internal/modules/cart/repurchase.go:163-237 | succeeded plus failed is the number of items |
| CartMeaning.ValidateExactly | internal/modules/cart/service.go:427-438 | which reason refuses a product: its shop closed, else not on sale, else short of stock |
| CartMeaning.DoneExactly | internal/modules/cart/service.go:73-209 | each command goes through exactly when its conditions hold of the locked rows, the snapshot and the catalog: quantities within 99 and the stock, open shops, products on sale, no other shop selected |
| CartMeaning.PlanExactly | internal/modules/cart/repurchase.go:163-222 | a wanted item goes in exactly when the shop sells it and has what the row will hold; it is reported added, updated or unchanged by what the row was |
| CartMeaning.RowsMove | internal/modules/cart/repository.go:119-215 | which rows a command leaves in the cart and which of them selected |
| CartMeaning.RepurchaseMoves | internal/modules/cart/repurchase.go:223-240 | a repurchase selects exactly the rows of the items that go in and deselects other shops' rows exactly when it replaces the selection |
| CartMeaning.ListingExactly | internal/modules/cart/service.go:190-200 | a shop selection finds a row unavailable exactly when one of its listed rows cannot be bought, and reports the first |
| CartModel.RepurchaseTwice | internal/modules/cart/repurchase.go:150-240 | repeating a repurchase with unchanged stock leaves the cart unchanged and counts the same |
| CartDesk.Desk.AddToCart | internal/modules/cart/service.go:73-117 | checks the quantity on the locked row and the other shops on the snapshot, and upserts as specified |
| CartDesk.Desk.ChangeQuantity | internal/modules/cart/service.go:266-328 | sets the quantity of a row on sale with enough stock, or refuses |
| CartDesk.Desk.SetItemSelection | internal/modules/cart/service.go:133-169 | writes first, then rolls back on an unavailable item or a second shop |
| CartDesk.Desk.SetShopSelection | internal/modules/cart/service.go:172-209 | selects a shop's rows only if the snapshot has no other shop selected and all are available, reporting the first unavailable row of the listing |
| CartDesk.Desk.RepurchaseItems | internal/modules/cart/repurchase.go:99-247 | plans all items, then writes all candidates, as specified |
| CartDesk.ParseItems | internal/modules/cart/repurchase.go:290-315 | accepts exactly the non-empty, bounded lists of distinct products with quantities in 1..99 |
| CartDesk.Desk.CartResponse | internal/modules/cart/service.go:358-396 | counts and amounts cover exactly the selected, available rows |

## Left out

- Several asset types at once: a ledger here is the ledger of one asset type; postings of different types share no balance row, lot or hold. The asset type and unit check of a command is therefore its type's own.
- Accounts as rows of their own: a customer or the platform is identified by its id, and the four balance rows of an account pair are created where the code creates the accounts.
- Text limits (key length, blank ids), feature switches, permissions, audit and outbox rows, member tier refresh, listing, paging and metrics output: single checks or output without a claim on money.
- Clocks, row ids and request hashes: times are parameters of the commands, ids are fresh row numbers, and equal request contents stand for equal hashes. A worker's round reads one time.
- LedgerConcurrency.InterleavingIsSerial: creating missing balance rows happens with the commit; the unique indexes are checked there too, on every committed row. Deadlock victims are aborts; that a waiting transaction proceeds is not claimed.
- LedgerStore.Store.TransferFunds: the second lookup after an idempotency conflict is left out, because without a concurrent writer it finds nothing new.
- LedgerExpiry.LotExpiryNeverCollides: needs a clock that does not run backwards; CollidesExactly is the condition for any clock.
- Versions and compare-and-set updates of after-sale rows: each service call locks the row it compares first, so a version that matches is never lost in between; a stale version is one more refusal.
- Order eligibility windows, rate limits, evidence checks and the choice of the initial review state: parameters or single checks.
- Refund rows per item (`ApplyItem`), partial provider reports, provider ids, callbacks and the submission worker's leases: a report is one of four outcomes, and resubmission moves a refund among its open states.
- AfterSaleRefunds.RunKeepsRefunds: proved for orders whose totals, fee and twice the payment stay within 64 bits; ReservationKeepsCap is the exact condition for a single reservation.
- AfterSaleClaims.RunKeepsClaims: one step after another and without appeals; AfterSaleInterleaving.CapsHoldExactly is the exact condition for overlapping applications and appeals.
- Snapshots follow MySQL's REPEATABLE READ: a transaction's plain reads see one state, fixed by the first of them, while locking reads see current rows. Where a transaction's checks rest on locking reads it is one step; where they rest on plain reads older than its lock the snapshot is a parameter.
- LedgerRepairTx.RepairRestoresExactly: a posting beside the repair is one step, as LedgerConcurrency allows; that a posting and the repair may wait for each other and one of them aborts is not modelled.
- LedgerProgress.UncontendedCommits: a command that will be refused or replayed takes all locks of its program before it is.
- RefundAllocation.LastShare: under the bound that amount times weight fits 64 bits; the weight itself is taken not to wrap.
- Other writers of stock quantities (order placement, merchants): only the three writers with the record layout above.
- StockBook.Book.CheckStock: a finding names its row; the JSON detail is left out. Creation times order records as they were written.
- The traversal of Go syntax trees: a function body is the list of its assignments and declarations, at any depth, in visiting order.
- Print settings, print tasks and verification history backfills: the registry backfills and the orphan queue have the resume logic. A checkpoint file that does not match is refused before anything runs.
- Backfill.Backfiller.Run: a stop between commit and checkpoint loses that batch's counts, though not its rows; the counters are stated for one session.
- A shop product that moves to another shop while it lies in a cart.
