# Referral commissions: a verified model

The platform splits every approved sale among a seller and the uplines above, keeps the money in a
ledger with an incremental index beside it, and pays members out in settlement batches. This project
models that machine and the parts around it whose correctness is not visible from any one function,
and proves what they keep, over all inputs and all runs.

## How it is laid out

**Money machine.** `Commission` has the arithmetic of one sale (rates, plan validator, chain, bonus
layers, rank override, ceiling), `Matching` what one bonus pays. `Tables` has the rows, `Ledger` the
index `monthly_summaries` and the plain sum it has to equal, `EngineSpec` every transaction as one
function on the tables. `EngineInv` states what every reachable state keeps; `BooksProofs`, `SettleProofs` and `ReserveProofs` prove it
transaction by transaction, and `EngineRuns`
lifts the invariant to whole runs: `Reached` holds of every state that some list of transactions leads
to from empty tables. `EngineTheorems`, `ApplyTheorems`,
`VoidTheorems` and `LockTheorems` hold the results over runs. What a single call answers and which rows
it changes is said on the tables, without the functions that compute it, in `ApplyRows` (which rows an
application writes), `SaleSteps` (approval, void, delivery, maturation, drafts, bonuses), `ReserveExact`,
`ReserveRows` and `ReserveTheorems` (reservation) and `PayoutSteps` (request, rejection, dispatch,
settlement, failure). `Engine` is the service itself: a class with the
tables as fields, its loops as loops, proved equal to the functions. Each database transaction is one
atomic method, and a refusal leaves the tables alone.

**Referral forest.** `Membership` has placement, the materialised path and the upline walk.
`Hierarchy`, `NetworkContext` and `NetworkPages` have the windowed admin view: a breadth-first window
under a node budget and a cap for each parent, clusters for the rest, keyset pages behind the clusters.
`TreeSnapshot` has the reverse pass that replaces a recursive subtree sum.

**Two concurrent protocols.** `Sessions` and `AuthService` split refresh and logout into an unlocked
read and a locked commit, with anything in between; `SessionReplies` says when each call is answered how
and what it leaves. `Relay` and `RelayService` split the notification outbox into claim, dispatch and
result steps of any number of workers; `RelayOutcomes` says what each step makes of every row.

**Formats and folds.** `Csv` with `CsvCells`, `PayoutEvents`, `Nacha` with `NachaColumns`, and `Reconcile`. CSV quoting is that of section 2
of RFC 4180; NACHA records are those of the Nacha Operating Rules, Appendix Three (ACH Record Format
Specifications).

`Prelude` and `Sums` hold what several modules share. Loops of the source are methods with invariants;
what such a method promises is a specification function, and the lemmas are about that function. Some
postconditions read `P(...) == true`: that keeps the predicate `P` in one piece for the verifier.

## What the proofs brought out

- A reservation can be refused by the unique index on open payouts although its selection has passed.
  The selection looks for an open payout of the reserved period only, the index allows one open payout
  for a member in any period. `ReserveProofs.ReserveRefused` says exactly when in terms of the
  selection, `ReserveExact.RefusedByTables` in terms of the tables, and
  `EngineTheorems.OtherMonthRefused` gives a run.
- The schema describes matching as a share of the seller's level-0 commission
  (apps/api/prisma/schema.prisma:560); the code pays it on the first line that is worth a cent. The
  payments differ exactly when the sponsor may earn, the lowest level that pays is above the seller's,
  and matching is worth a cent of what it pays (`Matching.MatchingDiffers`; a sale in
  `Matching.MatchingWithoutSeller`). The ceiling holds either way.
- Applying and approving are not idempotent, though the code says so (engine.service.ts:298). An
  application of which nothing is worth a cent leaves no row to recognise it by, so a later call is a
  first one again, and it may write rows: it does if its own team, tiers or chain make something worth a
  cent. `ApplyTheorems.SecondApprovalPays` is such a run. `ApplyTheorems.FinalExactly` and
  `ApplyTheorems.ApprovalFinalExactly` say exactly when an application and an approval are final,
  `ApplyTheorems.RepeatWrites` what a repeat does otherwise.
- Reserving and then failing gives back rows and index but not the payouts. Exactly the requests that the
  reservation had consumed have turned from open to failed, and every other reservation has left one
  failed payout (`EngineTheorems.ReserveThenFail`, on the tables in `EngineTheorems.FailedOnTables`, with
  a run in `EngineTheorems.RequestEndsFailed`).
- The comment above the ceiling guard calls it impossible to exceed; it is
  (`Commission.CeilingNeverExceeded`).

## Model

| member | source | states |
|---|---|---|
| `EngineTheorems.SummariesMatchLedger` | apps/api/src/engine/engine.service.ts:1797-1858 | in every reachable state, every column of every summary cell is the plain sum of the ledger rows with that status in that tenant, member, month and level |
| `EngineTheorems.GuardsNeverFire` | apps/api/src/engine/engine.service.ts:859-870 | in no reachable state is a transaction refused by a guard that watches for changed rows, changed payouts, a broken batch or an exceeded ceiling |
| `EngineTheorems.ProcessingRowsInOneBatch` | apps/api/src/engine/engine.service.ts:859-885 | in every reachable state, a row is processing exactly when a processing or dispatched batch has it as an item; then it is one batch, which lists it once; payable rows have no payout and no batch |
| `EngineTheorems.PayoutIsItsRows` | apps/api/src/engine/engine.service.ts:822-885 | in every reachable state, the total of a processing or paid payout is the sum of its batch items and also the sum of the ledger rows that point to it |
| `EngineTheorems.PaidTwice` | apps/api/src/engine/engine.service.ts:1098-1129 | in every reachable state, what a member has been paid is the same counted over paid payouts and over paid ledger rows |
| `EngineTheorems.OneOpenPayout` | apps/api/prisma/migrations/20260615144000_payout_one_open_per_member/migration.sql:8-10 | in every reachable state, a member has at most one requested or processing payout, and the active key is set exactly on those |
| `EngineTheorems.ReserveThenFail` | apps/api/src/engine/engine.service.ts:1218-1305 | a reservation that opened a batch can always be failed, and failing it restores every ledger row, sale, lock and summary column; an old payout differs afterwards if and only if a reservation had consumed it, and then it is an open request that ended failed with the batch and the reserved amount; each other reservation leaves one new failed payout |
| `EngineTheorems.RequestEndsFailed` | apps/api/src/engine/engine.service.ts:1218-1305 | concrete run: one bonus, a request, a reservation of the same month and its failure leave the row payable again and the request failed |
| `EngineTheorems.OtherMonthRefused` | apps/api/src/engine/engine.service.ts:515-665 | concrete run: one bonus, a request in month one, then a reservation of month two finds the row payable and is refused by the one-open-payout index |
| `EngineTheorems.FailedOnTables` | apps/api/src/engine/engine.service.ts:643-885 | the same on the tables: after a reservation and its failure an old payout differs if and only if it was an open request of the reserved period, the named one if one was named, of a target that can be reserved; and a member has a new payout if and only if it is a target that can be reserved, no request was named, and it had nothing open in the period |
| `ReserveProofs.ReserveRefused` | apps/api/src/engine/engine.service.ts:643-858 | the index refuses a reservation if and only if it is not a preview, its selection passes, and some reserved member has an open payout that the reservation does not consume |
| `ReserveExact.RefusedByTables` | apps/api/src/engine/engine.service.ts:643-858 | the same on the tables: the index refuses exactly when nothing else does, it is no preview, and some target with reservable rows, whom compliance lets be paid, has an open payout of another period |
| `ReserveExact.ReserveExactly` | apps/api/src/engine/engine.service.ts:822-885 | a reservation that opens a batch puts exactly the consumed requests to work, opens exactly one payout for each other reservation, in order, moves exactly the reserved rows, each to the payout of its reservation, and leaves all other rows and payouts as they were |
| `VoidTheorems.VoidNetsToZero` | apps/api/src/engine/engine.service.ts:314-393 | in every reachable state, the rows of a void sale sum to zero for every member and level |
| `VoidTheorems.OneReversal` | apps/api/src/engine/engine.service.ts:353-373 | in every reachable state, a commission of a void sale has exactly one reversal, equal and opposite, and a sale that is not void has no reversal |
| `VoidTheorems.VoidMovesCells` | apps/api/src/engine/engine.service.ts:371-379 | voiding takes the unpaid rows of the sale out of pending and payable, puts exactly minus its paid rows into payable, and leaves processing and paid as they were, in every cell |
| `VoidTheorems.VoidedStepsAddNothing` | apps/api/src/engine/engine.service.ts:269-272 | on a void sale, approving, applying, voiding and delivering change no table, and maturation passes its rows by |
| `VoidTheorems.VoidIsFinal` | apps/api/src/engine/engine.service.ts:320-323 | whatever transactions follow, a void sale stays as it is, gets no further row, and its rows keep member, level, type and amount; closed and paid rows keep their status |
| `LockTheorems.LockedMonthNeverGrows` | apps/api/src/engine/engine.service.ts:1653-1660 | from any reachable state and over any run without an unlock of that month, the month stays locked and the pending, payable, processing and paid total of each of its cells never increases |
| `LockTheorems.OnlyVoidMoves` | apps/api/src/engine/engine.service.ts:1653-1660 | in a reachable state with the month locked, every step but a void keeps the total of each of its cells exactly |
| `LockTheorems.LocksKept` | apps/api/src/periods/periods.service.ts:84-138 | no transaction but its own unlock takes a period lock away |
| `Commission.CeilingNeverExceeded` | apps/api/src/engine/engine.service.ts:1502-1569 | for every stored plan, sale amount, chain, tenant policy, rank ladder, team size and earnings, base lines, fast-start, matching and override together stay within floor(amount * (pool + fastStart + matching + maxOverride) / 10000) |
| `Matching.MatchingDiffers` | apps/api/src/engine/engine.service.ts:1532-1535 | matching as paid differs from the schema's description, a share of the seller's level-0 commission, if and only if the sponsor may earn, the lowest level that has a member and covers a cent of the sale is above the seller's, and matching covers a cent of what that level pays; then the description pays nothing and the code pays one line |
| `Matching.FirstIsLowest` | packages/shared/src/commission.ts:32-42 | the first line is that of the lowest plan level that has a member and covers a cent, and there is none exactly when no level does |
| `Matching.MatchingBasis` | packages/shared/src/commission.ts:32-42 | the first line is the seller's level-0 commission if and only if the plan's level 0 is worth at least one cent of the sale; lines are in strictly ascending levels |
| `Matching.MatchingWithoutSeller` | apps/api/prisma/schema.prisma:560-563 | concrete sale in which the seller has no level-0 commission and matching still pays, on the sponsor's own line: the schema's description of matching is not what the code does |
| `Commission.BpsAmount` | packages/shared/src/money.ts:8-17 | the result is the largest number of cents covered by the rate, and no more than the amount |
| `Commission.ValidatePlan` | packages/shared/src/plan.ts:28-57 | no issue is reported if and only if the levels are exactly 0..depth-1, each once, and their rates sum to no more than the pool; each kind of issue is reported exactly when its own rule is broken (a repeated level by its number) |
| `Commission.GapTest` | packages/shared/src/plan.ts:41-47 | the test on the sorted list is the same as: as many levels as the depth, all different, and none below the depth missing |
| `Commission.SortKeeps` | packages/shared/src/commission.ts:32-32 | sorting keeps the entries, their number and their sum of rates, and gives strictly ascending levels exactly when none was repeated |
| `Commission.ComputeCommissionLines` | packages/shared/src/commission.ts:26-45 | the loop over the sorted levels builds the lines that the specification function gives |
| `Commission.LinesMeaning` | packages/shared/src/commission.ts:34-42 | a line is there if and only if its level is in the plan, the chain has a member at that level, and the floor of the rate is at least one cent; it pays that member that floor |
| `Commission.PaidMembers` | apps/api/src/engine/engine.service.ts:1757-1768 | level 0 pays the seller; with compression or with inactive members excluded, only active uplines are paid above it; without compression a line pays the member at its own distance |
| `Commission.LinesFloorSum` | packages/shared/src/commission.ts:47-50 | the distributed cents never exceed the sale amount times the summed rates |
| `Commission.LinesFloorLoss` | packages/shared/src/commission.ts:36-42 | when every level has a member, rounding withholds less than one cent a level |
| `Commission.ResolveTier` | apps/api/src/ranks/ranks.service.ts:52-56 | the loop returns the last tier in ladder order whose two thresholds are met, and none only if no tier is reached |
| `Commission.OverrideWithinMax` | apps/api/src/ranks/ranks.service.ts:60-72 | no member can have an override above the maximum of the effective ladder |
| `ApplyTheorems.FinalExactly` | apps/api/src/engine/engine.service.ts:298-304 | a committed application is final - every later one, with any inputs, changes nothing and reports the same rows - if and only if the sale was not an approved one without commissions of which no plan level with a member, no due fast-start and no override covers a cent |
| `ApplyTheorems.ApprovalFinalExactly` | apps/api/src/engine/engine.service.ts:263-304 | a committed approval, of a draft or of an approved sale, is final - every later approval, by anybody and with any inputs, changes nothing and reports the same rows - if and only if the sale had a commission row or a plan level with a member, a due fast-start or an override covers a cent |
| `ApplyTheorems.NothingToWrite` | apps/api/src/engine/engine.service.ts:1456-1556 | an application has no row to write exactly when neither a plan level that has a member in the chain, nor a due fast-start, nor the override of the tier reached covers a cent of the sale |
| `ApplyTheorems.RepeatWrites` | apps/api/src/engine/engine.service.ts:1437-1445 | after an application that wrote nothing, a repeat with a plan and a chain goes through, is reported as applied, and writes rows if and only if something covers a cent with its own inputs |
| `ApplyTheorems.RepeatCanPay` | apps/api/src/engine/engine.service.ts:1437-1445 | after an application that wrote nothing, some repeat on the same plan and chain writes a row if and only if the sale amount is positive |
| `ApplyTheorems.SecondApprovalPays` | apps/api/src/engine/engine.service.ts:263-304 | concrete run: a sale of 100 cents whose first approval writes nothing and whose second approval, once the team has grown, writes a ten cent override |
| `ApplyTheorems.ApplyAgain` | apps/api/src/engine/engine.service.ts:298-304 | after every application but that one kind, applying again with any inputs changes nothing and reports the same number of rows |
| `ApplyTheorems.ApplyNothingAgain` | apps/api/src/engine/engine.service.ts:1437-1445 | after that one kind the ledger and the index are as before, and the same inputs again change no table but are reported as applied once more |
| `ApplyTheorems.AppliedCount` | apps/api/src/engine/engine.service.ts:1442-1445 | after an application the sale has exactly as many commission rows as it reported |
| `Ledger.BalancedInsert` | apps/api/src/engine/engine.service.ts:1835-1858 | inserting a row together with a bump of its amount in its bucket keeps every cell equal to the ledger sum |
| `Ledger.BalancedUpdate` | apps/api/src/engine/engine.service.ts:1835-1858 | changing a row inside its bucket together with a bump of the difference keeps every cell equal to the ledger sum |
| `Ledger.CollectGroups` | apps/api/src/engine/engine.service.ts:1803-1814 | the one-pass grouping holds exactly the touched buckets, each with the total of its items |
| `Ledger.MoveBatchSummary` | apps/api/src/engine/engine.service.ts:1797-1829 | bumping each bucket once with its group total ends in the same index as one bump for every item |
| `Ledger.BumpItemsAt` | apps/api/src/engine/engine.service.ts:1815-1828 | bumping item by item moves each cell by the bucket's total, and nothing else |
| `EngineRuns.StepKeeps` | apps/api/src/engine/engine.service.ts:263-1428 | every transaction of the engine, of payout requests and of period locks keeps the invariant of the money tables |
| `EngineRuns.RunKeeps` | apps/api/src/engine/engine.service.ts:263-1428 | the invariant holds after every sequence of transactions |
| `EngineRuns.Reachable` | apps/api/src/engine/engine.service.ts:263-1428 | every state that some list of transactions leads to from empty tables satisfies the invariant of the money tables |
| `EngineRuns.LeadsIsRun` | apps/api/src/engine/engine.service.ts:263-1428 | a list of transactions leads from a state to exactly one other: the state that performing them one by one computes, refused ones changing nothing |
| `EngineRuns.StepEvolves` | apps/api/src/engine/engine.service.ts:263-1428 | no transaction deletes or rewrites a ledger row: rows keep member, level, type and amount and move one step in their life, a new row never joins a void sale, and in a locked month a new row adds nothing |
| `BooksProofs.ApplyKeeps` | apps/api/src/engine/engine.service.ts:1437-1572 | applying commissions keeps the invariant |
| `BooksProofs.ApproveKeeps` | apps/api/src/engine/engine.service.ts:263-296 | approving keeps the invariant |
| `BooksProofs.CeilingGuardUnreachable` | apps/api/src/engine/engine.service.ts:1558-1569 | applying is never refused by the ceiling guard, in any state of the tables |
| `BooksProofs.VoidMeaning` | apps/api/src/engine/engine.service.ts:314-393 | a committed void closes every unpaid commission row of the sale, leaves its paid ones paid, appends one opposite row for each in order, changes no other row, and keeps every cell equal to the ledger sum |
| `BooksProofs.VoidRowsMeaning` | apps/api/src/engine/engine.service.ts:353-390 | reversing a list of different rows one after the other closes exactly those rows, appends their reversals in order, and keeps every cell equal to the ledger sum |
| `BooksProofs.VoidKeeps` | apps/api/src/engine/engine.service.ts:314-393 | voiding keeps the invariant |
| `BooksProofs.SetMaturityMeaning` | apps/api/src/engine/engine.service.ts:413-416 | the delivery update sets the maturity date of exactly the selected rows and touches nothing else |
| `BooksProofs.DeliverKeeps` | apps/api/src/engine/engine.service.ts:396-419 | marking delivery keeps the invariant |
| `BooksProofs.MatureRowsMeaning` | apps/api/src/engine/engine.service.ts:462-469 | maturation turns exactly the listed rows payable |
| `BooksProofs.MatureKeeps` | apps/api/src/engine/engine.service.ts:422-472 | a maturation batch keeps the invariant |
| `BooksProofs.AwardKeeps` | apps/api/src/engine/engine.service.ts:1384-1428 | a bonus, of either sign, keeps the invariant |
| `BooksProofs.DraftStepsKeep` | apps/api/src/sales/sales.service.ts:479-502 | creating and deleting drafts keeps the invariant |
| `SettleProofs.UpdateManyMeaning` | apps/api/src/engine/engine.service.ts:1113-1117 | the conditional update moves exactly the items' rows and counts all of them, provided each row can make the move |
| `SettleProofs.MoveBalanced` | apps/api/src/engine/engine.service.ts:1797-1829 | moving the items' rows with one bump an item keeps every cell equal to the ledger sum |
| `SettleProofs.RequestKeeps` | apps/api/src/payouts/payouts.service.ts:834-927 | a payout request keeps the invariant |
| `SettleProofs.RejectKeeps` | apps/api/src/engine/engine.service.ts:1322-1355 | rejecting a request keeps the invariant |
| `SettleProofs.LiveBatchIntact` | apps/api/src/engine/engine.service.ts:1166-1208 | a processing or dispatched batch is always intact: its rows are processing and its own, every payout of it has an item and is processing, and there is one |
| `SettleProofs.DispatchKeeps` | apps/api/src/engine/engine.service.ts:934-1046 | dispatch keeps the invariant and is never refused by the guards on rows and payouts |
| `SettleProofs.SettleKeeps` | apps/api/src/engine/engine.service.ts:1055-1164 | settlement keeps the invariant, and a dispatched batch always settles: no guard can refuse it |
| `SettleProofs.FailKeeps` | apps/api/src/engine/engine.service.ts:1218-1319 | failing keeps the invariant, and a processing batch can always be failed |
| `SettleProofs.EndRow` | apps/api/src/engine/engine.service.ts:1113-1129 | settling or failing a batch changes exactly the rows that carry its batch id: paid and still linked, or payable without payout and batch |
| `ReserveProofs.SortUniqueMeaning` | apps/api/src/engine/engine.service.ts:515-522 | the de-duplicated targets are exactly the selected ids, each once, ascending |
| `ReserveProofs.OverThresholdMeaning` | apps/api/src/engine/engine.service.ts:523-534 | the eligible members are exactly those with a positive payable net that reaches the threshold, each once |
| `ReserveProofs.ReserveKeeps` | apps/api/src/engine/engine.service.ts:489-926 | a reservation keeps the invariant, and its claims never meet the changed-rows guard |
| `ReserveProofs.ReserveTakes` | apps/api/src/engine/engine.service.ts:822-885 | a committed reservation takes only free payable rows and open requests into its one new batch; every other row, payout and batch is as before; without reservations nothing changes |
| `Engine.WriteLines` | apps/api/src/engine/engine.service.ts:1469-1497 | the write loop posts one row and one bump for every line, as the specification function says |
| `Engine.ReverseEntries` | apps/api/src/engine/engine.service.ts:353-390 | the reversal loop ends in the books that the void theorems are about |
| `Engine.MatureEntries` | apps/api/src/engine/engine.service.ts:463-469 | the maturation loop ends in the books that the maturation lemmas are about |
| `Engine.SelectEach` | apps/api/src/engine/engine.service.ts:643-770 | the selection loop gives reservations and skips in target order, or the first refusal |
| `Engine.ClaimEach` | apps/api/src/engine/engine.service.ts:822-908 | the claim loop claims every reservation, or reports the first refusal |
| `Engine.WriteCommissions` | apps/api/src/engine/engine.service.ts:1456-1556 | writes base lines and bonuses, then the override at the rank that the seller has with those rows |
| `Engine.ApplyTransaction` | apps/api/src/engine/engine.service.ts:1437-1572 | the transaction commits or aborts exactly as the apply step of the runs does |
| `Engine.ReserveTransaction` | apps/api/src/engine/engine.service.ts:489-926 | selection, claims and grouped summary bumps commit or abort exactly as the reserve step of the runs does |
| `Engine.SettleTransaction` | apps/api/src/engine/engine.service.ts:1067-1163 | guards, payout update, row update and grouped bumps commit or abort exactly as the settle step of the runs does |
| `Engine.FailTransaction` | apps/api/src/engine/engine.service.ts:1226-1318 | guards, row release, payout update and grouped bumps commit or abort exactly as the fail step of the runs does |
| `Engine.EngineService.constructor` | apps/api/src/engine/engine.service.ts:185-220 | a new service has empty tables, which satisfy the invariant |
| `Engine.EngineService.CreateDraft` | apps/api/src/sales/sales.service.ts:1048-1083 | adds the draft and nothing else |
| `Engine.EngineService.DeleteDraft` | apps/api/src/sales/sales.service.ts:479-502 | removes a sale only while it is a draft of the tenant |
| `Engine.EngineService.ApplyCommissions` | apps/api/src/engine/engine.service.ts:299-304 | answers and changes the tables as the apply step does, and keeps the invariant |
| `Engine.EngineService.ApproveSale` | apps/api/src/engine/engine.service.ts:263-296 | answers and changes the tables as the approve step does: void sales and self-approvals under separation of duties are refused without a change |
| `Engine.EngineService.VoidSale` | apps/api/src/engine/engine.service.ts:310-393 | answers and changes the tables as the void step does: a sale with a processing row is refused without a change |
| `Engine.EngineService.MarkDelivered` | apps/api/src/engine/engine.service.ts:396-419 | answers and changes the tables as the delivery step does: only approved sales, and only once |
| `Engine.EngineService.MatureCommissions` | apps/api/src/engine/engine.service.ts:422-472 | answers and changes the tables as the maturation step does: at most the limit of unlocked due rows |
| `Engine.EngineService.AwardBonus` | apps/api/src/engine/engine.service.ts:1384-1428 | adds one payable adjustment and its cell, unless the month is locked |
| `Engine.EngineService.LockPeriod` | apps/api/src/periods/periods.service.ts:84-125 | adds the lock and changes nothing else |
| `Engine.EngineService.UnlockPeriod` | apps/api/src/periods/periods.service.ts:128-138 | removes the lock and changes nothing else |
| `Engine.EngineService.RequestPayout` | apps/api/src/payouts/payouts.service.ts:834-927 | returns the open payout of the member if there is one, else opens one for the payable net, or refuses |
| `Engine.EngineService.RejectPayoutRequest` | apps/api/src/engine/engine.service.ts:1322-1355 | rejects only a requested payout; no ledger row moves |
| `Engine.EngineService.ReservePayoutBatch` | apps/api/src/engine/engine.service.ts:489-926 | answers and changes the tables as the reserve step does; a refusal leaves them alone |
| `Engine.EngineService.DispatchPayoutBatch` | apps/api/src/engine/engine.service.ts:934-1046 | marks a processing batch dispatched; repeated calls change nothing |
| `Engine.EngineService.SettlePayoutBatch` | apps/api/src/engine/engine.service.ts:1055-1164 | answers and changes the tables as the settle step does; a refusal leaves them alone |
| `Engine.EngineService.FailPayoutBatch` | apps/api/src/engine/engine.service.ts:1218-1319 | answers and changes the tables as the fail step does; a refusal leaves them alone |
| `Membership.LabelsTellApart` | apps/api/src/common/crypto.ts:98-100 | different ids have different path labels, and no label holds the separator |
| `Membership.PathIsAncestry` | apps/api/src/memberships/memberships.service.ts:29-44 | the stored path is the labels of all ancestors from the root, joined by dots, and the stored depth is one less than their number |
| `Membership.ReachesIsPrefix` | apps/api/src/memberships/memberships.service.ts:29-44 | a member is reached by sponsor links if and only if its ancestry is a prefix of the other's, label by label |
| `Membership.PathsTellApart` | apps/api/src/memberships/memberships.service.ts:29-30 | no two members share a path |
| `Membership.BranchTestIsReach` | apps/api/src/members/network-hierarchy.service.ts:1822-1827 | the string test on paths, the prefix of labels and the walk along sponsors give the same answer for every two members |
| `Membership.InsertedRow` | apps/api/src/memberships/memberships.service.ts:32-59 | a successful insert used a fresh id, one of the drawn codes that was free, a free user and an existing sponsor, and changed no other column of the row |
| `Membership.MembershipsTable.Insert` | apps/api/src/memberships/memberships.service.ts:32-59 | the retry loop inserts the row with the first free code, or ends with the violation that the source raises |
| `Membership.MembershipsTable.CreateUnder` | apps/api/src/memberships/memberships.service.ts:21-60 | places the member below the sponsor and keeps the path law; another tenant's sponsor is refused |
| `Membership.MembershipsTable.CreateRoot` | apps/api/src/memberships/memberships.service.ts:89-124 | places a member without sponsor at depth zero and keeps the path law |
| `Membership.UplinesMeaning` | apps/api/src/engine/engine.service.ts:1732-1747 | the walk upward returns the last members of the ancestry, nearest first, as many as the depth allows, each with its status |
| `Membership.UplineChain` | apps/api/src/engine/engine.service.ts:1732-1747 | the loop returns that chain for every stored seller; only an unknown seller is refused |
| `Membership.PlacementsPlaced` | apps/api/src/memberships/memberships.service.ts:21-124 | after every sequence of placements and status changes, every row repeats the path and depth of its sponsor |
| `Membership.PathsAfterPlacements` | apps/api/src/memberships/memberships.service.ts:21-124 | after every such sequence, path, depth, prefix test, string test and sponsor walk agree for every two members |
| `Hierarchy.BelowOneChild` | apps/api/src/members/network-hierarchy.service.ts:1901-1904 | everyone below a member is below exactly one of its children, and nobody else is below any |
| `Hierarchy.WeightsOfChildren` | apps/api/src/members/network-hierarchy.service.ts:2200-2216 | a member's subtree count is the sum of its children's counts and their number; all members are the sum over the roots |
| `Hierarchy.RepresentedOnce` | apps/api/src/members/network-hierarchy.service.ts:412-466 | for every window that grows from the anchor, a member in scope is loaded or in exactly one unloaded branch at its edge, and a member out of scope is in neither |
| `Hierarchy.WindowIsComplete` | apps/api/src/members/network-hierarchy.service.ts:463-466 | loaded members and the weights of the unloaded branches add up to the scope |
| `NetworkContext.LevelTakesFirst` | apps/api/src/members/network-hierarchy.service.ts:2132-2172 | a level holds, of every frontier parent, the first children in (joinedAt, id) order, up to the cap |
| `NetworkContext.ReadContextMembers` | apps/api/src/members/network-hierarchy.service.ts:2065-2101 | the breadth-first loop loads the levels of the specification function, cut to the budget; its window is as large as depth, budget and pages allow |
| `NetworkContext.ContextWindow` | apps/api/src/members/network-hierarchy.service.ts:2065-2172 | for every anchor, depth and budget the window is within both, grows from the anchor, and holds of every parent a prefix of all its children in key order |
| `NetworkContext.GroupByParent` | apps/api/src/members/network-hierarchy.service.ts:2226-2230 | the map groups the loaded members by sponsor, in loading order |
| `NetworkContext.ContextClusters` | apps/api/src/members/network-hierarchy.service.ts:2219-2272 | the loop pushes a cluster for every group with something left, in the order of the groups |
| `NetworkContext.ClustersByMember` | apps/api/src/members/network-hierarchy.service.ts:2233-2269 | the cluster counts add up to the subtrees of exactly those children that are not loaded |
| `NetworkContext.ContextIsComplete` | apps/api/src/members/network-hierarchy.service.ts:446-466 | for every window and any order of the summary groups, loaded members and cluster counts add up to the members in scope |
| `NetworkContext.AdminContext` | apps/api/src/members/network-hierarchy.service.ts:386-498 | refused only for a depth outside 1..5 or an unknown focus; otherwise complete, with representedNodes equal to totalNodes, within the budget of 250 nodes, for the whole tenant and for a focus; a member within the depth whose parent is shown is left out only behind a full page of siblings or members that used the budget up |
| `NetworkPages.ReadBranchPage` | apps/api/src/members/network-hierarchy.service.ts:1876-2005 | shows at most a page of the rows beyond the cursor, a remainder count, and a cursor exactly when rows are left |
| `NetworkPages.KeysetCuts` | apps/api/src/members/network-hierarchy.service.ts:1889-1922 | the rows beyond the key of the k-th child are exactly the children from k on |
| `NetworkPages.PagesChain` | apps/api/src/members/network-hierarchy.service.ts:1955-2005 | a page's cursor leads to the page right behind it, which represents exactly what this page left over |
| `NetworkPages.WalkYieldsRest` | apps/api/src/members/network-hierarchy.service.ts:1970-1998 | following the cursors from the k-th child yields every remaining child once, in order, within one page for each page size of children |
| `NetworkPages.ClusterOpens` | apps/api/src/members/network-hierarchy.service.ts:2233-2269 | there is a cluster exactly when children are missing from the window; its cursor stands after the last loaded child and its count is what its first page represents |
| `TreeSnapshot.HandedUpIsBelow` | apps/api/src/members/members.tree-snapshot.ts:111-118 | what the children of a node hand up in the reverse pass is the sum over everything strictly below the node in the list |
| `TreeSnapshot.HandUp` | apps/api/src/members/members.tree-snapshot.ts:112-117 | one round adds the node's team and revenue to its parent if the list has it, and to nobody else |
| `TreeSnapshot.Start` | apps/api/src/members/members.tree-snapshot.ts:107-110 | the initial maps hold one entry a node, with nothing handed up yet |
| `TreeSnapshot.Accumulate` | apps/api/src/members/members.tree-snapshot.ts:105-118 | for every list with parents before children, one reverse pass gives each node its number of proper descendants in the list and the revenue of its whole subtree in the list |
| `Sessions.OneSessionPerToken` | apps/api/src/auth/auth.service.ts:497-553 | under every interleaving of reads and commits, no two sessions were refreshed from the same token, and no two tokens share a hash |
| `Sessions.OneLivePerFamily` | apps/api/src/auth/auth.service.ts:522-542 | under every interleaving, a session family has at most one unrevoked token among those issued since the start |
| `Sessions.LiveIsCurrent` | apps/api/src/auth/auth.service.ts:508-542 | under every interleaving, each unrevoked token issued since the start carries the user's current generation, and has passed the second factor if the user has one; only the tokens from before the start have no generation |
| `Sessions.ReplayRevokesAll` | apps/api/src/auth/auth.service.ts:508-511 | replaying a revoked token is answered as reuse and revokes every token of its user |
| `Sessions.StepKeeps` | apps/api/src/auth/auth.service.ts:449-588 | every read and every locked commit keeps the session invariant |
| `Sessions.RunKeeps` | apps/api/src/auth/auth.service.ts:449-588 | the session invariant holds after every interleaving, from any state with only pre-generation tokens |
| `AuthService.TokenStore.constructor` | apps/api/src/auth/auth.service.ts:124-128 | a store over such a starting state satisfies the invariant |
| `AuthService.TokenStore.AdvanceAndRevoke` | apps/api/src/auth/auth.service.ts:928-940 | raises the user's generation and revokes every token of the user, and no other |
| `AuthService.TokenStore.IssueSession` | apps/api/src/auth/auth.service.ts:963-992 | issues one token of the current generation, or refuses a user whose second factor is missing |
| `AuthService.TokenStore.BeginCall` | apps/api/src/auth/auth.service.ts:498-501 | remembers the token row as read, and locks and changes nothing |
| `AuthService.TokenStore.FinishRefresh` | apps/api/src/auth/auth.service.ts:503-543 | decides on the remembered row under the user lock: reuse, outdated, expired, already used, or rotated; keeps the invariant whatever happened since the read |
| `AuthService.TokenStore.FinishLogout` | apps/api/src/auth/auth.service.ts:555-563 | revokes all sessions of the user if the remembered row was live |
| `AuthService.TokenStore.RevokeSession` | apps/api/src/auth/auth.service.ts:580-588 | revokes all sessions of the user if the named one is live, else reports it missing |
| `AuthService.TokenStore.SetSecondFactor` | apps/api/src/auth/auth.service.ts:449-496 | changes the second factor, the generation and the tokens together |
| `AuthService.TokenStore.ConfirmPasswordReset` | apps/api/src/auth/auth.service.ts:712-736 | advances the generation and revokes the tokens if the reset token was consumed, else changes nothing |
| `Relay.AtMostFiveDispatches` | apps/api/src/notifications/notification-relay.service.ts:137-264 | under every interleaving of workers, a notification is dispatched at most as often as it was claimed, which is its attempts, which is at most five |
| `Relay.OnlyHolderDecides` | apps/api/src/notifications/notification-relay.service.ts:147-185 | a processing row changes only by a dispatched result under its current lease, or by a claim after that lease ran out |
| `Relay.FinalForever` | apps/api/src/notifications/notification-relay.service.ts:147-183 | a sent or failed notification never changes again |
| `Relay.ProcessingRecovers` | apps/api/src/notifications/notification-relay.service.ts:194-249 | a processing row has a lease with an end; after it, the row is claimable, or at the attempt cap the next claim that does not skip it fails it |
| `Relay.StepSpends` | apps/api/src/notifications/notification-relay.service.ts:250-262 | every claimed row spends one of the attempts left over all rows; dispatch and results spend none |
| `Relay.RetrySeconds` | apps/api/src/notifications/notification-relay.service.ts:169-169 | the delay starts at 30 seconds and doubles with every attempt up to 240 |
| `RelayService.FailExpiredRows` | apps/api/src/notifications/notification-relay.service.ts:194-225 | fails exactly the unlocked rows whose lease ran out at the cap |
| `RelayService.LeaseRows` | apps/api/src/notifications/notification-relay.service.ts:250-262 | leases the picked rows one by one, each under a lease of its own |
| `RelayService.Worker.constructor` | apps/api/src/notifications/notification-relay.service.ts:113-117 | an idle worker on an empty outbox |
| `RelayService.Worker.ClaimPending` | apps/api/src/notifications/notification-relay.service.ts:194-264 | claims at most a batch and keeps the outbox invariant |
| `RelayService.Worker.Process` | apps/api/src/notifications/notification-relay.service.ts:140-185 | delivers one claimed row unless its lease ran out, and writes the result back only under that lease |
| `RelayService.Worker.DrainOnce` | apps/api/src/notifications/notification-relay.service.ts:137-192 | the answer is the number of attempts spent |
| `RelayService.Worker.Tick` | apps/api/src/notifications/notification-relay.service.ts:119-133 | ends because full batches use up attempts; a busy worker does nothing, and the busy mark is as before |
| `Csv.Parse` | apps/api/src/sales/csv.ts:5-46 | the character loop reads the table that the specification function reads |
| `Csv.PrintThenParse` | apps/api/src/sales/csv.ts:5-60 | for every table of non-empty rows, parsing what was printed gives the table back, with carriage returns and CR LF as line feeds, the mark in front of formula-leading cells, and without all-blank rows |
| `Csv.PlainCellsComeBack` | apps/api/src/sales/csv.ts:49-60 | a cell that is not formula-leading and has no carriage return comes back as it was |
| `Csv.ReadableIsSafe` | apps/api/src/sales/csv.ts:53-55 | no cell is formula-leading after it has been printed and read back |
| `PayoutEvents.CollectEvents` | apps/api/src/payouts/payout-presentation.ts:151-155 | the id map holds every event once in order of appearance, or the loop gives up at the first invalid or contradicting event |
| `PayoutEvents.FoldSorted` | apps/api/src/payouts/payout-presentation.ts:158-169 | the event loop folds the whole log or gives up at the first event that does not fit |
| `PayoutEvents.FoldPayoutEvents` | apps/api/src/payouts/payout-presentation.ts:148-171 | the three stages together give the presentation that the theorems are about |
| `PayoutEvents.OrderDoesNotMatter` | apps/api/src/payouts/payout-presentation.ts:151-170 | the presentation depends only on which events there are: any reordering and any repetition gives the same |
| `PayoutEvents.ReachIsWord` | apps/api/src/payouts/payout-presentation.ts:159-169 | the kinds are accepted with a final state if and only if they are requested hold*, then nothing, rejected, or processing hold* with an optional settled or failed, and end in that state |
| `PayoutEvents.AcceptedLogs` | apps/api/src/payouts/payout-presentation.ts:158-170 | a log is accepted if and only if its kinds are such a word, its dates never go back, and its events carry what their kind asks; the fold then holds the state, attempt and method of that log, the dates of its one processing and its one closing event, and the hold that is on |
| `PayoutEvents.AvailableExactly` | apps/api/src/payouts/payout-presentation.ts:156-170 | consistent events are presented if and only if their log is numbered from one, in time, complete in its fields and of that form; what is shown is then the state, attempt, method, dates and hold of that log |
| `PayoutEvents.InconsistentUnavailable` | apps/api/src/payouts/payout-presentation.ts:152-155 | an invalid event, or two different events under one id, makes the payout unavailable |
| `Nacha.BuildNachaFile` | apps/api/src/payouts/nacha.ts:28-89 | the lines pushed by the loops are the records of the specification function, in order |
| `Nacha.AllLines94` | apps/api/src/payouts/nacha.ts:34-88 | every line has 94 characters if and only if the year has four digits |
| `Nacha.HeaderLength` | apps/api/src/payouts/nacha.ts:34-49 | the two header records have 94 characters if and only if the year has four digits |
| `Nacha.WholeBlocks` | apps/api/src/payouts/nacha.ts:79-86 | the file is whole blocks of ten lines, with fewer than ten of padding |
| `Nacha.ControlsDecode` | apps/api/src/payouts/nacha.ts:52-83 | within the field limits, both control records decode to the number of entries, the sum of bank digits modulo 10^10 and the sum of amounts as decoded from the entry lines, and the block count times ten is the number of lines |
| `Nacha.FieldReadsBack` | apps/api/src/payouts/nacha.ts:26-26 | a number is read back from its field if and only if it has no more digits than the field |
| `Nacha.TextLength` | apps/api/src/payouts/nacha.ts:88-88 | the file has 95 characters for every record of 94 |
| `Reconcile.GroupByAmount` | apps/api/src/payouts/payouts.service.ts:716-722 | every amount has the queue of its uncleared payouts in order of payment |
| `Reconcile.TakeStatement` | apps/api/src/payouts/payouts.service.ts:725-743 | the statement loop shifts queues and reports rows as the specification function does |
| `Reconcile.TakeRowsAt` | apps/api/src/payouts/payouts.service.ts:725-743 | for every amount, the first rows of the statement take the first payouts pair by pair, and the other rows are reported |
| `Reconcile.MatchStatement` | apps/api/src/payouts/payouts.service.ts:691-754 | the whole matching is first in, first out for every amount, and every row is matched or reported once |
| `Reconcile.MatchIsExact` | apps/api/src/payouts/payouts.service.ts:725-742 | every single match gives a row of the statement an uncleared payout of exactly that row's amount |
| `Reconcile.MatchedOnce` | apps/api/src/payouts/payouts.service.ts:688-690 | two matches share neither a payout nor a row of the statement |
| `ApplyRows.RowsAreEarned` | apps/api/src/engine/engine.service.ts:1456-1572 | a committed application of an unapplied sale appends exactly the rows of what is earned on the inputs - every plan level with a member who may stand there, fast-start, matching on the lowest level that pays, override of the last rank reached - each with the member, rate, whole cents, status and date, counts them, and leaves the old rows |
| `ApplyRows.FastStartRow` | apps/api/src/engine/engine.service.ts:1505-1531 | there is a level-1000 row if and only if the seller has a sponsor that may earn, the sale falls in the first days after the seller joined, and the rate covers a cent; it pays that sponsor, at the plan's rate, the whole cents that the rate covers |
| `ApplyRows.OverrideRowExactly` | apps/api/src/engine/engine.service.ts:1538-1556 | the level-1002 rows are exactly one for the seller at the rate of the last rank that its team and its payable, processing and paid rows without the override reach, if that rate covers a cent |
| `ApplyRows.MatchingLinesEarned` | apps/api/src/engine/engine.service.ts:1532-1535 | a matching line is there exactly when the sponsor may earn and its share of the lowest base line that pays covers a cent |
| `ApplyRows.ChainStands` | apps/api/src/engine/engine.service.ts:1757-1768 | the effective chain has a member on a level if and only if it stands there by the tenant's setting: the seller on level 0; with compression the k-th active upline on level k; else the upline at that distance, unless it is inactive and inactive members do not earn |
| `ApplyRows.RowOfLine` | apps/api/src/engine/engine.service.ts:1771-1795 | the row of a line is a commission of the sale in no payout, and starts payable without a date, or pending with the delivery date, the approval date plus the days, or the delivery date plus the days, rule by rule |
| `ApplyRows.AppliedElse` | apps/api/src/engine/engine.service.ts:1448-1467 | besides its rows, one a level, an application only fixes the plan and the month of the sale, where they are not fixed yet |
| `ApplyRows.ApplyAnswers` | apps/api/src/engine/engine.service.ts:1437-1463 | a sale is applied if and only if it is approved, has no commission row, and has a plan, a seller and an open month; otherwise it is left alone with the number of its rows reported, or refused for the first of these that is missing |
| `ReserveTheorems.ReserveAnswers` | apps/api/src/engine/engine.service.ts:643-926 | the first target that refuses decides the error; then a member that can be taken but has an open payout of another period makes the index refuse; else everyone who can be taken is reserved and everyone else reported with the reason, in order, and a batch is opened unless it is a preview or nobody is reserved |
| `ReserveTheorems.LockedRowAborts` | apps/api/src/engine/engine.service.ts:713-717 | one payable row in a locked month, of a member in the scope that would otherwise be reserved, makes the whole call abort, with the lock as the error if no target before it refuses |
| `ReserveTheorems.NoLockedRowTaken` | apps/api/src/engine/engine.service.ts:713-717 | a committed reservation leaves every row whose tenant and booked month are locked as it was |
| `ReserveTheorems.ReservedRow` | apps/api/src/engine/engine.service.ts:690-885 | a reservation that opens a batch takes exactly the payable rows of the members in the scope that can be taken, each into the batch and into a payout of that member over the member's whole net, and leaves every other row as it was |
| `ReserveTheorems.ReservedElse` | apps/api/src/engine/engine.service.ts:780-822 | it opens one batch of the tenant, for the period, at work, and changes no sale and no lock |
| `ReserveRows.ChoiceIs` | apps/api/src/engine/engine.service.ts:643-770 | what becomes of a target: each error, each reason to leave it out with the reported net, and the reservation of all payable rows with their sum and the open request, by conditions on members, requests, payouts at work, payable rows, threshold, locks and compliance |
| `ReserveRows.TargetsAre` | apps/api/src/engine/engine.service.ts:515-536 | the targets are the members of the scope, each once, ascending: those named, or everyone with a positive payable net at the threshold; an empty selection and more than a hundred members are refused, and nothing else |
| `ReserveRows.SelectIs` | apps/api/src/engine/engine.service.ts:641-770 | the selection fails with the error of the first target that refuses, and otherwise holds the reservations and the reasons of all targets in order |
| `SaleSteps.ApprovalAnswers` | apps/api/src/engine/engine.service.ts:263-296 | an approval is refused as self-approval if and only if the creator approves an own draft of a tenant that wants a second person, and as voided if and only if the sale is void; otherwise it is the application of the sale, marked as approved at this moment unless it was before |
| `SaleSteps.ApprovedDraft` | apps/api/src/engine/engine.service.ts:286-295 | a committed approval of a draft marks it approved at that moment and appends exactly the rows of what is earned on it |
| `SaleSteps.VoidAnswers` | apps/api/src/engine/engine.service.ts:314-350 | a void is refused if and only if the sale is not found or one of its standing commissions is in a payout at work; a void sale is left alone; the reported number is that of the standing commissions |
| `SaleSteps.VoidedRow` | apps/api/src/engine/engine.service.ts:353-390 | row by row: standing commissions that were not paid are closed, every other row stays, and each standing commission has its reversal behind the old rows, in order, with the opposite amount, payable if the commission was paid and closed otherwise |
| `SaleSteps.DeliveryAnswers` | apps/api/src/engine/engine.service.ts:396-405 | a delivery is recorded if and only if the sale is approved and not delivered yet; a second one changes nothing |
| `SaleSteps.DeliveredRow` | apps/api/src/engine/engine.service.ts:408-416 | the pending commissions of the sale without a date get the delivery date, or that date plus the tenant's days under the days-after-delivery rule; every other row stays |
| `SaleSteps.MaturationAnswers` | apps/api/src/engine/engine.service.ts:426-470 | the numbers: at most the limit of rows mature, all that are due if they are fewer, and more are reported exactly when more are due; only a limit that is not positive is refused |
| `SaleSteps.MaturedRow` | apps/api/src/engine/engine.service.ts:442-468 | a row turns payable if and only if it is an unlocked pending commission with a date at or before now and among the oldest such rows within the limit; every other row stays |
| `SaleSteps.DraftEntered` | apps/api/src/sales/sales.service.ts:1048-1083 | a draft is entered under a free id with nothing fixed yet, and changes nothing else |
| `SaleSteps.DraftDeleted` | apps/api/src/sales/sales.service.ts:479-502 | only a draft of the tenant is deleted, and nothing else changes |
| `SaleSteps.BonusAnswers` | apps/api/src/engine/engine.service.ts:1384-1428 | a bonus of any sign is one payable adjustment of level zero booked in its month, refused if and only if the month is locked |
| `PayoutSteps.RequestAnswers` | apps/api/src/payouts/payouts.service.ts:845-927 | a request is refused for an unknown member, a blocked one, or one that is not ready or below the threshold with nothing open, and for nothing else; an open payout is answered with, one at work before a waiting one and the oldest of those; else one is opened over everything payable of the member |
| `PayoutSteps.RejectAnswers` | apps/api/src/engine/engine.service.ts:1322-1355 | only a requested payout of the tenant is rejected; it is closed, and nothing else changes |
| `PayoutSteps.DispatchAnswers` | apps/api/src/engine/engine.service.ts:934-1046 | in every reachable state, a processing batch of the tenant is dispatched exactly when compliance still holds, a dispatched or settled one is left alone, a failed one is refused |
| `PayoutSteps.SettleAnswers` | apps/api/src/engine/engine.service.ts:1067-1100 | in every reachable state, a dispatched batch of the tenant settles, a settled one is left alone, and every other one is refused |
| `PayoutSteps.SettledRow` | apps/api/src/engine/engine.service.ts:1098-1129 | settling pays exactly the rows and the payouts of the batch and changes nothing else but the status of the batch and the index |
| `PayoutSteps.FailAnswers` | apps/api/src/engine/engine.service.ts:1226-1260 | in every reachable state, a processing batch of the tenant fails, a failed one is left alone, and every other one is refused |
| `PayoutSteps.FailedRow` | apps/api/src/engine/engine.service.ts:1260-1305 | failing gives back exactly the rows of the batch, free of payout and batch, ends exactly its payouts, and changes nothing else but the status of the batch and the index |
| `Membership.InsertRefused` | apps/api/src/memberships/memberships.service.ts:32-59 | an insert is refused for a taken id or user, for a missing sponsor, or because every drawn code is taken for the tenant, each if and only if that is so |
| `Membership.InsertAccepted` | apps/api/src/memberships/memberships.service.ts:32-59 | an accepted row is the given one with the first of the drawn codes that no member of the tenant has |
| `NetworkContext.ContextWindowIsFull` | apps/api/src/members/network-hierarchy.service.ts:2065-2172 | the window is as large as it may be: a member within the depth whose parent is shown is left out only behind a full page of its siblings, or because the budget went to members that come before it; members come level by level in key order, at most a page of each parent |
| `SessionReplies.RefreshReplies` | apps/api/src/auth/auth.service.ts:497-553 | each reply of a refresh if and only if: reuse when the token was read revoked; invalid when read unrevoked and not current; expired when read unrevoked and current with the expiry before now; already used when the row has been revoked since; granted when unrevoked, current, not expired, still usable, and the drawn token (and the drawn family, if the old one has none) is new |
| `SessionReplies.GrantedRefresh` | apps/api/src/auth/auth.service.ts:522-542 | a granted refresh revokes the old row, points it to its successor, and adds one row with the user, family and second factor of the old token, the drawn hash, the given expiry and the current generation; nothing else changes |
| `SessionReplies.RefusedRefresh` | apps/api/src/auth/auth.service.ts:508-519 | a refused refresh changes nothing, but for reuse, which revokes every token of the user and raises the generation, and for an outdated token, whose row is revoked |
| `SessionReplies.LiveTokenRefreshes` | apps/api/src/auth/auth.service.ts:497-543 | read and committed without a pause, a token is refreshed if and only if it is unrevoked, current, not expired, and the drawn token is new |
| `SessionReplies.LogoutEnds` | apps/api/src/auth/auth.service.ts:555-563 | after reading an unrevoked token, logout revokes every token of its user and raises the generation; after reading a revoked one it does nothing |
| `SessionReplies.LogoutRevokesAll` | apps/api/src/auth/auth.service.ts:555-563 | whatever happened between the read of an unrevoked token and the commit, every token of the user is revoked after the logout |
| `SessionReplies.IssueReplies` | apps/api/src/auth/auth.service.ts:963-992 | a session is issued if and only if the user is known, has passed the second factor if it has one, and the drawn token and family are new; the row it adds |
| `SessionReplies.RevokeReplies` | apps/api/src/auth/auth.service.ts:580-588 | done if and only if the session is an unrevoked one of the user, and then every token of the user is revoked |
| `SessionReplies.MfaReplies` | apps/api/src/auth/auth.service.ts:449-496 | changing the second factor ends every session of the user; disabling is refused when it is not on |
| `RelayOutcomes.ResultCloses` | apps/api/src/notifications/notification-relay.service.ts:147-185 | under every interleaving, the result under the row's lease makes a delivered row sent, a row that failed its fifth attempt failed, and any other pending again after 30, 60, 120 or 240 seconds by the number of attempts; no other row changes |
| `RelayOutcomes.ClaimsRow` | apps/api/src/notifications/notification-relay.service.ts:194-262 | a claim, row by row: unlocked rows whose lease ran out on the last attempt fail, the twenty oldest unlocked due rows with an attempt left get a lease of five minutes and spend an attempt, every other row stays |
| `RelayOutcomes.ClaimsHandedOut` | apps/api/src/notifications/notification-relay.service.ts:250-262 | a claim hands out one lease for each row it leased, in order, with the row's new attempt number and the end of the lease |
| `RelayOutcomes.DispatchedInTime` | apps/api/src/notifications/notification-relay.service.ts:140-146 | a claimed row is dispatched if and only if its lease has not run out, and rows are left alone either way |
| `RelayOutcomes.StaleResult` | apps/api/src/notifications/notification-relay.service.ts:147-187 | a result without the row's lease changes no row |
| `NachaColumns.AccountTypeColumns` | apps/api/src/payouts/nacha.ts:59-62 | columns 2 and 3 of an entry record are 32 if and only if the account is a savings account, and 22 if and only if it is a checking account |
| `NachaColumns.RecordColumns` | apps/api/src/payouts/nacha.ts:52-68 | every column of an entry record: type, transaction code, bank and check digit, account, amount, id, name, originator and trace number |
| `NachaColumns.FileHeaderColumns` | apps/api/src/payouts/nacha.ts:34-41 | every column of the file header, for a year of four digits |
| `NachaColumns.BatchHeaderColumns` | apps/api/src/payouts/nacha.ts:42-49 | every column of the batch header, for a year of four digits |
| `NachaColumns.BatchControlColumns` | apps/api/src/payouts/nacha.ts:73-77 | every column of the batch control |
| `NachaColumns.FileControlColumns` | apps/api/src/payouts/nacha.ts:79-83 | every column of the file control |
| `NachaColumns.DigitField` | apps/api/src/payouts/nacha.ts:26-26 | a numeric field of a text decodes to the digits of the text, whatever else is in it, modulo ten to the width |
| `NachaColumns.DateField` | apps/api/src/payouts/nacha.ts:29-29 | the date columns decode to the year modulo one hundred, the month and the day |
| `NachaColumns.RecordOrder` | apps/api/src/payouts/nacha.ts:31-86 | headers first, then the entries, then the controls, then nines to the end of the block |
| `NachaColumns.LineInText` | apps/api/src/payouts/nacha.ts:88-88 | line k stands at 95 k in the text and is ended by a line feed |
| `CsvCells.FormulaIs` | apps/api/src/sales/csv.ts:53-55 | a cell is guarded if and only if one of = + - @ follows nothing but characters up to the space |
| `CsvCells.CellPrinted` | apps/api/src/sales/csv.ts:49-60 | a cell is quoted, with its quote marks doubled, if it has a comma, a quote mark or a line break, and printed as it is if not, behind the guard mark in either case if it would start a formula |
| `CsvCells.QuotesInside` | apps/api/src/sales/csv.ts:13-37 | a quoted piece behind plain characters joins them in one cell |
| `CsvCells.OpenQuote` | apps/api/src/sales/csv.ts:13-24 | a quote mark that is never closed takes the rest of the text into its cell |
| `CsvCells.LineBreaks` | apps/api/src/sales/csv.ts:10-10 | CR LF, a lone CR and a lone LF each read as one line feed |
| `CsvCells.RowsWithText` | apps/api/src/sales/csv.ts:44-45 | exactly the rows with a cell that is not only white space are kept, in order |
| `PayoutEvents.ShownExactly` | apps/api/src/payouts/payout-presentation.ts:148-171 | a payout is shown if and only if its seed is complete, every event has an id, a version and a date, equal ids mean equal events, and the events in the order of versions 1, 2, 3, ... tell a payout; what is shown is what that order tells |

## Left out

- Matching.MatchingBasis: says which line comes first, not that it is the seller's, because the code takes the first line worth a cent.
- ApplyTheorems.ApplyAgain: not for the one kind of application that `FinalExactly` names, where the code does not keep its promise of idempotence.
- EngineTheorems.OneOpenPayout: rests on the partial unique index as the database enforces it; the index is modelled as a refusal of the insert.
- Nacha.AllLines94: years outside 1000..9999 give headers of another length; stated as an if-and-only-if.
- Nacha.ControlsDecode: only within the field limits, since longer numbers lose their leading digits in the format.
- TreeSnapshot.Accumulate: for lists in depth order, which is how the query returns them.
- The review that an operator confirms: fingerprints, drift comparison, previews beyond the empty result, and the eligible count beyond one hundred in a review.
- Compliance, KYC, fraud and sanctions: one set of blocked and one of ready members a reservation, one boolean a dispatch or request.
- Audit rows, notifications written by the engine, webhooks, live events and recipient snapshots: they do not feed back into the money state.
- Deadlock retries, advisory locks and row-lock order: a transaction is one atomic step. Rows that maturation skips because another transaction holds them are a parameter.
- Plan lookup, seller join date, team size and tier rows are parameters of apply; the earnings of the rank are read from the ledger. The sponsor chain is a parameter too; the walk that makes it is modelled in `Membership`.
- The month of a date and time zones: a function parameter that may differ from call to call.
- The order in which void and maturation visit rows (by level, by creation time) is row order; the results do not depend on it beyond the position of appended rows.
- Blank reference, evidence and reason texts, and the texts themselves.
- Repeated dispatch, settle and fail calls report all payouts of the batch; the source counts those in the fitting status.
- Batches settled before the dispatch date existed, and other rows from before a migration, except refresh tokens without a generation.
- Rates outside 0..10000 and negative sale amounts: excluded by types, as the schemas and database checks exclude them.
- Editing a draft, imports with external references: drafts are created and deleted only.
- Membership inserts: a referral-code collision inside an already aborted database transaction, roles, consent snapshots and team-leader flags.
- Snapshots are assumed closed under sponsors (a sponsor has joined no later than its members), as placement makes them.
- Encryption and expiry of cluster references and cursors, and the text encoding of a keyset: a cursor is the member it stands after.
- The member-visible hierarchy, list scope, search, financial bands and initials: the same logic with redaction.
- Access tokens, MFA codes, password hashing, meta data of sessions, tenant switching; sha256 is taken as injective and drawn tokens and families as fresh.
- Revocations by other services that do not take the user lock.
- Delivery channels, payload templates, redaction of sensitive payloads and log messages of the outbox; clock readings and delivery outcomes are parameters.
- CSV: a last line without a line feed is read by the parser as modelled but the round trip is about tables as the exporters print them; characters are Unicode scalars instead of UTF-16 units.
- Payout events: an absent field and a null field are the same; amount, phase, safe reason and actions are derived from what is modelled and left out. The legacy snapshot mapping is left out.
- NACHA: upper-casing happens before the model; fractional and negative amounts are not modelled; skipped payouts and bank data decryption are not part of it.
- Reconciliation: rounding of the statement amount happens before the model, and rows locked by another run are not among the uncleared ones, so the conditional clear always succeeds.
