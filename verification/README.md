# Verification of the shift-tracking backend

A Dafny model of the backend's business rules, with proofs of what they keep. Time is counted
in seconds, money in whole kopecks; the clock, identifiers, the outcome of provider calls and
the failures of the object store are parameters.

The project has six parts.

- **Payroll.** `Calendar`, `Rates`, `ShiftSums`, `Earnings`, `Breakdown`, `ShiftHistory`,
  `Adjustments`, `Grouping`, `Sorting`, `Report`: rate histories looked up by bisection, half-up
  rounding on every shift, and reports regrouped by day, week, month, employee and category that
  agree with the flat computation in every field.
- **Shifts.** `WorkedTime`, `ShiftModel`, `ShiftRuns`, `ShiftEffects`, `ShiftStore`: the state
  machine of shifts and pauses, manual edits, disjointness over whole runs, and worked time as a
  measure of uncovered seconds.
- **Knowledge base.** `KnowledgeTree`, `KnowledgeAccess`, `KnowledgeBase`, `KnowledgeEffects`,
  `KnowledgeStore`: a mutable forest, access rules inherited along it, and the registry of files
  on pages.
- **Subscriptions and payments.** `Money`, `Subscriptions`, `SubscriptionEffects`,
  `SubscriptionStore`, `BillingProtocol`, `BillingEffects`, `BillingStore`: calendar periods, the
  journal that replays to the stored row, and payment workers under a row lock.
- **Checklists.** `Checklists`, `ChecklistEffects`, `ChecklistStore`, `ChecklistProtocol`,
  `ChecklistAlone`: completion, the window for filling in, and edits interleaved with the job that
  closes what is left.
- **Object storage.** `Storage`, `StorageEffects`, `FileStore`: the registry and the object
  store through uploads, deletes, batches with failures, and reconciliation.

Where the service changes rows in place there is a class with one method for each function,
proved equal to a function on values (`ShiftStore` to `ShiftModel`, and so on). Each class has an
invariant `Valid()`, the one of the theorems over runs, which its constructor establishes and every
service method keeps. The three interleaved parts (payments, checklists, reconciliation) are state
machines over steps: reads see what is committed, a row lock is held from the locking read to the
commit. The `Effects` modules state what single operations write, in the fields of the rows and
without the functions of the model, so that those functions are pinned from outside.

Some promises do not hold for all inputs. Each of these has a concrete case or the exact condition:

- The journal notes the end of the trial as the period end at creation, while no period end is
  stored (`Subscriptions.ReplayAgreesExactly`).
- An update that drops files from a page and is then refused its move has already deleted the
  objects; the tables are rolled back, the objects are not
  (`KnowledgeBase.UpdateKeepsObjectsExactly`).
- The clock tolerance for manual ends lets a later start overlap a shift, and so can the edit of an
  open shift, which the overlap query reads as ending now (`ShiftRuns.StartKeepsDisjointExactly`,
  `ShiftRuns.UpdateKeepsDisjointExactly`, `ShiftRuns.ToleranceAllowsOverlap`,
  `ShiftRuns.EditAllowsOverlap`).
- Month shifts are monotone on dates, but on moments with a time of day exactly the clamped pairs
  can swap (`Calendar.ShiftSwapsExactlyWhenClamped`).
- Two shifts by months can end earlier than one shift by the sum (`Calendar.AddMonthsTwice`).
- Manual extensions read the subscription without the row lock and can undo a payment: the outcome
  is a serial one exactly if the payment was an upgrade (`BillingProtocol.LateWriteIsSerialExactly`).
- An upload whose row is committed after the age that protects its object can lose it
  (`Storage.AgeProtectsUploadsExactly`).
- The recomputation of a checklist compares with the status loaded before the lock, so two edits of
  one instance at once can leave it wrong (`Checklists.RecomputeAgreesExactly`,
  `ChecklistProtocol.ConcurrentEditsDisagree`).
- A crash between the deletion of objects and the commit of a batch leaves live rows without
  objects until the batch is repeated (`Storage.CrashIsHealedByRetry`).

## Model

| member | source | states |
|---|---|---|
| Calendar.AddMonthsShape | src/app/services/entitlements.py:356-366 | a shift by n months lands exactly n months on; the day is kept, or clamped to the last day of the target month |
| Calendar.AddMonthsLater | src/app/services/entitlements.py:356-366 | for n of at least 1 the shifted date is valid and strictly later |
| Calendar.AddMonthsMonotone | src/app/services/entitlements.py:356-366 | on dates the shift is monotone |
| Calendar.AddMonthsTwice | src/app/services/entitlements.py:356-366 | two shifts land in the month of the combined one, never later in it, and on the same day if and only if the month in between has the day or is no shorter than the last month |
| Calendar.EarlyDaysShiftExactly | src/app/services/entitlements.py:356-366 | up to the 28th two shifts are one |
| Calendar.AddMonthsTwiceCanBeEarlier | src/app/services/entitlements.py:356-366 | a date on which the exact condition fails: two single shifts end earlier than one double shift |
| Calendar.ShiftSwapsExactlyWhenClamped | src/app/services/entitlements.py:356-366 | with a time of day the shift swaps two ordered moments if and only if both are clamped to one day and the earlier one has the later time |
| Calendar.ShiftMonthsLater | src/app/services/entitlements.py:356-366 | for n of at least 1 a moment is shifted to a strictly later valid moment |
| Calendar.OrdinalOrder | src/app/services/entitlements.py:356-366 | day numbers and the calendar order of dates are the same order |
| Calendar.BucketStartShape | src/app/services/payroll.py:545-551 | a bucket start is a valid date not after the day and its own bucket start; a month starts on the first |
| Calendar.WeekStartShape | src/app/services/payroll.py:545-551 | a week starts on a Monday at most six days before |
| Calendar.BucketStartMonotone | src/app/services/payroll.py:545-551 | bucket starts are monotone in the day, so buckets are contiguous |
| Money.AmountRoundTrip | src/app/services/yookassa_client.py:63-71 | parsing the printed amount returns the same minor units, for every integer |
| Money.SignBelowZero | src/app/services/yookassa_client.py:63-71 | exactly the amounts below zero carry a sign |
| Money.KopecksTruncate | src/app/services/yookassa_client.py:68-71 | a plain decimal text is read as its exact value truncated to whole kopecks |
| Money.EchoVerifies | src/app/services/billing.py:358-379 | the provider's echo of a payment verifies against that payment and against no other stored one |
| Money.ExtendAmountExact | src/app/services/billing_calc.py:28-47 | the two floors of the discount are one floor of base times percent over 10000, times 100; the amount lies between 0 and the base |
| Money.DiscountMonotone | src/app/services/billing_calc.py:28-47 | a higher discount percentage never costs more |
| Money.UpgradeMonthsLeastCover | src/app/services/billing_calc.py:50-61 | the months remaining are the least number of 30-day months that cover the rest of the period, at least one |
| Money.UpgradeAmountPerMonth | src/app/services/billing_calc.py:64-69 | no months cost nothing, and each month more costs exactly the difference of the two prices |
| Money.UpgradeAmountFallsWithTime | src/app/services/billing_calc.py:50-69 | the price of an upgrade never rises as time passes |
| WorkedTime.ValidatePauses | src/app/services/manual_shift.py:147-178 | the sort-and-scan accepts exactly the lists whose pauses are disjoint, inside the shift, of positive length and shorter in all than the shift; every refusal names a condition that fails |
| WorkedTime.CalculateWorkedSeconds | src/app/services/shift.py:35-46 | the loop computes the length of the shift less its pauses, open ones read up to now, and never less than zero |
| WorkedTime.UncoveredCount | src/app/services/shift.py:35-46 | for disjoint pauses inside the shift, length less pauses is the number of uncovered seconds |
| WorkedTime.WorkedIsUncovered | src/app/services/shift.py:35-46 | worked seconds are the number of seconds of the shift covered by no pause |
| WorkedTime.AcceptedPausesMeasure | src/app/services/manual_shift.py:147-178 | a shift with an accepted pause list has worked at least one second, the uncovered ones |
| WorkedTime.ClosedPausesIgnoreClock | src/app/services/shift.py:35-46 | with all pauses closed the clock does not matter |
| ShiftRuns.RunsAreLawful | src/app/services/shift.py:696-753 | over every run: paused is exactly one open pause, finished has an end and no open pause, a deleted shift is finished, and a user has at most one open shift in a context |
| ShiftRuns.ApplyLawful | src/app/services/shift.py:346-430 | every single operation keeps these |
| ShiftRuns.FinishedForGood | src/app/services/manual_shift.py:511-588 | over every run a finished shift stays finished, in its context, and no row is lost |
| ShiftRuns.ApplyDisjointExactly | src/app/services/manual_shift.py:116-144 | an operation keeps the live shifts of a context disjoint, an open one read as endless, if and only if it is refused or its condition on the table before it holds; only starts and edits of open shifts have one |
| ShiftRuns.RunsAreDisjointExactly | src/app/services/manual_shift.py:383-529 | throughout a run they are disjoint if and only if every accepted call meets its condition |
| ShiftRuns.HonestRunsAreDisjoint | src/app/services/manual_shift.py:573-588 | with a clock that never goes back and no manual end ahead of it, disjointness is an invariant of every run |
| ShiftRuns.StartKeepsDisjointExactly | src/app/services/shift.py:595-612 | an accepted start keeps the live shifts disjoint if and only if no live shift of the context that has any length ends after it |
| ShiftRuns.UpdateKeepsDisjointExactly | src/app/services/manual_shift.py:383-398 | an accepted edit does so if and only if it closes the shift or no other live shift of the context that has any length begins no earlier than the clock and ends after the new start |
| ShiftRuns.ToleranceAllowsOverlap | src/app/services/manual_shift.py:105-113 | the 60 seconds of clock tolerance are enough to break disjointness by a start: a concrete run |
| ShiftRuns.EditAllowsOverlap | src/app/services/manual_shift.py:383-398 | and by the edit of an open shift: a concrete run of four accepted calls |
| ShiftStore.Shifts.AutoFinishStale | src/app/services/shift.py:346-430 | finishes in place exactly the live open shifts of organisations that have not switched it off whose planned end has come, each with its open pauses at that planned end, and changes no other; the state machine and the disjointness of live shifts stay |
| ShiftStore.Shifts.StartShift | src/app/services/shift.py:559-692 | start, with the finishing of stale shifts and its rollback: table and outcome, the state machine kept, and disjointness kept exactly under the condition of a start |
| ShiftEffects.StartWrites | src/app/services/shift.py:559-692 | a shift starts exactly if its member has no other open shift left after the automatic finish and admission is given, as a running one without pauses; stale shifts have ended at their planned end |
| ShiftStore.Shifts.Resume | src/app/services/shift.py:732-756 | the pause that was open keeps its start and ends now, every other pause and every other shift stays; the state machine is kept |
| ShiftEffects.BreakIsNotWorked | src/app/services/shift.py:696-756 | a pause at a and the resume at b add exactly the pause from a to b, and at every later moment the time worked is the time since the start less the earlier pauses less b - a |
| ShiftStore.Shifts.FinishOwn | src/app/services/shift.py:1085-1112 | the shift and every open pause of it end now, nothing else changes; the state machine and disjointness are kept |
| ShiftStore.Shifts.AutoEndPauses | src/app/tasks/shifts.py:226-277 | the job that ends long pauses, over all shifts; the state machine and disjointness are kept |
| ShiftEffects.LongPauseWrites | src/app/tasks/shifts.py:226-277 | it ends exactly the open pauses that have lasted longer than allowed, each exactly the allowed minutes after its start |
| ShiftStore.Shifts.CreateManualShift | src/app/services/manual_shift.py:255-343 | manual creation: table and outcome, the state machine kept, and live shifts stay disjoint |
| ShiftStore.Shifts.UpdateManualShift | src/app/services/manual_shift.py:346-495 | manual correction with its edits of pauses: table and outcome, the state machine kept, and disjointness kept exactly under the condition of an edit |
| ShiftEffects.UpdateRefusesExactly | src/app/services/manual_shift.py:346-495 | a correction is refused exactly for the bounds, another shift, the location, or pauses that do not fit; closed pauses of a moved shift must still lie inside it and leave time to work |
| ShiftStore.Shifts.Delete | src/app/services/manual_shift.py:498-557 | deletion finishes an open shift first, so that a deleted shift is finished; the state machine and disjointness are kept |
| ShiftEffects.RestoreWrites | src/app/services/manual_shift.py:560-588 | a deleted shift comes back as it was, exactly if it would meet no other shift of the member |
| Rates.BisectRight | src/app/services/payroll.py:298-304 | the bisection finds the place that splits the starts into those up to the moment and those after it |
| Rates.RateIsDetermined | src/app/services/payroll.py:298-304 | the look-up returns the rate with the greatest start not after the moment |
| Rates.LoadRatesAsc | src/app/services/payroll.py:453-468 | loading yields the member's rates in the order of their starts |
| Rates.WritesKeepUniqueStarts | src/app/services/payroll.py:85-144 | over every run of writes a member never has two rates with one start |
| Rates.CreateChangesOnlyItsSpan | src/app/services/payroll.py:106-154 | a new rate answers from its start to the next start of the history, and every other moment keeps its rate |
| Rates.DeleteChangesOnlyItsSpan | src/app/services/payroll.py:246-267 | deleting a rate changes only the moments it answered for |
| Rates.UpdateChangesOnlyTwoSpans | src/app/services/payroll.py:193-243 | correcting a rate changes only its old and its new span |
| Rates.WritesAreLocal | src/app/services/payroll.py:106-267 | writes to one member's history leave every other member's alone |
| Rates.RateHistory.Create | src/app/services/payroll.py:106-154 | the row is written, or the conflict reported; starts stay unique per member |
| Rates.RateHistory.Update | src/app/services/payroll.py:193-243 | the row is corrected, or the error reported; starts stay unique per member |
| Rates.UpdateWrites | src/app/services/payroll.py:193-243 | accepted exactly for the member's own rate with no other rate of the member at the new start, and then exactly the given fields change |
| Earnings.CalcEarnings | src/app/services/payroll.py:323-412 | one pass over the shifts gives the sum of what each shift contributes, in every field, with delta and missing-rate flag; approved minutes count 60 seconds each, and gross is within half a kopeck for each hourly shift of the exact pay |
| Earnings.ContributionIsEarned | src/app/services/payroll.py:357-400 | what a shift contributes, in its own bounds, pauses, approved minutes and planned window: net seconds, pay to the nearest kopeck at the rate of its start, planned seconds, and lateness beyond the tolerated minutes |
| Earnings.EarnedIsUnique | src/app/services/payroll.py:357-400 | nothing else can be earned: those conditions determine every field |
| Earnings.HalfUpNearest | src/app/services/payroll.py:307-320 | an hourly amount is off the exact one by at most half a kopeck, and halves go up |
| Earnings.HalfUpMonotone | src/app/services/payroll.py:307-320 | rounding is monotone |
| Earnings.AmountMonotone | src/app/services/payroll.py:307-320 | more seconds never pay less, so an overtime part is never negative |
| Earnings.GrossRoundingBound | src/app/services/payroll.py:307-395 | for n shifts paid by the hour, 3600 times gross differs from the exact sum by at most 1800 n |
| Earnings.BaseAndOvertime | src/app/services/payroll.py:384-412 | base and overtime make up gross, unpaid shifts and seconds are counted within all, and with positive rates no part is negative |
| Breakdown.BuildBreakdown | src/app/services/payroll.py:570-629 | bucket starts strictly increase, are exactly the starts of the shifts' days, and every row is the computation over its bucket; the aggregate equals the flat computation in every field |
| Breakdown.BucketsFollowTheCalendar | src/app/services/payroll.py:545-551 | the bucket of a day starts on the day, on the Monday at most six days before, or on the first of its month |
| Breakdown.RowsHoldTheirShifts | src/app/services/payroll.py:570-629 | every row is the computation over exactly the shifts whose start falls, by local time, into its bucket, and every shift has a row |
| Breakdown.BreakdownIsUnique | src/app/services/payroll.py:570-629 | shifts, zone and bucketing determine the breakdown |
| Breakdown.DaysRollUp | src/app/services/payroll.py:545-629 | rolling day rows up by any bucketing gives the rows of that bucketing |
| Breakdown.WeeksAndMonthsRollUp | src/app/services/payroll.py:545-629 | week and month rows are the sums of their day rows, in every zone |
| Breakdown.BucketsBalance | src/app/services/payroll.py:609-626 | in every bucket base and overtime make up gross, and delta is gross less plan |
| ShiftHistory.ShiftEarningsMap | src/app/services/payroll.py:1100-1202 | one block for every listed shift, none for those that are not paid; its gross is the pay, to the nearest kopeck, of the net seconds and 60 for each approved minute at the rate with the greatest start not after the shift |
| ShiftHistory.BlocksAddUpToGross | src/app/services/payroll.py:1170-1201 | the blocks of one member's finished shifts add up to the gross of the report |
| ShiftHistory.NewRateChangesOnlyItsSpan | src/app/services/payroll.py:384-395 | a new rate changes a member's earnings, in every field, only by the shifts that start in its span |
| ShiftHistory.DeletedRateChangesOnlyItsSpan | src/app/services/payroll.py:246-267 | a deleted rate only by the shifts that it answered for |
| ShiftHistory.CorrectedRateChangesOnlyItsSpans | src/app/services/payroll.py:193-243 | a corrected rate only by the shifts of its old and its new span |
| Adjustments.CategoryOrder | src/app/services/payroll.py:644-664 | the sort key orders categories strictly and totally: no two tie |
| Adjustments.OrderOfCategories | src/app/services/payroll.py:644-664 | by lower-case name, live before deleted, creation, identifier, and no category last |
| Adjustments.OrderOfUnknown | src/app/services/payroll.py:644-664 | a category without a row ranks as a live one without a name, created first |
| Adjustments.TextOrderIsLexicographic | src/app/services/payroll.py:644-664 | the order of names decides at the first character that differs, a beginning before its continuation |
| Adjustments.FiguresBySign | src/app/services/payroll.py:681-716 | accrual is the sum of the amounts above zero, deduction that of those below with their sign turned, and every row counts |
| Adjustments.AdjustmentFields | src/app/services/payroll.py:681-716 | totals of the rows, and one entry for every category that occurs, with the figures of exactly its rows, in order |
| Adjustments.CategoryListIsUnique | src/app/services/payroll.py:681-716 | the rows determine the category list |
| Adjustments.MergeCategoryAmounts | src/app/services/payroll.py:719-735 | merging employees' lists gives the category list of all their rows at once |
| Adjustments.AccrualMinusDeduction | src/app/services/payroll.py:681-716 | accrual less deduction is the amount, in total and in every category |
| Adjustments.CategoriesAddUp | src/app/services/payroll.py:681-716 | the entries of a category list add up to the totals, in all four figures |
| Grouping.GroupByUser | src/app/services/payroll.py:802-852 | the dictionary of lists holds every user's rows in order, and nobody else |
| Report.ComputeOrgPayroll | src/app/services/payroll.py:738-973 | the items, filtered and ordered, are those of exactly the users shown; every total is the sum over the items |
| Report.ShownByRows | src/app/services/payroll.py:921-930 | the filter shows exactly who has a finished shift before any rate, a penalty or an adjustment; without it everyone with a shift or an operation is shown |
| Report.RowsComeByName | src/app/services/payroll.py:888-931 | rows come by name, character by character, and those of one name by user; a user without a profile is "Unknown" |
| Report.NoOperationIsDropped | src/app/services/payroll.py:924-972 | under either filter every penalty and adjustment row is returned, and its user has an item |
| Report.OperationTotals | src/app/services/payroll.py:936-972 | penalty and adjustment totals are the sums over the returned rows, and the totals' category list is that of all returned rows at once |
| Report.TotalsBalance | src/app/services/payroll.py:911-958 | net is gross less penalties plus adjustments, base and overtime make up gross, delta is gross less plan, categories add up, all at the level of the totals |
| Report.EarningsTotals | src/app/services/payroll.py:936-958 | earnings totals are the computation over the shifts of the users shown, each under its user's rates; without the filter, over all shifts |
| KnowledgeTree.AncestorIds | src/app/services/knowledge.py:454-475 | for any table, cyclic ones included, exactly the known identifiers on the walk up |
| KnowledgeTree.PathIds | src/app/services/knowledge.py:147-161 | for any table the nearest-first path without repetition that holds every known ancestor |
| KnowledgeTree.BuildBreadcrumbs | src/app/services/knowledge.py:314-335 | in a forest the unguarded loop ends, with the path from a root down to the node |
| KnowledgeTree.CollectSubtreeIds | src/app/services/knowledge.py:607-632 | for any table exactly the node and its descendants |
| KnowledgeTree.ForestIsAcyclic | src/app/services/knowledge.py:147-154 | a table without dangling parents is a forest if and only if no node is its own ancestor |
| KnowledgeTree.MoveKeepsForestExactly | src/app/services/knowledge.py:427-451 | the check rejects exactly the moves after which the table would not be a forest |
| KnowledgeTree.CreateKeepsForest | src/app/services/knowledge.py:207-242 | a new node under a known parent keeps the forest |
| KnowledgeTree.DeleteKeepsForest | src/app/services/knowledge.py:566-604 | removing a node with everything below it keeps the forest |
| KnowledgeAccess.ResolveEmployee | src/app/services/knowledge.py:164-184 | the three passes are: the nearest personal rule, else the nearest rule of the role, else whether any node of the path is open to all |
| KnowledgeAccess.NearestIsUnique | src/app/services/knowledge.py:164-184 | only one rule can be the nearest |
| KnowledgeEffects.OwnRuleDecides | src/app/services/knowledge.py:164-203 | a personal rule on the node itself decides, whatever the role and the ancestors say |
| KnowledgeEffects.RoleRuleDecides | src/app/services/knowledge.py:164-203 | without personal rules a rule of the role on the node itself decides, even on a node that is open to all |
| KnowledgeEffects.OpenWithoutRules | src/app/services/knowledge.py:164-184 | without a rule for user or role a node is open exactly if it or a node above it is open to all |
| KnowledgeAccess.Mark | src/app/services/knowledge.py:191-199 | the recursion adds exactly the nodes of the subtree with an open node at or below them, and tells whether there is any |
| KnowledgeAccess.ComputeVisible | src/app/services/knowledge.py:187-203 | exactly the nodes with a directly open node at or below them |
| KnowledgeAccess.VisibleIsLeastClosed | src/app/services/knowledge.py:187-203 | the visible set is the least one that holds everything open and, with a node, its parent |
| KnowledgeAccess.GetTree | src/app/services/knowledge.py:268-289 | an employee sees everything they may open and the way to it, and nothing else |
| KnowledgeBase.RunsAreConsistent | src/app/services/knowledge.py:478-604 | over every run the tree is a forest, registry rows are the file ids of the pages' contents, a file is on one page at most, and a file is attached exactly if it has a row |
| KnowledgeBase.MoveErrorIsExact | src/app/services/knowledge.py:427-451 | a move is refused exactly if the parent is unknown or lies in the node's subtree |
| KnowledgeBase.UpdateKeeps | src/app/services/knowledge.py:387-424 | an update, refused or not, keeps the tables consistent |
| KnowledgeBase.UpdateKeepsObjectsExactly | src/app/services/knowledge.py:399-416 | an update leaves a file row without its object if and only if it drops a file whose object's deletion succeeds and asks for a refused move |
| KnowledgeBase.RefusedMoveLosesObject | src/app/services/knowledge.py:399-416 | a concrete update that is refused, restores the tables, and has deleted an object |
| KnowledgeBase.DeleteRemovesSubtreeFiles | src/app/services/knowledge.py:566-604 | a delete removes exactly the subtree, and exactly the files on its pages, rows and objects |
| KnowledgeBase.ReorderAcceptsExactly | src/app/services/knowledge.py:636-676 | a list is accepted if and only if it names every child once; then the children stand in its order and nothing else changes |
| KnowledgeBase.CarefulRunsKeepObjects | src/app/services/knowledge.py:478-604 | in runs without such an update every file row keeps its object, whichever deletions fail |
| KnowledgeBase.NextPositionIsUnique | src/app/services/knowledge.py:245-258 | the next position is one more than the greatest among the siblings, and zero without siblings |
| KnowledgeEffects.CreateWrites | src/app/services/knowledge.py:207-242 | a new node is open to nobody in general and empty, has the title and kind given, and lies behind all its siblings unless a place is given; it needs only a parent that exists |
| KnowledgeEffects.UpdateWrites | src/app/services/knowledge.py:387-424 | an accepted update changes exactly the fields given, and a node that gets another parent lies behind all its new siblings unless a place is given |
| KnowledgeEffects.ContentRefused | src/app/services/knowledge.py:478-517 | content is refused exactly for a section, and for a file that is no knowledge file of the organisation or sits on another page |
| KnowledgeEffects.ReorderWrites | src/app/services/knowledge.py:636-676 | the children get the places of the given order and nothing else changes |
| KnowledgeStore.Store.NextPosition | src/app/services/knowledge.py:245-258 | one pass over the rows finds it |
| KnowledgeStore.Store.CreateNode | src/app/services/knowledge.py:207-242 | tables and outcome are those of the model; the nodes stay a forest without dangling parents |
| KnowledgeStore.Store.AttachFiles | src/app/services/knowledge.py:503-517 | attaches all the new files if every one may be bound, and stops otherwise |
| KnowledgeStore.Store.RemoveFiles | src/app/services/knowledge.py:518-535 | rows and objects of exactly the given files go, except objects whose deletion fails |
| KnowledgeStore.Store.UpdateNode | src/app/services/knowledge.py:387-424 | tables, objects and outcome are those of the model, on the error paths too; forest, registry and attachment marks stay consistent even when a move is refused after files were rebound |
| KnowledgeStore.Store.MoveNode | src/app/services/knowledge.py:427-451 | parent and position change as in the model, or the error is the model's |
| KnowledgeStore.Store.DeleteNode | src/app/services/knowledge.py:566-604 | tables, objects and outcome are those of the model; forest, registry and marks stay consistent |
| KnowledgeStore.Store.ReorderNodes | src/app/services/knowledge.py:636-676 | tables and outcome are those of the model; forest, registry and marks stay consistent |
| KnowledgeStore.Store.DiscardFile | src/app/services/file_storage.py:380-411 | an unattached file's row goes with its object, an attached one is refused; registry and marks stay consistent |
| KnowledgeEffects.FilesComeAndGo | src/app/services/file_storage.py:275-411 | a file comes unattached with its object; exactly an unattached one can be thrown away, and its object stays only if the deletion fails |
| Subscriptions.StatusNeverMovesBack | src/app/services/entitlements.py:118-143 | as time alone passes the effective status never moves back |
| SubscriptionEffects.EffectiveByDates | src/app/services/entitlements.py:118-139 | in force up to and including the end, past due for exactly seven days more, read-only afterwards |
| SubscriptionEffects.NoticeFollowsTimeLeft | src/app/tasks/subscriptions.py:85-131 | on trial or active the mark of the notice is the least of 7, 3 and 1 days that the time left has come down to; it never goes up, and is taken away when more than a week is left again |
| SubscriptionEffects.SuspensionIsMarked | src/app/tasks/subscriptions.py:85-162 | a suspended subscription gets the mark 0 and, unless it had it, one event |
| Subscriptions.DaysLeftShape | src/app/services/entitlements.py:154-162 | days left are absent exactly for a read-only subscription, negative exactly when past due, and never below minus seven |
| Subscriptions.ExpiringSoonExactly | src/app/services/entitlements.py:173-187 | expiring soon means in trial or active with less than eight days to go |
| Subscriptions.ExtensionRunsOut | src/app/services/subscription.py:328-339 | after an extension the status is active until the new end, past due for exactly seven days, then suspended; the end is later than now and than the end before |
| Subscriptions.ExtensionAddsMonths | src/app/services/subscription.py:328-332 | the new end lies at least the months bought beyond the old end and beyond now |
| SubscriptionEffects.ExtensionIsExact | src/app/services/subscription.py:328-339 | the new end lies exactly the months bought beyond the later of now and the old end, or of the trial end if there is none: same day and time, or the last day of a shorter month; plan and status are those bought |
| SubscriptionEffects.ReachIsUnique | src/app/services/subscription.py:328-332 | no other end lies exactly so far |
| Subscriptions.RunsAreSound | src/app/services/subscription.py:213-364 | over every run since creation the journal chains and replays to the stored row, active implies a period end and trialing a trial end |
| Subscriptions.ApplyKeepsSound | src/app/services/billing.py:463-511 | every single operation keeps these |
| Subscriptions.ReplayAgreesExactly | src/app/services/entitlements.py:385-407 | read as written the journal agrees on plan and status always, and on the period end if and only if something was recorded since creation |
| Subscriptions.CreationRecordsForeignEnd | src/app/services/entitlements.py:385-407 | right after creation the journal names a period end that is not stored |
| Subscriptions.SuspensionRecordedOnce | src/app/tasks/subscriptions.py:85-162 | however often the daily job runs while nothing else happens, it records one suspension at most and changes only the notice mark |
| SubscriptionStore.Store.constructor | src/app/services/entitlements.py:373-407 | the row and the journal of a new organisation, which chain and replay |
| SubscriptionStore.Store.PatchSubscription | src/app/services/subscription.py:198-292 | row, journal and outcome, an error restoring the row; the journal goes on to replay to the row, and active implies a period end, trialing a trial end |
| SubscriptionEffects.PatchWrites | src/app/services/subscription.py:198-292 | an accepted correction changes exactly the given fields and notes one event, before and after |
| SubscriptionStore.Store.ExtendSubscription | src/app/services/subscription.py:296-373 | row, journal and outcome, with the end exactly the months bought further on; the journal goes on to replay to the row |
| SubscriptionStore.Store.ApplyPurchase | src/app/services/billing.py:459-511 | an extension reaches exactly the months bought, an upgrade changes the plan alone, and the event is written; the journal goes on to replay to the row |
| BillingProtocol.PaymentsCountOnce | src/app/services/billing.py:401-526 | under every interleaving of workers and manual operations a payment is marked applied exactly if one event records it, the one it references, and is counted once; and the subscription is what some order of the applied payments and the manual operations gives, as long as no manual operation writes over a change later than its read |
| BillingProtocol.StepKeeps | src/app/services/billing.py:417-431 | every step of every worker keeps the invariant behind it |
| BillingProtocol.ApplyingIsAlone | src/app/services/billing.py:420-425 | with an uncommitted application no other worker is past the locking read |
| BillingEffects.DecisionByRow | src/app/services/billing.py:417-500 | under the lock a payment is applied exactly if it has no mark of application, organisation and subscription are there, and an extension names its months; without organisation or subscription it is only marked succeeded |
| BillingEffects.CommitWrites | src/app/services/billing.py:501-526 | a commit writes its own payment only, an application also the subscription and one event at the end of the journal, which the payment names; a crash leaves no trace |
| BillingProtocol.NoPaidMonthIsLost | src/app/services/billing.py:463-484 | then no interleaving loses a paid month, upgrades and manual extensions among the payments or not: the end lies at least all applied months beyond the first one, unless an administrator sets another end by hand |
| BillingProtocol.NoMonthIsGranted | src/app/services/billing.py:463-484 | and none is granted that was not bought: the end lies no further on than the months bought, counted from the first end or the month of the last extension, whichever is later |
| BillingProtocol.PaidMonthsAddUp | src/app/services/billing.py:463-484 | so when all payments come in before the first end, it moves on by exactly the months paid |
| BillingProtocol.LateWriteIsSerialExactly | src/app/services/subscription.py:308-345 | a run of the protocol in which a payment commits between the unlocked read of a manual extension and its write ends in one of the two serial outcomes if and only if the payment was an upgrade; a paid extension is lost, for every subscription and all numbers of months |
| BillingEffects.LateWriteWrites | src/app/services/subscription.py:308-345 | a manual operation that writes late puts back the columns it changed and no others, notes at most one event, and touches no payment |
| BillingStore.LoneWorkerApplies | src/app/services/billing.py:401-526 | a worker of the protocol that runs alone does what the service function does |
| BillingStore.Billing.ApplyPayment | src/app/services/billing.py:401-526 | an applied payment, or an extension without months, changes nothing; without a subscription or for a deleted organisation the payment is only marked as succeeded; otherwise the subscription gets exactly what was bought, the payment its mark, and one event records it; the invariant of the protocol is kept |
| BillingStore.OnlyOwnAnswerVerifies | src/app/services/billing.py:371-379 | the provider's answer about one payment of ours verifies for another one if and only if identifier and amount are the same |
| BillingStore.Billing.Reconcile | src/app/services/billing.py:544-572 | an answer that does not verify against the stored row changes nothing; a verified one is applied or canceled; the invariant of the protocol is kept |
| BillingStore.Billing.ApplyRefund | src/app/services/billing.py:575-617 | a refund marks the payment once and is noted in the journal; the subscription stays, and so does the invariant of the protocol |
| BillingEffects.RefundStepWrites | src/app/services/billing.py:575-617 | a refund marks its payment and notes the amount that went back; the subscription stays |
| SubscriptionEffects.RefundWrites | src/app/services/billing.py:575-617 | the same on the account |
| Checklists.RecomputeAgreesExactly | src/app/services/checklist_instance.py:357-426 | the recomputation restores the agreement of status and items if and only if the status has not been changed since it was loaded while the loaded one is the right one |
| Checklists.RunsAreSound | src/app/services/checklist_instance.py:42-129 | over every run since the start of the shift: a status not closed agrees with the items, completed_at is set exactly if completed, only required ones are closed, and the flag of a finished shift tells whether a required one is not completed |
| Checklists.StatusesFitOverRuns | src/app/services/checklist_instance.py:399-426 | over every run, in the fields of the items: a status that is not closed is completed exactly if every required item is done and has a photo where one is demanded, and the flag tells whether a required checklist is not completed |
| Checklists.ApplyKeepsSound | src/app/services/checklist_instance.py:276-312 | every single operation keeps these |
| Checklists.ClosedForGood | src/app/services/checklist_instance.py:165-210 | once closed an instance stays closed and the window never opens again, whatever becomes of the settings |
| Checklists.WindowAndJobMeet | src/app/tasks/shifts.py:182-217 | the closing job and the window meet without gap or overlap |
| ChecklistEffects.WindowByClock | src/app/services/checklist_instance.py:165-210 | edits are allowed until the finish, and after it for the minutes of grace while no required checklist is closed |
| ChecklistEffects.WindowNamesDeadline | src/app/services/checklist_instance.py:165-210 | while it is open after the finish it names its deadline |
| Checklists.RunsMatchFiles | src/app/services/checklist_instance.py:658-824 | over every run a file is attached exactly if it is on an item, and it is on one place at most |
| ChecklistProtocol.IncompleteIsFinal | src/app/services/checklist_instance.py:357-405 | under every interleaving of any number of edits, closings and finishes an incomplete instance stays so and the window stays closed |
| ChecklistProtocol.StatusAgreesWithItems | src/app/services/checklist_instance.py:399-426 | with edits of one instance one after another, and everything else anywhere inside them: an instance that is not closed is completed exactly if every required item is done and has a photo where one is demanded |
| ChecklistProtocol.ConcurrentEditsDisagree | src/app/services/checklist_instance.py:416-424 | two edits of one instance at once can leave it completed with a required item undone: a concrete interleaving |
| ChecklistAlone.LoneEdit | src/app/services/checklist_instance.py:571-623 | the steps of an edit with nobody else about write its instance and nothing else |
| ChecklistAlone.LoneUpdateSettles | src/app/services/checklist_instance.py:571-623 | and settle its status as the service's update does |
| ChecklistAlone.LoneAttachSettles | src/app/services/checklist_instance.py:658-759 | the same of adding a photo |
| ChecklistAlone.LoneDetachSettles | src/app/services/checklist_instance.py:762-824 | the same of removing one |
| ChecklistAlone.LoneJobFinalizes | src/app/tasks/shifts.py:144-223 | the steps of the closing job, visiting the rows in any order, leave the instances that the one-shot operation leaves |
| ChecklistAlone.LoneFinish | src/app/services/checklist_instance.py:292-312 | and so do the steps of a finish, with grace and without |
| ChecklistStore.Store.constructor | src/app/services/checklist_instance.py:42-129 | a snapshot of every template, completed at once if nothing in it is required; statuses agree with items and files with photos |
| ChecklistEffects.NewInstanceWrites | src/app/services/checklist_instance.py:42-129 | a new instance has the items of its template, undone and without photos, and is completed at once exactly if none is required |
| ChecklistStore.Store.UpdateItem | src/app/services/checklist_instance.py:571-623 | board and outcome; afterwards every status that is not closed is completed exactly if every required item is done and has a photo where one is demanded, and the flag agrees |
| ChecklistStore.Store.AttachPhoto | src/app/services/checklist_instance.py:658-759 | board and outcome; statuses fit the fields of the items, and a file stays attached exactly if it is on an item, and on one place at most |
| ChecklistEffects.AttachAccepts | src/app/services/checklist_instance.py:658-759 | a photo is accepted exactly in the window, on an item that takes photos and has room, with a usable file that is attached nowhere |
| ChecklistEffects.AttachWrites | src/app/services/checklist_instance.py:658-759 | it comes last on its item, its file is attached, and no other item or file changes |
| ChecklistEffects.DetachAccepts | src/app/services/checklist_instance.py:762-824 | a photo can be taken off exactly in the window and if it is there |
| ChecklistEffects.DetachWrites | src/app/services/checklist_instance.py:762-824 | exactly that photo goes, with its file |
| ChecklistStore.Store.FinishShift | src/app/services/checklist_instance.py:292-312 | with no grace the checklists are closed with the finish, otherwise they stay open; the flag tells whether a required one is not completed |
| ChecklistStore.Store.FinalizeExpired | src/app/tasks/shifts.py:144-223 | the job closes what is pending once the grace period is over, and nothing before; statuses and flag agree afterwards |
| ChecklistEffects.ExpiryWrites | src/app/tasks/shifts.py:144-223 | exactly the pending required checklists become incomplete, once the minutes of grace have passed |
| Storage.RunsAgree | src/app/tasks/cleanup.py:93-203 | over every run, with any pattern of failing deletions and anything between the steps of a reconciliation, a row without a purge mark has its object and a row with one has none |
| Storage.GatheredNeverLive | src/app/tasks/cleanup.py:291-366 | over every run a key that the reconciliation has gathered, page by page, never has a live row and can never get one, however long the deletion takes and whatever is uploaded meanwhile |
| Storage.AgeProtectsUploadsExactly | src/app/tasks/cleanup.py:291-312 | a row committed after a reconciliation has its object if and only if the cutoff is not later than the put |
| Storage.SweepAloneReconciles | src/app/tasks/cleanup.py:315-366 | the steps of a reconciliation with nothing in between do what the method does |
| Storage.ApplyKeeps | src/app/services/file_storage.py:275-411 | every single operation keeps this, uploads in progress included |
| Storage.RuleTouchesCandidatesOnly | src/app/tasks/cleanup.py:149-203 | whatever fails, a rule touches only its candidates, rows and objects |
| Storage.RuleClears | src/app/tasks/cleanup.py:149-203 | without failures and with no more candidates than the batches hold, a rule leaves none and counts them all |
| Storage.PurgeRuleLeavesNone | src/app/tasks/cleanup.py:169-203 | without failures and with at most 20 times 500 candidates a purge rule leaves none |
| Storage.CrashIsHealedByRetry | src/app/tasks/cleanup.py:123-136 | a crash between deletions and commit breaks the agreement exactly if an object of a live row is gone, and the next run of the batch heals it |
| Storage.CandidatesAreOrphans | src/app/tasks/cleanup.py:291-350 | the candidates gathered page by page are the orphan objects, each once |
| FileStore.ReadWithLimit | src/app/services/file_storage.py:190-204 | the content is read in full if and only if it stays within the limit |
| FileStore.Files.PutObject | src/app/services/file_storage.py:270-276 | the object is put first; without success nothing has happened; registry and objects agree |
| FileStore.Files.CommitUpload | src/app/services/file_storage.py:278-293 | then the row is committed, unattached; registry and objects agree |
| StorageEffects.UploadGoesThrough | src/app/services/file_storage.py:270-293 | put and commit together leave an unattached live row with its object |
| FileStore.Files.DeleteFile | src/app/services/file_storage.py:380-411 | the row goes even if the deletion of the object fails; registry and objects agree |
| FileStore.Files.DeleteObjects | src/app/tasks/cleanup.py:57-82 | which objects of a batch are gone, and how many deletions failed |
| FileStore.Files.RunBatches | src/app/tasks/cleanup.py:149-203 | the batch loop does what the model's run of the rule does, counts included |
| FileStore.Files.CleanupOrphanFiles | src/app/tasks/cleanup.py:92-142 | whatever fails, every attached row and every one younger than the age stays as it is, with its object if it is live; a row that goes takes its object with it, and no other object goes; without failures, and with at most 10000 old unattached rows, all of them go; the agreement is kept |
| FileStore.Files.PurgeExpiredFiles | src/app/tasks/cleanup.py:206-275 | whatever fails, only attached rows without a mark are marked, past the retention of checklist photos or of photos of the place, or of an organisation deleted long enough ago, each with its object gone; without failures, and with at most 10000 due, all that are due; the agreement is kept |
| FileStore.Files.FindOrphanCandidates | src/app/tasks/cleanup.py:291-312 | exactly the old objects of the page without a live row |
| FileStore.Files.ReconcileStorageObjects | src/app/tasks/cleanup.py:315-366 | page by page: the row table stays; every object that goes is old, under a prefix and without a live row; above the limit none goes; up to it exactly the orphans whose deletion failed are left; the agreement is kept |

## Left out

- HTTP, schemas, SQL text, object-store and payment-provider calls, tokens, logging, audit and notification rows, spreadsheet layout: plumbing around the modelled rules.
- Roles, membership and subscription guards: the caller is taken to have passed them; `require_active_subscription` reads the modelled effective status.
- Several organisations at once: every model is of one organisation, except the shifts, where the context is part of the row.
- Geographic checks, geo-fallback photos and the resolution of work schedules: the outcome of admission and the planned window are inputs.
- Texts of amounts with exponents, signs after the digits, NaN or more than 28 digits, and years after 9999, which the Python types refuse.
- Seconds are the unit of time; microseconds are not modelled. Identifiers are numbers, whose order stands for the order of their texts.
- Concurrent moves of knowledge nodes and concurrent starts of shifts: serial transactions, as the code's own comments leave these races open.
- Concurrent edits of one knowledge page, whose conflict the unique index on the file reports.
- `src/app/services/knowledge.py:703-747` (replacing access rules) and `icon`: plain assignments that no modelled property depends on.
- The flag `has_incomplete_required_checklists` of a shift finished by a manual edit, a path that does not close the checklists (`src/app/services/manual_shift.py:463-466`); and the same flag under concurrent edits of different checklists.
- Containment of pauses after an automatic or manual finish without a pause list, which may end a shift before a pause.
- `cleanup_shift_photo_files`, which no path calls.
- The choice of the effective checklist templates at the start of a shift: the templates are an input.
- A deletion of an object that is reported as failed although it succeeded: a failed deletion leaves the object.
- A crash between the put of an object and the commit of its row is modelled as an abandoned upload; a crash between the deletion of a page's objects and the commit of the page is not.
- Storage.RunsAgree: takes batches to be committed after their deletions, because a crash in between does break the agreement; Storage.CrashIsHealedByRetry states that case exactly. Uploads are taken to be committed within the age that protects their object, because a later one can lose it, as Storage.AgeProtectsUploadsExactly states. One reconciliation runs at a time, and keys are never drawn twice.
- ChecklistProtocol.StatusAgreesWithItems: assumes one edit at a time on an instance, because the claim is false otherwise, as ChecklistProtocol.ConcurrentEditsDisagree shows.
- BillingProtocol.PaymentsCountOnce: that the subscription is a serial one assumes that manual operations write over what they have read, because they do not take the lock; BillingProtocol.LateWriteIsSerialExactly states what happens otherwise. The order of status changes between refunds, cancellations and applications is not claimed.
- BillingProtocol.NoPaidMonthIsLost: assumes the same, and that no administrator sets an end by hand, who may set any.
- ShiftRuns.HonestRunsAreDisjoint: assumes manual ends not after the clock, because the tolerance of 60 seconds makes the claim false, as ShiftRuns.ToleranceAllowsOverlap and ShiftRuns.EditAllowsOverlap show; ShiftRuns.RunsAreDisjointExactly says when it holds otherwise.
