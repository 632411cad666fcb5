# Verification of the Fyle–NetSuite integration

The integration imports expenses from Fyle, groups them, exports the groups to NetSuite as bills, expense reports,
card charges and journal entries, and reports payments back. This project models that logic in Dafny and proves what
it keeps. `dafny verify dfyconfig.toml` checks everything.

The model has four parts.

* **The ledger** of expenses, expense groups, task logs and errors. `Expenses`, `Grouping`, `GroupFilter` and
  `GroupCreation` build groups from expenses, and `GroupLaws` says column by column which expenses end together and
  what becomes of each. `Tables` has the tables, their invariant and the row operations. `Ledger` imports,
  `Regrouping` re-runs the skip rule, ejects expenses and follows report changes, and `FundSourceChange` rebuilds groups
  when an expense changes its fund source. `LedgerRuns` puts all of these, exports, error rows, category changes,
  clean-ups and summary writes into arbitrary sequences, and `FundSources` says which of these steps keep every group on
  one fund source. `ImportOutcome` and `LedgerOutcome` state, over columns and statuses alone, what an import, a change,
  a rerun, an ejection, an addition and a clean-up do to every row and group. `LedgerStore` and `SummaryWriters` are the
  same operations on tables updated in place, each proved against the function that specifies it. `GroupSettings` is
  the form that rewrites the grouping fields.
* **The export protocol** (`ExportProtocol`, in place in `ExportTables`, over the statuses in `TaskLogs`): schedulers,
  the task queue, workers, the sweeper of stuck logs and the deletion of logs, interleaved in any order. `ExportPosts`
  adds the posts to NetSuite, which come before the commit, and `ExportOutcome` states what each step does to the log of
  every group.
* **Money**: the tax split of a line (`Tax`) and the journal entry (`Journal`, with the accounts it hits in
  `JournalAccounts`). Money is in integer cents, because the import rounds amounts to two places. A tax rate is a
  non-negative fraction of a percentage. `round(x, 2)` is rounding to the nearest cent.
* **Sync and payment state machines**: the two-phase id update (`IdSwap`), vendor payments (`Payments`, and what
  a run records in `PaymentOutcome`), the text of their ids (`PaymentIds`, over the numerals and splits of `Text`), their
  retry throttle (`Throttle`), marking reports paid in Fyle (`MarkPaid`) and the queue worker (`WorkerQueue`).

What the outside world decides enters as a parameter: the user's expense filter is a predicate on expense details, the
order in which a query lists its rows is a sequence, NetSuite's answers are part of an event, and the Fyle platform is
a function from call number and report ids to a response. `transaction.atomic` is one step that either happens or
leaves the tables as they were. The model is of one workspace, and row ids stand for expense ids.

## Where the code falls short of its intent

Each of these is a lemma, with the exact condition under which the code does what it is for.

* A fund source change with a blocked group among the matched ones deletes the unblocked groups and, when it returns
  early, does not rebuild them; their expenses are in no group until a later import or change picks them up.
  `ChangeLosesTheStranded` says which expenses these are, exactly, and `ChangeRestoresOneSource` says exactly when
  the whole step leaves every group on one fund source again; with the settings the form can store, when no blocked
  group holds a changed expense (`OnlyBlockedStayMixed`).
* `update_non_exported_expenses` names one fund source only. With personal expenses grouped singly and cards grouped
  by report, a card group is found by its changed members alone and the others are not rebuilt
  (`KeyedGroupsStrandExactly`). With both sources grouped by expense the same happens to card groups that hold
  several expenses of one bank transaction (`SingleGroupsStrandExactly`).
* A plain import rewrites the fund source of rows that are already grouped and does not rebuild their groups
  (`ImportKeepsOneSourceExactly`).
* Re-running the skip rule deletes groups without deleting their mentions in mapping errors
  (`ReRunLeavesStaleMentionsExactly`); deleting a group through `delete_expense_group_and_related_data` does not
  (`DeletionIsExact`).
* The scheduler's query and its loop are separate steps, and the loop adds a task whatever the log says by then. An
  exported group gets a task exactly when the answer is older than the export (`QueuedExactly`,
  `StaleQueryQueuesExported`). Such a task does something only after a sweep of the log or a failure after the
  commit (`ExportedIsDone`, `ExportedIsClaimedExactly`); `LateFailureExportsTwice` is a run that commits one group
  twice.
* The post to NetSuite precedes the commit. A group that is exported without sweep or late failure was committed once,
  but posted once more for every failure in between (`PostedOnceAndForEachLoss`, `LostPostPostsTwice`).
* Tax balancing compares the absolute stated tax with the signed expected tax. A line left whole is within the
  rounding bound exactly when its tax is not negative (`WholeTaxIsCloseExactly`), and a refund is split even when its
  tax is right (`RefundIsSplitExactly`).
* The single credit line splits `account::::entity` back apart; this works exactly for accounts and entities that
  cannot be mistaken for the separator (`SplitOfJoin`, `SingleRefinesItemised`, `SingleRefinesOnlySeparable`).
* A check later than two months takes the row to retire from the text of the payment's id, as the third piece between
  hyphens. For an e-mail with a hyphen that is a piece of the e-mail (`PickedExactly`): with `ann@acme-corp.com` the
  check raises (`HyphenPicksNone`), with `a-5-b@x.com` it retires document 5 (`HyphenPicksAnother`). The document
  itself is retired exactly when the e-mail has no hyphen or its own id stands there (`PicksItselfExactly`,
  `LateCheckRetires`). A check that raises ends the run: no bucket behind it is paid, no expense report if it is one
  of the bills, and every repetition ends there again (`PassRaisesExactly`, `StoppedPassLeavesRest`,
  `FirstBucketBlocks`, `StopRepeats`). What is paid stays paid once also then (`PayRunKeepsInv`).
* A payment run reads the complete log of every listed document before it pays anything, and raises when there is none.
  An exported group is without one only after a sweep or a failure after the commit, and one such failure suffices
  (`ExportedLacksLog`, `LateFailureLosesCompleteLog`). From then on its open bill keeps every run from paying anything,
  its open report every run from paying reports (`IncompleteLogBlocks`, `IncompleteReportBlocks`).
* The handler of a SOAP fault of a payment upserts an error without a group and raises when the workspace has several,
  as mapping errors are; that ends the run as well (`PassRaisesExactly` has all the cases).
* Neither branch of the payment throttle skips at an age of exactly one or exactly two months, so a failing payment
  is attempted up to ceil(month / week) + 2 times (`AttemptsAreBounded`, `BoundIsReached`).
* `mark_paid_on_fyle` ends with an exception exactly when a call is answered without a body or with a final complaint
  about a report that is not in the set any more (`CrashesExactly`).
* In the settings form, the branch that adds `claim_number` next to `report_id` is never taken, because both were
  just removed (`PairingIsIdle`); and reimbursable claims add `report_id` to a card list that asks for another
  grouping (`CardReportExactly`).
* A refund whose row comes in twice is skipped twice, and counts twice towards the total of its group
  (`FilterSplits`, `CreationPartitions`). The group stores each row once, so that a bill with a repeated charge can
  store a negative total (`RepeatedChargeStoresNegative`); reports and bills store no negative total exactly when no
  group of the query turns its sign that way (`BillsAndReportsAreNotNegative`), as when no row is repeated
  (`DistinctImportNotSkewed`).

## Model

| member | source | states |
|---|---|---|
| Common.RemoveFirstOfDistinct | apps/fyle/tasks.py:547-553 | `list.remove` deletes an id completely from a list without duplicates, which the error rows rely on |
| Common.RemoveFirstClears | apps/fyle/tasks.py:549-549 | on any list, the removed id is gone exactly when it occurred once |
| Common.RemoveFirstAt | apps/fyle/models.py:288-294 | `list.remove` deletes the occurrence the loop stands at when no earlier one is left |
| Common.AsOftenOfDistinct | apps/fyle/models.py:382-428 | a list that holds each of its rows as often as the input has no duplicates if the input has none |
| Grouping.GroupByIsGroupBy | apps/fyle/models.py:352-368 | grouping puts each distinct expense in exactly one list, two expenses in the same list exactly when they agree on every grouping field |
| Grouping.BucketsNetTheWholeGroup | apps/fyle/models.py:387-406 | because spent_at is then a grouping field, a group of `_group_expenses` has one bucket and is netted as a whole: the bucket loop never overwrites a kept list |
| Grouping.BucketsOfTwoDaysLoseACharge | apps/fyle/models.py:398-406 | on rows of two days, which no such group holds, the bucket loop would drop a charge without skipping it |
| Grouping.SiftSplits | apps/fyle/models.py:371-428 | one group is split into kept rows, skipped refunds and dropped zero amounts, each row as often as it was listed, with its total conserved and no negative total kept where refunds are set aside |
| Grouping.SplitsJoin | apps/fyle/models.py:422-428 | splits of disjoint groups join to a split of all of them |
| Grouping.FilterSplits | apps/fyle/models.py:371-428 | for any answer of the grouping query each expense ends in exactly one group, skipped, or as a dropped zero amount, never two of these, and is listed there exactly as often as in the input |
| Grouping.FilterConserves | apps/fyle/models.py:371-428 | totals of the kept groups plus skipped refunds equal the total that came in |
| Grouping.FilterStoredExactly | apps/fyle/models.py:371-428 | for any answer of the grouping query the groups the filter keeps store non-negative totals exactly when nothing is netted or no group's repeated rows turn its sign |
| Grouping.StoredConserves | apps/fyle/models.py:422-565 | each row counted once, the stored groups and the skipped rows of any split carry the amount that came in |
| GroupFilter.GroupByDay | apps/fyle/models.py:392-395 | the dictionary from spent_at to rows holds each day at its first place, with the rows of that day in order |
| GroupFilter.NetEachBucket | apps/fyle/models.py:398-406 | the bucket loop computes the specified kept and skipped rows |
| GroupFilter.FilterExpenseGroups | apps/fyle/models.py:371-428 | the loop over the groups computes the specified filter |
| GroupCreation.SplitFields | apps/fyle/models.py:504-508 | split card charges lose the expense fields and gain the bank transaction as grouping field |
| GroupCreation.CreationPartitions | apps/fyle/models.py:451-567 | over the personal, card, bill and split-charge paths each expense is in exactly one created group, skipped as a refund, or a zero amount; without repeated rows it is listed there once, and a refund whose row is repeated is skipped as often; each group is of one fund source |
| GroupCreation.BillsAndReportsAreNotNegative | apps/fyle/models.py:379-413 | reimbursable expense reports and bills and card bills store no negative total exactly when no group of the grouping query lists its rows, with repetitions, to a total of zero or more while its distinct rows total below zero |
| GroupCreation.ListedTotalsAreNotNegative | apps/fyle/models.py:371-428 | counted with their repetitions, the rows of such a group never total below zero |
| GroupCreation.DistinctImportNotSkewed | apps/fyle/models.py:451-567 | without repeated rows no such group of the query exists |
| GroupCreation.RepeatedChargeStoresNegative | apps/fyle/models.py:379-565 | a charge of 10.00 listed twice and a refund of 15.00 of one report become one bill that lists 5.00 and stores minus 5.00 |
| GroupCreation.CardGroupsSplit | apps/fyle/models.py:484-517 | card expenses are partitioned whether or not they are split by bank transaction |
| GroupCreation.CreationConserves | apps/fyle/models.py:451-567 | each row counted once, stored totals plus skipped refunds equal the import, for any payload; listed totals plus skipped amounts equal the personal rows with their repetitions and the card rows as the card path counts them |
| GroupCreation.CardPartConserves | apps/fyle/models.py:479-529 | for the card side alone: with repetitions where bills are filtered, else each row once |
| GroupLaws.KeyIsAgreement | apps/fyle/models.py:366-367 | two rows have one value of the grouping fields exactly when they are the same row if expense_id is among them, and share fund source, day, report, bank transaction and any other column that is |
| GroupLaws.CreatedTogetherExactly | apps/fyle/models.py:484-517 | of any two rows that are grouped: they share a group exactly when they are of one fund source and agree on each field that applies - for split card charges the bank transaction instead of the expense when they have one, never one with and one without, and the plain card fields when charges are not split |
| GroupLaws.RowFate | apps/fyle/models.py:371-428 | each imported row is grouped when it is a charge or the total of its group keeps the whole group, skipped when it is a refund of any other group, and dropped when it is a zero amount of one |
| GroupSettings.RemoveGroupable | apps/fyle/models.py:288-294 | removing each groupable field while walking a copy leaves exactly the other fields, in order |
| GroupSettings.PairingIsIdle | apps/fyle/models.py:288-306 | when the form pairs claim_number with report_id neither is left in the stored list: the branch that adds claim_number is not taken and the one that removes it finds nothing |
| GroupSettings.RemoveExportDates | apps/fyle/models.py:319-325 | no export date is left and nothing else is lost |
| GroupSettings.Rewrite | apps/fyle/models.py:283-331 | one list ends with its unmanaged fields, the form's fields and the chosen export date only |
| GroupSettings.ExpenseGroupSettings.constructor | apps/fyle/models.py:223-224 | the default field lists |
| GroupSettings.ExpenseGroupSettings.UpdateExpenseGroupSettings | apps/fyle/models.py:277-349 | both lists hold exactly the fields the form asks for, with the report pulled in by reimbursable claims |
| GroupSettings.FormIsIdempotent | apps/fyle/models.py:277-349 | the same form applied twice gives the same field sets as once |
| GroupSettings.OneExportDate | apps/fyle/models.py:319-331 | an export date is in a list exactly when it is the chosen one |
| GroupSettings.OtherFieldsSurvive | apps/fyle/models.py:288-325 | fields outside the groupable and date lists survive |
| GroupSettings.CardReportExactly | apps/fyle/models.py:333-335 | over any history of forms the card list groups by report exactly when the card form says so or the form asks for reimbursable claims (or for a field of that name as export date) |
| GroupSettings.HistoryNeverFailsCreation | apps/fyle/models.py:223-224 | after any sequence of forms group creation never misses the fund_source of a description |
| GroupSettings.FormStoresExactly | apps/fyle/models.py:277-349 | from any stored lists, which fields each list holds afterwards: of the six export dates the chosen one only; of the others those chosen or submitted and those held before that are none of the six groupable names; and the report when the reimbursable list has the claim number and the card list is not empty |
| GroupSettings.HistoryStoresExactly | apps/fyle/models.py:277-349 | over any history of forms the same, where the card list is never empty; so every submitted field that is no export date is stored |
| Tables.AddGroupsKeepsInv | apps/fyle/models.py:558-565 | storing new groups of ungrouped, unskipped expenses keeps the ledger invariant |
| Tables.SkipKeepsInv | apps/fyle/actions.py:77-113 | skipping expenses outside unexported groups keeps the ledger invariant |
| Tables.DeleteGroupsKeepsInv | apps/fyle/tasks.py:517-557 | deleting groups keeps the invariant, and exported groups if none is among them |
| Ledger.CreateObjectsReady | apps/fyle/models.py:145-220 | an import batch holds known, unskipped, ungrouped expenses, and every payload row left out is grouped or set aside |
| Ledger.GroupAndSkipSettles | apps/fyle/tasks.py:255-284 | grouping a batch keeps the invariant and settles each expense: in a group of its fund source, set aside, or a zero amount |
| Ledger.GroupAndSkipAdds | apps/fyle/tasks.py:255-284 | the groups a batch adds are unexported, made of the batch and each of one fund source |
| Ledger.ImportKeepsInv | apps/fyle/tasks.py:212-289 | an import keeps the invariant and touches no exported group |
| Ledger.ImportSettlesThePayload | apps/fyle/tasks.py:212-289 | a completed import loses no expense |
| ImportOutcome.GroupAndSkipExactly | apps/fyle/tasks.py:255-284 | each row of a batch: skipped and in no group when the filter matches it and it is not DELETED; otherwise grouped when it is a charge or its group is kept whole, skipped when it is a refund, left alone at zero; its columns stay |
| ImportOutcome.BatchSharesExactly | apps/fyle/models.py:451-567 | rows of a batch that end grouped share a stored group exactly when they agree on what they are grouped by |
| ImportOutcome.PayloadIsStored | apps/fyle/models.py:145-220 | each imported expense is stored with the columns of its last payload entry, a new one unskipped and without summary, a stored one with its own skip flag and summary; it is in the batch exactly when it is neither skipped nor grouped |
| ImportOutcome.ImportExactly | apps/fyle/tasks.py:205-289 | what a completed import makes of each payload expense: grouped or skipped ones only take their new columns; free ones are skipped when refunds are dropped, their source is not exported or the filter matches them, unless DELETED; and the rest is grouped, skipped or left at zero as above |
| ImportOutcome.ImportRollsBack | apps/fyle/tasks.py:205-289 | an import that is not completed changes nothing; with fund_source in both field lists every import is completed |
| Regrouping.ReRunKeepsInv | apps/fyle/tasks.py:945-1015 | re-running the skip rule keeps the invariant and touches no exported group |
| Regrouping.ReRunLeavesStaleMentionsExactly | apps/fyle/tasks.py:945-1015 | a mapping error names a group the rerun deleted exactly when it named it before and the rule skipped every member of that unexported group |
| Regrouping.DeletionIsExact | apps/fyle/tasks.py:517-557 | deleting groups leaves no log, error or mapping entry naming them, deletes exactly the errors tied to them or emptied by their removal, and leaves every other row unchanged |
| Regrouping.EjectKeepsInv | apps/fyle/tasks.py:797-837 | ejecting an expense keeps the invariant and touches no exported group |
| Regrouping.EjectFrees | apps/fyle/tasks.py:797-837 | the ejected expense stays grouped exactly when an export of its group finished or is under way |
| Regrouping.EjectLeavesOthers | apps/fyle/tasks.py:797-837 | no other expense joins or leaves a group |
| Regrouping.AddToReportKeepsInv | apps/fyle/tasks.py:742-794 | deleting the groups of a report keeps the invariant and touches no exported group |
| FundSourceChange.FilterFindsChangedExpenses | apps/fyle/tasks.py:1040-1077 | in all four combinations of report and expense grouping the filter matches every unexported group with a changed expense, through that expense |
| FundSourceChange.HandleKeepsInv | apps/fyle/tasks.py:430-480 | handling a fund source change keeps the invariant and touches no exported group |
| FundSourceChange.UnblockedChangeSettles | apps/fyle/tasks.py:430-623 | with no matched group blocked, an affected expense is deleted exactly when its new source is not configured, and otherwise ends in a group of that source, set aside, or a zero amount; no other expense is deleted |
| FundSourceChange.ChangeLosesTheStranded | apps/fyle/tasks.py:430-514 | which expenses a change leaves in no group, exactly |
| FundSourceChange.KeyedGroupsStrandExactly | apps/fyle/tasks.py:1040-1077 | groups keyed by report or holding one expense are rebuilt completely except with personal expenses grouped singly, cards by report and only the card source named; then exactly when no matched card group has an unchanged member |
| FundSourceChange.SingleGroupsStrandExactly | apps/fyle/tasks.py:1056-1059 | with both sources grouped by expense nothing is stranded exactly when a touched group, also one of several expenses of a bank transaction, is changed as a whole |
| FundSourceChange.ConfiguredExactly | apps/fyle/tasks.py:582-596 | rebuilding deletes exactly the rows of the batch whose source is not configured |
| FundSources.ReportChangeNames | apps/fyle/tasks.py:383-428 | the change worked out for a report names exactly the rows whose source moves, each under the source it left |
| FundSources.SingleChangeNames | apps/fyle/tasks.py:899-938 | so does the change named for one expense |
| FundSources.ChangeRestoresOneSource | apps/fyle/tasks.py:383-480 | from groups of one source each, the whole step - rows rewritten, groups rebuilt - ends with groups of one source each exactly when no unexported group keeps a changed expense, by being blocked or by a rebuild that is rolled back |
| FundSources.HandleFailsExactly | apps/fyle/tasks.py:430-480 | the rebuild is rolled back exactly when no matched group is blocked and a group is to be created of a source whose grouping fields lack fund_source; never with fund_source in both lists |
| FundSources.OnlyBlockedStayMixed | apps/fyle/tasks.py:383-514 | with fund_source in both lists the step ends with groups of one source each exactly when no blocked group holds a changed expense |
| FundSources.ImportKeepsOneSourceExactly | apps/fyle/tasks.py:212-289 | a completed import keeps every unexported group on one source exactly when it moves no row of such a group to the other source |
| FundSources.OtherStepsKeepOneSource | apps/fyle/tasks.py:517-1015 | every step but imports and fund source changes keeps every unexported group on one source |
| LedgerOutcome.MatchedExactly | apps/fyle/tasks.py:1040-1077 | the filter finds exactly the unexported groups with a row it looks for, spelled out for the four combinations of grouping by report or by expense |
| LedgerOutcome.ChangeDeletesExactly | apps/fyle/tasks.py:430-514 | a group that is matched and whose log is failed, fatal or absent is deleted with its log; any other group, also a matched one whose log is enqueued, in progress or complete, stays with the same row and log |
| LedgerOutcome.BusyChangeAddsNothing | apps/fyle/tasks.py:465-480 | with such a log on a matched group no group is added and no row changes |
| LedgerOutcome.ChangeRebuildsExactly | apps/fyle/tasks.py:582-623 | without one, each row read back is deleted when its source is not exported any more, and otherwise skipped or grouped like an imported one; no other row changes |
| LedgerOutcome.ReRunRowsExactly | apps/fyle/tasks.py:945-1015 | the rerun skips exactly the unskipped rows that the rule matches and whose summary is neither COMPLETE nor DELETED, and changes no other row |
| LedgerOutcome.ReRunGroupsExactly | apps/fyle/tasks.py:945-1015 | an unexported group loses exactly the rows the rule takes, is gone when none is left, and loses its log if it loses any; exported groups stay |
| LedgerOutcome.EjectExactly | apps/fyle/tasks.py:797-837 | the expense leaves its group unless that is exported or its log enqueued or in progress; the group goes when it was the only member; every other group stays |
| LedgerOutcome.AddToReportExactly | apps/fyle/tasks.py:742-794 | exactly the unexported groups with a row of the report and no enqueued or running log are deleted; every other one stays with its log |
| LedgerOutcome.ClearExactly | apps/workspaces/apis/export_settings/helpers.py:55-126 | if an unexported group of a changed source exists: the queued logs go, and the failed and fatal ones of these groups, and no other |
| LedgerOutcome.ClearErrorsExactly | apps/workspaces/apis/export_settings/helpers.py:55-126 | and of the errors those of one of these groups and those whose whole list it is; the lists lose exactly these groups |
| LedgerRuns.ReachableStatesKeepInv | apps/fyle/tasks.py:212-1015 | in every reachable state each expense is in at most one group, no group is empty, no member of an unexported group is skipped, a completed log has an exported group, error lists have no duplicates and synced summaries are in their posted state |
| LedgerRuns.ApplyKeepsInv | apps/fyle/tasks.py:212-1015 | each single step keeps that and every exported group with its members |
| LedgerRuns.RunFreezesExports | apps/fyle/tasks.py:212-1015 | over any run an exported group is never deleted and never changes members |
| LedgerRuns.SummaryWriteKeepsSkipFlags | apps/fyle/actions.py:38-48 | writing the default is_skipped changes nothing for members of unexported groups |
| LedgerRuns.DeletedIsAbsorbing | apps/fyle/actions.py:38-232 | no step takes a summary out of DELETED |
| LedgerRuns.RunStaysDeleted | apps/fyle/actions.py:38-232 | over any run a DELETED summary stays DELETED |
| LedgerRuns.RecordMissingMappingKeepsInv | apps/tasks/models.py:119-142 | recording a missing mapping keeps the id lists free of duplicates |
| LedgerRuns.ChangeCategoryKeepsInv | apps/fyle/tasks.py:840-896 | moving a group between the lists of two category errors keeps the invariant, duplicate-free lists included, and touches no exported group |
| LedgerRuns.CategoryChangeMovesTheGroup | apps/fyle/tasks.py:840-896 | exactly this group leaves the error that listed it and joins that of the new category, unless that one has a mapping and no error; no other group is held back or let go |
| LedgerRuns.ClearKeepsInv | apps/workspaces/apis/export_settings/helpers.py:55-126 | clearing errors and logs after a change of the export type keeps the invariant and touches no exported group |
| LedgerStore.DeleteGroupsTwice | apps/fyle/tasks.py:517-557 | deleting groups one after the other deletes them together, in any order |
| LedgerStore.Store.MarkExpensesAsSkipped | apps/fyle/actions.py:77-113 | a listed row that the rule matches and that is neither skipped nor DELETED is skipped with state SKIPPED; every other row is as before |
| LedgerStore.Store.CreateExpenseObjects | apps/fyle/models.py:145-220 | upserts the payload and returns the unskipped, ungrouped rows |
| LedgerStore.Store.SaveGroups | apps/fyle/models.py:558-565 | stores the groups under the next ids |
| LedgerStore.Store.DeleteExpenseGroup | apps/fyle/tasks.py:517-557 | removing one id at a time from the error lists deletes the group exactly as specified |
| LedgerStore.Store.DeleteExpenseGroupsForReport | apps/fyle/tasks.py:742-794 | deletes the idle unexported groups of the report |
| LedgerStore.Store.EjectExpense | apps/fyle/tasks.py:797-837 | removes the expense from its group, and the group if it was the only member |
| LedgerStore.Store.BuildGroups | apps/fyle/models.py:451-567 | computes the groups and the skip list of the specification |
| LedgerStore.Store.GroupExpensesAndSave | apps/fyle/tasks.py:212-289 | the import in one transaction, rolled back when the description lacks its fund source |
| LedgerStore.Store.ReRunSkipExportRule | apps/fyle/tasks.py:945-1015 | the loop over the touched groups computes the specified state |
| LedgerStore.Store.DeleteUnblockedGroups | apps/fyle/tasks.py:483-514 | of the listed groups exactly those whose log is failed, fatal or absent are deleted; the answer is whether all were |
| LedgerStore.Store.RecreateExpenseGroups | apps/fyle/tasks.py:560-623 | deletes unconfigured expenses, regroups the others |
| LedgerStore.Store.HandleFundSourceChanges | apps/fyle/tasks.py:430-480 | the whole change in one transaction |
| SummaryWriters.SummaryTables.UpdateExpenses | apps/fyle/actions.py:51-189 | each listed row that is not DELETED ends unskipped and unsynced, IN_PROGRESS, COMPLETE or ERROR by the writer; every other row is as before |
| SummaryWriters.UpdatesWriteRows | apps/fyle/actions.py:38-74 | collecting a list of updates and writing them row by row writes exactly the listed rows, also when a row is listed twice |
| SummaryWriters.SummaryTables.MarkAccountingExportSummaryAsSynced | apps/fyle/actions.py:116-137 | each listed row with a summary is synced, with its state as previous export state; every other row is as before |
| SummaryWriters.SummaryTables.GetOrCreateErrorWithExpenseGroup | apps/tasks/models.py:119-142 | the list of the row holds the group and every group it held before and no other, without duplicates if it had none, in any order; no other row changes |
| SummaryWriters.SummaryTables.HandleCategoryChanges | apps/fyle/tasks.py:850-896 | every error holds back the groups it held back before, except that this group is let go by the error found and held back by that of the new category; that one exists afterwards unless the category is mapped; the ledger invariant is kept |
| ExportProtocol.RunKeepsInv | apps/netsuite/tasks.py:476-544 | the bounds below hold after any interleaving of schedulers, workers, failures and sweeps |
| ExportProtocol.WorkersPerLog | apps/netsuite/tasks.py:476-544 | the workers between claim and return on one log number at most its sweeps, plus one if it is in progress or complete |
| ExportProtocol.ClaimsAreExclusive | apps/netsuite/tasks.py:476-490 | without sweeps two workers never hold the same log |
| ExportProtocol.CompleteIsExported | apps/netsuite/tasks.py:524-542 | a complete log's group has exported_at set |
| ExportProtocol.CommitsPerLog | apps/netsuite/exceptions.py:122-246 | an export of a group is committed at most once more often than its log was swept or failed after a commit |
| ExportProtocol.ExportedIsDone | apps/netsuite/queue.py:108-128 | without either, the export of an exported group was committed once, its log stays complete, and a task for it that is still in the queue changes no log, worker or export |
| ExportProtocol.FreshQueryNeverEnqueuesExported | apps/netsuite/queue.py:82-128 | a scheduler whose query is not stale adds no task for an exported group and leaves its log alone |
| ExportProtocol.QueuedExactly | apps/netsuite/queue.py:84-128 | a group gets a task exactly when a scheduler works from an answer that found it neither exported nor taken, an exported group therefore exactly when the answer is older than the export; the task names the log the group has then |
| ExportProtocol.ListedExactly | apps/netsuite/queue.py:84-97 | what a scheduler still works through is what its latest query found |
| ExportProtocol.ExportedIsClaimedExactly | apps/netsuite/tasks.py:477-490 | a task of an exported group is claimed exactly when the group's log is still the one the task names and was left queued, failed or fatal, which takes a sweep or a failure after the commit |
| ExportProtocol.ExportedIsResetExactly | apps/netsuite/queue.py:108-123 | a scheduler that still lists an exported group resets its log exactly when that was left failed or fatal, or was deleted, which takes the same |
| ExportProtocol.StaleQueryQueuesExported | apps/netsuite/queue.py:125-128 | a run without sweep or failure after which the queue holds a task of an exported group |
| ExportProtocol.LateFailureExportsTwice | apps/netsuite/exceptions.py:237-246 | a run with one late failure commits the export of a group twice |
| ExportProtocol.ExportedLacksLog | apps/netsuite/exceptions.py:237-246 | an exported group is without a complete log only after a sweep or a failure after the commit |
| ExportProtocol.LateFailureLosesCompleteLog | apps/netsuite/exceptions.py:237-246 | one failure after the commit leaves an exported group with a fatal log |
| ExportOutcome.QueryListsExactly | apps/netsuite/queue.py:84-87 | a query lists exactly the groups asked for that are not exported and whose log is absent, enqueued, failed or fatal |
| ExportOutcome.EnqueueWritesExactly | apps/netsuite/queue.py:108-128 | queueing creates a missing log under a new id, sets a failed or fatal one back to enqueued, leaves any other as it is, adds one task for it and touches no other group |
| ExportOutcome.ClaimTakesExactly | apps/netsuite/tasks.py:477-490 | a worker gets the log, then in progress, exactly when it exists under the id of the task and is enqueued, failed or fatal |
| ExportOutcome.CommitExportsExactly | apps/netsuite/tasks.py:524-542 | the log is complete, the group exported and the commit counted, all exactly when the log is the worker's or gone; otherwise only the worker is gone |
| ExportOutcome.FailureWritesExactly | apps/netsuite/exceptions.py:122-246 | the log ends failed for a known error and fatal for any other, when it is the worker's or gone; whether the group is exported does not change |
| ExportOutcome.SweepFailsExactly | apps/internal/tasks.py:26-54 | exactly the named logs that are enqueued or in progress end failed |
| ExportOutcome.ClearDeletesExactly | apps/workspaces/apis/export_settings/helpers.py:106-126 | exactly the named logs that are enqueued, failed or fatal are deleted |
| ExportOutcome.HistoryIsTally | apps/netsuite/tasks.py:517-542 | over any run the counters of a group are the numbers of steps that committed it, failed after its commit, or swept its log |
| ExportOutcome.ExportsAreCounted | apps/netsuite/tasks.py:517-542 | in any run a group is exported exactly when a step committed it, and committing steps are at most one more than sweeping and late failing ones |
| ExportPosts.ActionsRefineTheProtocol | apps/netsuite/tasks.py:517-542 | with the posts left out, every run of actions is a run of the protocol, so that all its results hold |
| ExportPosts.ActionsKeepBalance | apps/netsuite/tasks.py:517-542 | in every reachable state each post of a group is committed, of a worker still between post and commit, or lost |
| ExportPosts.PostsPerLog | apps/netsuite/tasks.py:517-542 | a group is posted to NetSuite at most once more often than its logs were swept, failed after a commit, or failed between post and commit |
| ExportPosts.PostedOnceAndForEachLoss | apps/netsuite/tasks.py:517-542 | an exported group without sweep or late failure was posted exactly once and again for every failure between post and commit |
| ExportPosts.LostPostPostsTwice | apps/netsuite/tasks.py:517-542 | a run with one such failure posts a group twice and commits it once |
| ExportTables.Tables.Ask | apps/netsuite/queue.py:84-87 | the query answers exactly the groups that are not exported and whose log is absent, enqueued, failed or fatal, and changes nothing else |
| ExportTables.Tables.EnqueueLog | apps/netsuite/queue.py:108-128 | a missing log is created under the next id, a failed or fatal one enqueued again, any other left; one task for it is added and no other group touched |
| ExportTables.EachGetsATask | apps/netsuite/queue.py:125-131 | every listed group gets one task each time it is queued, for the log it has, whatever that says |
| ExportTables.Tables.Schedule | apps/netsuite/queue.py:97-128 | the loop queues the groups that are not skipped, one step per log, and chains exactly those |
| ExportTables.Tables.ClaimLog | apps/netsuite/tasks.py:477-490 | claims, and sets in progress, exactly a log that still exists under the id of the task and is enqueued, failed or fatal; the task leaves the queue unless the broker keeps it |
| ExportTables.Tables.CommitExport | apps/netsuite/tasks.py:524-542 | the export, the completed log and exported_at are stored together; when the log was deleted and the group has another one, logs, exports and commits are as before and the worker is gone; the bounds of the protocol are kept |
| ExportTables.Tables.HandleException | apps/netsuite/exceptions.py:122-246 | the worker is gone and nothing becomes or stops being exported; a log it can save, also a completed or deleted one, is its own again and free for the next claim, any other stays; a late failure is counted exactly for the saved log of a committed export; no other group changes; the bounds of the protocol are kept |
| ExportTables.Tables.ReExportStuckExports | apps/internal/tasks.py:26-54 | updating row by row, exactly the stale logs that are enqueued or in progress fail and count one sweep |
| ExportTables.Tables.ClearUntakenLogs | apps/workspaces/apis/export_settings/helpers.py:106-126 | deleting logs after a change of the export type deletes exactly the named ones that are enqueued, failed or fatal |
| Tax.RoundIsNearest | apps/netsuite/connector.py:1535-1536 | rounding gives a nearest cent |
| Tax.TieGoesToEven | apps/netsuite/connector.py:1535-1536 | of two nearest cents rounding gives the even one |
| Tax.HandleTaxedLineItems | apps/netsuite/connector.py:1519-1595 | the copies of the base line, rewritten field by field, are the specified lines for all four export modules |
| Tax.HandlingConserves | apps/netsuite/connector.py:1519-1595 | nets plus tax make up the amount, in both branches |
| Tax.TaxGoesWithItsCode | apps/netsuite/connector.py:1543-1593 | the taxed line has the item's code and the tax, the other one the default code and no tax; account and entity are those of the base line |
| Tax.HandledCarry | apps/netsuite/connector.py:1538-1593 | the numbers on the lines: a whole one carries amount minus tax; of a split the first carries the net the tax belongs to at the rate, to the nearest cent, or nothing at rate zero, and the second the rest; in debit and gross on a journal entry, in amount elsewhere |
| Tax.JournalGrossConserves | apps/netsuite/connector.py:1553-1591 | on a journal entry each line's gross is its debit plus its tax, and the grosses make up the amount |
| Tax.SplitTaxIsExact | apps/netsuite/connector.py:1538-1573 | a split line carries its tax to within half the rate |
| Tax.WholeTaxIsCloseExactly | apps/netsuite/connector.py:1538-1595 | with balancing on, a line left whole carries its tax to within (100 + r)/200 cent exactly when the tax is not negative |
| Tax.NegativeTaxIsLeftWhole | apps/netsuite/connector.py:1538-1538 | a charge with a negative tax that is left whole |
| Tax.CloseTaxIsNotSplit | apps/netsuite/connector.py:1538-1538 | a tax strictly within the bound is never split |
| Tax.RefundIsSplitExactly | apps/netsuite/connector.py:1538-1538 | a refund is split unless both its tax and its expected tax are zero |
| Journal.ConstructDebitLines | apps/netsuite/connector.py:2383-2477 | the debit lines, with a failure for a tax item without a rate |
| Journal.ConstructCreditLines | apps/netsuite/connector.py:2392-2474 | the itemised credit lines |
| Journal.SplitOfJoin | apps/netsuite/connector.py:2491-2499 | joining account and entity and splitting again gives the pair back exactly for separable ids |
| Journal.JoinOfSplit | apps/netsuite/connector.py:2491-2499 | an id that splits is the join of its parts |
| Journal.JoinCollides | apps/netsuite/connector.py:2491-2499 | two pairs with one id |
| Journal.GatherTotals | apps/netsuite/connector.py:2486-2496 | the dictionary holds the distinct ids in first-seen order with their totals |
| Journal.ConstructSingleCreditLines | apps/netsuite/connector.py:2480-2559 | one line per id, or a failure when an id does not split in two |
| Journal.SingleRefinesItemised | apps/netsuite/connector.py:2480-2559 | one line per distinct account and entity in first-seen order, crediting what the itemised lines credit to that pair |
| Journal.SingleRefinesOnlySeparable | apps/netsuite/connector.py:2480-2559 | and only when all ids are separable |
| Journal.ConstructJournalEntry | apps/netsuite/connector.py:2561-2584 | credits in the configured form, then debits |
| Journal.JournalEntryBalances | apps/netsuite/connector.py:2561-2584 | total credit equals total debit plus total tax, over any mix of lines and both credit forms |
| JournalAccounts.EntryHitsTheAccounts | apps/netsuite/connector.py:2395-2399 | over any items, each account and entity is debited, taxes included, with the amounts of the items whose account it is, and credited with those of the items paid from it; with single lines when the ids can be split back |
| JournalAccounts.EntryDebitsTheAccounts | apps/netsuite/connector.py:2383-2477 | the debits of any entry that is built are those, in both credit forms |
| JournalAccounts.EntryHoldsTheItems | apps/netsuite/connector.py:2561-2584 | the credit lines come first, then the lines of each item in order: one without a code for an untaxed item, and for a taxed one a line with its code and its tax |
| JournalAccounts.DebitFailsExactly | apps/netsuite/connector.py:2401-2413 | the debit side fails exactly when the tax item of a taxed line has no stored rate |
| IdSwap.TempIdsDiffer | apps/netsuite/connector.py:572-577 | temporary ids of different positions differ |
| IdSwap.WrittenIsDistinct | apps/netsuite/connector.py:581-589 | ids stay distinct after every row write that the constraint admits |
| IdSwap.TwoPhasesSucceedExactly | apps/netsuite/connector.py:581-589 | for any permutation or cycle and any order of rows the two phases succeed exactly when the final ids are distinct, and end there |
| IdSwap.DirectSwapFails | apps/netsuite/connector.py:537-540 | without temporary ids a swap of two ids violates the constraint |
| IdSwap.UpdateReachesTargetExactly | apps/netsuite/connector.py:536-589 | each matched record ends with the latest incoming id of its name and every other record is unchanged, exactly when that table has distinct ids; otherwise the update is rolled back |
| IdSwap.TargetIsDistinctExactly | apps/netsuite/connector.py:536-589 | that is, when the new ids are distinct and no record outside the update holds one |
| IdSwap.UpdateIsIdempotent | apps/netsuite/connector.py:536-589 | the same records again change nothing |
| IdSwap.UpdateExactly | apps/netsuite/connector.py:536-589 | the first row of the kind for each value that some record brings ends with the id of the last such record, and nothing else changes; the update is rolled back exactly when two rows of one kind and display would end with one id |
| IdSwap.ValueToAttributeMap | apps/netsuite/connector.py:545-558 | names in first-seen order, the last id of each |
| IdSwap.DestinationAttributes.BulkUpdate | apps/netsuite/connector.py:582-582 | writes row by row up to the first violation |
| IdSwap.DestinationAttributes.UpdateInTwoPhases | apps/netsuite/connector.py:581-589 | both updates, or neither |
| IdSwap.DestinationAttributes.ChangedAttributes | apps/netsuite/connector.py:560-567 | the first record of each name when its id differs |
| IdSwap.DestinationAttributes.UpdateDestinationAttributes | apps/netsuite/connector.py:536-589 | the whole update |
| Text.ParseOfDigits | apps/netsuite/tasks.py:1330-1330 | reading the printed form of a number gives the number back |
| Text.SplitJoins | apps/netsuite/tasks.py:1330-1330 | the pieces of a split are free of the separator and joined by it make up the text |
| PaymentIds.PickedExactly | apps/netsuite/tasks.py:1246-1330 | the third piece of a payment's id is the document's own row id for an e-mail without hyphen, and otherwise the number, if any, after the first hyphen of the e-mail |
| PaymentIds.PicksItselfExactly | apps/netsuite/tasks.py:1246-1330 | the id leads back to its document exactly when the e-mail has no hyphen or that number is the own row id |
| PaymentIds.OneHyphenPicksNone | apps/netsuite/tasks.py:1330-1330 | an e-mail with one hyphen that ends in neither a digit nor a space names no row |
| PaymentIds.HyphenPicksNone | apps/netsuite/models.py:478-478 | such an e-mail |
| PaymentIds.HyphenPicksAnother | apps/netsuite/models.py:478-478 | an e-mail by which document 34 names document 5 |
| Payments.BucketsPartition | apps/netsuite/tasks.py:1219-1264 | each eligible document is a line of exactly one bucket, once, that of its entity; any other document is in none |
| Payments.CommitSyncsExactly | apps/netsuite/tasks.py:1299-1312 | a committed payment marks exactly the documents of its lines |
| Payments.PayRunKeepsInv | apps/netsuite/tasks.py:1369-1424 | a run, also one that ends early, keeps paid groups synced and paid once |
| Payments.EachGroupIsPaidOnce | apps/netsuite/tasks.py:1369-1424 | over any sequence of runs, some of which end early, each group is a line of at most one payment, once |
| Payments.PassRaisesExactly | apps/netsuite/tasks.py:1222-1337 | a pass over the bills or the reports raises exactly when a listed document gets no answer from Fyle or has no complete log, the id of a late bucket names no row of the table, or a bucket meets a SOAP fault while several errors have no group |
| Payments.IncompleteLogBlocks | apps/netsuite/tasks.py:1225-1226 | a listed open bill without a complete log ends the run before anything is paid |
| Payments.IncompleteReportBlocks | apps/netsuite/tasks.py:1225-1226 | such a report ends it after the bills |
| Payments.PassRetiresExactly | apps/netsuite/tasks.py:1329-1337 | a pass that does not raise retires exactly the rows that the ids of its late buckets name |
| Payments.LateBucketPicksItsOwn | apps/netsuite/tasks.py:1246-1337 | a late bucket names its own first document exactly under the condition on the e-mail, and does not stop the run without a hyphen |
| Payments.HyphenFreePassCompletes | apps/netsuite/tasks.py:1388-1416 | over documents whose e-mails have no hyphen a pass raises exactly for a document it cannot gather or an ambiguous fault, never for a late check |
| Payments.StoppedPassLeavesRest | apps/netsuite/tasks.py:1392-1424 | a bucket that stops a pass, by a late check or a fault, and those behind it stay unsynced and in no payment |
| Payments.FirstBucketBlocks | apps/netsuite/tasks.py:1388-1424 | a run whose first bucket of bills stops it changes nothing, for reports neither |
| Payments.StopRepeats | apps/netsuite/tasks.py:1388-1424 | the first bucket that stops a pass stops its repetition, unless a late bucket before it named a document of its entity |
| PaymentOutcome.StopsExactly | apps/netsuite/tasks.py:1322-1337 | a bucket ends the pass exactly when it has a due document and is late with an id that picks no row of its table, or meets a fault while two or more errors have no group |
| PaymentOutcome.BucketsInOrder | apps/netsuite/tasks.py:1219-1264 | buckets are paid in the order in which the query lists their first due documents |
| PaymentOutcome.PassMarksExactly | apps/netsuite/tasks.py:1388-1416 | a pass marks a document synced and paid on NetSuite exactly when it was or it is an open, listed, payable document of an entity that is answered with acceptance and behind no bucket that ends the pass |
| PaymentOutcome.PassRecordsExactly | apps/netsuite/tasks.py:1388-1416 | and adds exactly one payment for each such entity, with the groups of its due documents |
| PaymentOutcome.PaidGroupIsRecorded | apps/netsuite/tasks.py:1276-1312 | the group of a document paid by a pass is in a payment of this pass and in none before |
| PaymentOutcome.RunMarksExactly | apps/netsuite/tasks.py:1369-1424 | over a run: the bills, then the reports unless the bills raised |
| Payments.PaymentStore.CreatePaymentObjects | apps/netsuite/tasks.py:1219-1264 | entities in first-seen order with the lines of each and the id of the first line, or an exception exactly when a document gets no answer or has no complete log |
| Payments.PaymentStore.ProcessVendorPayment | apps/netsuite/tasks.py:1276-1319 | the transaction of one payment |
| Payments.PaymentStore.SettleBucket | apps/netsuite/tasks.py:1392-1400 | raises exactly for a late check whose id names no row and for a fault with two or more errors without a group; an accepted payment is added with the groups of its lines and marks exactly their documents synced and paid; no other answer adds a payment or marks a document; only the row a late check names is retired; a payable bucket leaves the books in order |
| Payments.PaymentStore.PayTable | apps/netsuite/tasks.py:1388-1416 | the documents are gathered, then the buckets of one table are settled in turn, up to what raises |
| Payments.PaymentStore.RunCreateVendorPayment | apps/netsuite/tasks.py:1379-1424 | the bills, then the reports, up to what raises; paid groups stay synced and paid once |
| Throttle.ValidateForSkippingPayment | apps/netsuite/tasks.py:1322-1351 | the payment goes on exactly when it has no log, or is at most two months old, idle for a week within the first month and for a month between one and two; a late check retires the row the id names, or raises when it names none |
| Throttle.AttemptsAreBounded | apps/netsuite/tasks.py:1322-1351 | a payment that keeps failing is attempted at most ceil(month / week) + 2 times |
| Throttle.NextCheckAttemptsExactly | apps/netsuite/tasks.py:1322-1351 | after any checks the next one attempts the payment exactly when none was made, or it is at most two months after the first attempt, the last one a week ago or more within the first month and a month ago or more between one and two |
| Throttle.BoundIsReached | apps/netsuite/tasks.py:1322-1351 | a schedule with that many attempts, for every month and week |
| Throttle.LateCheckRetires | apps/netsuite/tasks.py:1329-1337 | from a check on that is later than two months after the first the payment is never attempted again; the document is retired exactly when its id leads back to it |
| MarkPaid.CallsBounded | apps/netsuite/tasks.py:1650-1682 | at most retry_num + 1 calls for any platform |
| MarkPaid.MarkExit | apps/netsuite/tasks.py:1650-1682 | the payload names exactly the reports in the set; on exit each submitted report is marked or left, never both unless the last call was accepted, and some are left only with the retries used up |
| MarkPaid.FaithfulNeverCrashes | apps/netsuite/tasks.py:1661-1669 | a platform that complains only about reports it was sent never causes a KeyError |
| MarkPaid.CrashesExactly | apps/netsuite/tasks.py:1656-1674 | for any payload, retries and platform the run ends with an exception exactly when one of the calls it makes is answered without a body or with a final complaint about a report no longer in the set |
| MarkPaid.CallNamesTheSet | apps/netsuite/tasks.py:1667-1674 | every call of a run names exactly the reports in the set |
| MarkPaid.CallsExactly | apps/netsuite/tasks.py:1650-1674 | a run makes its k-th call exactly when there is one and k retries were allowed |
| MarkPaid.NextCallExactly | apps/netsuite/tasks.py:1661-1674 | there is a next call exactly when this one is rejected, its final complaints are about reports of the set, and some report has none; it sends the reports without one |
| MarkPaid.MarkedExactly | apps/netsuite/tasks.py:1650-1682 | a run marks a report exactly when one of its calls is accepted for it or complains finally about it |
| MarkPaid.CountsDecide | apps/netsuite/tasks.py:1629-1634 | equal counts mean that all reimbursable expenses of the report are paid |
| MarkPaid.MarkingSettles | apps/netsuite/tasks.py:1618-1682 | a run divides exactly the reports that are due into marked and left |
| MarkPaid.Reimbursements.CollectReports | apps/netsuite/tasks.py:1623-1638 | submits exactly the reports whose reimbursable expenses are all paid on NetSuite |
| MarkPaid.Reimbursements.MarkFinal | apps/netsuite/tasks.py:1661-1665 | the reports of final complaints are marked in the own table |
| MarkPaid.Reimbursements.RemoveKeys | apps/netsuite/tasks.py:1667-1669 | final reports leave payload and set, in any order |
| MarkPaid.Reimbursements.MarkPaidOnFyle | apps/netsuite/tasks.py:1650-1682 | the recursion over the retries; exactly the expenses of marked reports are paid_on_fyle |
| MarkPaid.Reimbursements.RunProcessReimbursements | apps/netsuite/tasks.py:1618-1648 | nothing is submitted exactly when every personal expense not paid in Fyle has one in its report that is not paid on NetSuite; otherwise the due reports are divided into marked and left, exactly the expenses of marked ones become paid_on_fyle, and unless the run ends with an exception all reimbursable expenses of these reports were paid on NetSuite |
| WorkerQueue.RunConserves | workers/worker.py:35-78 | the deliveries a queue can still cause and those used up add to a constant, in any order of delivery, for every lineage and in total |
| WorkerQueue.FreshQueueDrains | workers/worker.py:35-78 | n fresh messages are drained by at most 2n deliveries |
| WorkerQueue.AllFailuresTakeTwice | workers/worker.py:68-78 | and by exactly 2n when every delivery fails |
| WorkerQueue.EachDeliverySettles | workers/worker.py:35-78 | each delivery is acknowledged or rejected once |
| WorkerQueue.LineageHandledTwice | workers/worker.py:59-78 | a message and its republication are handled at most twice |
| WorkerQueue.FailedEventsAreRejections | workers/worker.py:59-66 | failed events are the failed deliveries, one each, with the raised retry count |
| WorkerQueue.Worker.ProcessMessage | workers/worker.py:35-78 | one more delivery is settled; a failed fresh message is recorded and comes back once at the end of the queue under its lineage with one more retry, a failed retry is recorded only; what every lineage can still cause and has used adds up as before; failed events stay the rejected deliveries |

## Left out

- HTTP, SOAP, OAuth, RabbitMQ and django-q transport, e-mail, logging, views and serializers: wiring; results that matter are parameters.
- Attachments, employee and vendor creation, and the mapping lookups that fill export lines: many independent branches without a shared invariant.
- The translation of expense filters to queries: the filter is any predicate on the imported columns.
- Custom fields in `_group_expenses`: the key of a group is taken over the resolved fields; that the list is changed while it is walked, which can pass over adjacent custom fields, is not modelled.
- `skip_update` of an import: claim number, report title and the three dates keep their stored values then; the model overwrites every imported column.
- The description, employee name and last spent date of a created group, and the counters of last exports.
- Floating point: amounts and taxes are whole cents, and rounding is exact, with ties to the even cent; the other results on tax use only that rounding gives a nearest cent.
- `rate` and `foreignAmount` of split lines on bills and expense reports; both copies inherit them from the base line.
- Several workspaces: every table is that of one workspace; only the documents of `Payments` may be those of others, which no query of the run lists.
- The scheduled retry of a blocked fund source change, and organisation setting updates.
- `run_sync_schedule`: it starts an import and an export when no log is active; both are modelled, the gate is not.
- The stale-record loop of `get_custom_record_attributes`.
- The end of `re_export_stuck_exports`, which moves schedules forward, and which of the stuck logs are old enough.
- ExportProtocol.WorkersPerLog: a database failure inside the claiming transaction, which the handler would answer by writing FATAL without a claim, is not a step; nor is re-running the skip rule, which deletes logs whatever their status and is part of the ledger.
- ExportProtocol.CommitsPerLog: full-row saves of a log from a copy read earlier are modelled for the status only, so the stored re-attempt counter plays no part; sweeps are counted in the model itself.
- ExportProtocol.QueuedExactly: a scheduler hands its tasks over together at the end of its loop, in order; the model adds them one by one, and a worker may take any task, also one delivered again.
- LedgerRuns.ClearKeepsInv: error rows have no type and no resolved flag, so the restriction of the clean-up to unresolved mapping errors is not modelled.
- LedgerRuns.CategoryChangeMovesTheGroup: for the same reason the error the query finds is a parameter, as is whether the new category is mapped.
- Throttle.AttemptsAreBounded: a month is a fixed span, and the payment keeps its unique id over all checks.
- Throttle.LateCheckRetires: only the payment's own checks are followed; that the check of another payment retires the document is part of `Payments`.
- PaymentIds.PickedExactly: `int` also reads digits and spaces outside ASCII; the model has ASCII only.
- Payments.EachGroupIsPaidOnce: runs do not overlap, and a group has one exported document; the unique columns of vendor payments, which would stop a second payment of overlapping runs, are not needed and not modelled.
- Payments.PassRaisesExactly: a failure while the connections are set up counts as Fyle not answering for the documents; a database failure inside the handler of a failed payment is not a step.
- ExportPosts.PostsPerLog: a post counts when NetSuite took the document; whether NetSuite itself refuses a second one is not modelled.
- Payments.BucketsPartition: the refresh of paid_on_fyle while a document's reimbursement is checked is not modelled; eligibility is a set.
- Journal.SingleRefinesItemised: a missing entity would be joined as the text of a null; the column does not allow one.
