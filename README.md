# Deadline notifier — a verified model of its rules

The deadline notifier keeps Google Sheets ledgers for "guaranteed rank"
contracts on Naver Place. Every day it crawls each contract's keyword rank,
records the result in a snapshot log sheet, and writes the rank into the
first free day-cell of the contract's 25-day ledger row. Failed crawls
are recovered later, for a given date. It also serves several other
views: internal-task and weekly workload summaries read from the deadline
checking sheet, a worklog cache, a workload cache, a guarantee item store,
users and roles, a bounded scheduler log, and analytics that join snapshots
with the mix of tasks to estimate which recipe of tasks moves the rank.

This project models those rules in Dafny. Each spreadsheet read is an input
(`seq<seq<string>>` or a list of records), each write is a returned
list of cell writes or a new sheet, and the current time is a parameter.
The model is split into one module per source file:

- `Ledger`, `RankUpdate`: the daily write-back (`rank_update_service.py`).
- `Recovery`, `RecoveryLedger`: recovery of failed crawls and the
  selective write-back (`recovery_service.py`).
- `SnapshotLog`: the keyed upsert log and its history query
  (`rank_snapshot_manager.py`).
- `SheetClient`, `SheetGrouping`: header detection, cell normalisation and
  the grouping of deadline rows into messages (`sheet_client.py`).
- `Guarantee`: the guarantee item store (`guarantee_manager.py`).
- `Worklog`: the place-id extractor, the worklog queries and the row
  normalisation (`worklog_cache.py`).
- `Workload`: the workload cache (`workload_cache.py`).
- `Training`, `RecipeAnalyzer`: the task-set hash, the day-N lookup and
  the recipe statistics (`training_dataset_builder.py`,
  `recipe_analyzer.py`).
- `InternalManager`, `InternalWeekly`: internal items and the weekly
  summary (`internal_manager.py`).
- `BusinessCategory`: category classification and grouped text
  (`business_category.py`).
- `Auth`: users and roles (`auth.py`).
- `SchedulerLog`: the bounded job log (`scheduler_logs.py`).
- `NaverDirectCrawler`: proxy rotation, score parsing and batch matching
  (`naver_direct_crawler.py`).
- `App`: day parsing and message assembly on the front page (`app.py`).
- `Common`, `Dicts`, `Sorting`, `Dates`: the Python built-ins these rules
  rely on, each written out. They cover `str.strip`, ASCII `lower`,
  `split`/`join`, `int()`, the two regular-expression extractors,
  insertion-ordered dictionaries, the stable `sorted`, and ISO and
  `"%y. %m. %d"` dates.

Stateful parts are classes whose methods change their fields, each with a
frame. Examples are `Auth.AuthManager`, `Guarantee.GuaranteeManager`,
`SchedulerLog.SchedulerLogManager`, `SnapshotLog.SnapshotSheet`,
`Worklog.WorklogCache`, `Workload.WorkloadCache`,
`NaverDirectCrawler.ProxyPool` and `Training.TrainingDatasetBuilder`. Loops
in the source are methods with loop invariants. Each of them is proved
against a specification function, and the source's promises are proved
about that function as lemmas.

## Model

| member | source | states |
|---|---|---|
| Ledger.IndexByDomain | rank_update_service.py:78-92 | a place id or a name-and-keyword key (joined by a vertical bar) is indexed iff some rank record yields it |
| Ledger.IndexByLast | rank_update_service.py:78-92 | an indexed key maps to the last record that yields it |
| Ledger.BuildRankIndexes | rank_update_service.py:75-92 | the loop builds both indexes |
| Ledger.FirstIndex | rank_update_service.py:158-160 | a found day-one column is a column of the header row |
| Ledger.FirstDayOne | rank_update_service.py:158-160 | the day-one column found is a header position |
| Ledger.ColumnsDomain | rank_update_service.py:139-153 | a column role is mapped iff some header names it |
| Ledger.ColumnsLast | rank_update_service.py:139-153 | a mapped role points at the last header that names it |
| Ledger.FirstIndexSpec | rank_update_service.py:158-160 | the day ledger starts at the first header reading `1` or `1일`, and none is found only when no header does |
| Ledger.MapHeaders | rank_update_service.py:136-171 | the header loop builds the column map and the day start, 17 when no day-one header exists |
| Ledger.MissingColumns | rank_update_service.py:163-165 | nothing is missing iff business name, status, product and guarantee rank are all mapped |
| Ledger.GuaranteeOf | rank_update_service.py:215-220 | the guarantee is the number its digits spell, and none exactly when the cell has no digit |
| Ledger.Lookup | rank_update_service.py:226-240 | a matched record comes from the URL's place id, else from the business name with the main keyword, both present |
| Ledger.AssessFields | rank_update_service.py:198-259 | a row is eligible only with a valid status, a place product, a positive guarantee and a rank within it |
| Ledger.WriteText | rank_update_service.py:293 | the written cell starts with the date and ends with `등` |
| Ledger.SheetDateOk | rank_update_service.py:176 | the `%y. %m. %d` text starts with a digit, so stripping keeps it |
| Ledger.WriteTextReadsBack | rank_update_service.py:271-279 | a written cell reads back unchanged after strip and contains the date, so a later scan meets it |
| Ledger.SetCell | rank_update_service.py:305-309 | writing a cell changes that cell only, extending the row with empty cells when needed |
| Ledger.CellAfterSet | rank_update_service.py:305-309 | reading the written cell gives the stripped value, any other cell what it was |
| Ledger.SetCellTwice | rank_update_service.py:305-309 | writing the same value twice is writing it once |
| Ledger.AssessAfterSet | rank_update_service.py:192-196 | a write outside the mapped columns does not change how the row is judged |
| Ledger.ApplyWrites | rank_update_service.py:303-309 | a batch of writes keeps the number of rows |
| Ledger.Window | rank_update_service.py:266-271 | the day ledger read from a row always has 25 cells |
| Ledger.WindowCell | rank_update_service.py:267-271 | the ledger's `j`-th cell is the row's cell at day start plus `j`, empty past the row's end |
| Ledger.WindowAfterSet | rank_update_service.py:266-271 | a write inside the ledger changes that ledger cell only |
| Ledger.WindowOutside | rank_update_service.py:266-271 | a write outside the ledger leaves it as it was |
| Ledger.AfterRows | rank_update_service.py:303-309 | applying the batch to the data rows keeps their number |
| Ledger.WritesOfTargets | rank_update_service.py:187-299 | every write addresses a data row, 1-based, at the column chosen for that row |
| Ledger.WritesOfIncreasing | rank_update_service.py:188-299 | the batch holds at most one write per row, in row order |
| Ledger.WritesOfComplete | rank_update_service.py:188-299 | every row for which a cell is chosen gets its write |
| Ledger.ApplyWritesOf | rank_update_service.py:303-309 | applying the batch leaves the two header rows and rewrites each data row as chosen |
| Ledger.AfterRowsStable | rank_update_service.py:303-309 | when each rewritten row chooses the same write again, applying the batch twice is applying it once |
| Ledger.WritesOfAgree | rank_update_service.py:188-299 | two rules that agree on every row produce the same batch |
| Ledger.CountRows | rank_update_service.py:181-300 | the row loop returns `TallyOf`, the writes and counters whose properties `Ledger.TallyOfSpec` states |
| Ledger.RewriteStable | rank_update_service.py:261-299 | a row that chooses the same write, or none, after being written is left alone the second time |
| Ledger.TallyOfSpec | rank_update_service.py:181-318 | one write per matched row, writes exactly the chosen ones, and the counters never exceed the rows |
| RankUpdate.ScanFrom | rank_update_service.py:266-281 | an empty cell found lies inside the scanned ledger |
| RankUpdate.ScanFromSpec | rank_update_service.py:266-281 | the scan stops at the first cell that is empty or holds today's date, and reports full only when every cell is filled with other dates |
| RankUpdate.ScanDailyCells | rank_update_service.py:262-281 | the scan loop reports already-recorded exactly when `DailyScan` meets today's date first, and returns the first empty column otherwise, or -1 when there is none |
| RankUpdate.DecideFrom | rank_update_service.py:284-299 | no row is ever reported as already recorded apart from the rank-skip counter |
| RankUpdate.Decide | rank_update_service.py:198-300 | the daily updater never uses the separate already-recorded outcome |
| RankUpdate.DecideSpec | rank_update_service.py:198-300 | a row is filter-skipped iff its status is invalid, rank-skipped iff above its guarantee or already recorded today, and written iff eligible and not yet recorded; the write goes to the first empty ledger cell, or to the overflow cell after 25 filled ones |
| RankUpdate.SheetUpdateSpec | rank_update_service.py:120-318 | a sheet fails iff it lacks the header row or a required column; otherwise matched equals updated equals the number of writes, the counters never exceed the data rows, and the writes are those each row decides |
| RankUpdate.SheetWriteTargets | rank_update_service.py:188-299 | every write lands on a data row that passed every filter, in its ledger or overflow column, with today's date and its rank |
| RankUpdate.DecideRow | rank_update_service.py:198-300 | the loop body's outcome for a row is `Decide`, characterised by `RankUpdate.DecideSpec` |
| RankUpdate.DecideFromCases | rank_update_service.py:250-299 | a filter miss is a filter skip, a rank over the guarantee or a scan that meets today a rank skip, and an eligible row otherwise goes to the empty cell found or the overflow cell |
| RankUpdate.PlaceDaily | rank_update_service.py:261-299 | an eligible row is placed as the scan dictates |
| RankUpdate.UpdateSheet | rank_update_service.py:112-326 | the sheet update returns `SheetUpdate`, whose error cases, counters and writes `RankUpdate.SheetUpdateSpec` states |
| RankUpdate.ScanAfterFill | rank_update_service.py:273-281 | once the empty cell is filled with today's text, the scan meets today's date |
| RankUpdate.ScanAfterWrite | rank_update_service.py:266-281 | after today's write into a row, its ledger scan reports today as recorded |
| RankUpdate.DecideFromAgain | rank_update_service.py:284-299 | deciding again after the write either skips or chooses the same write |
| RankUpdate.DecideAfterWrite | rank_update_service.py:198-300 | a written row, when decided again the same day, is skipped or gets the same write |
| RankUpdate.RowStable | rank_update_service.py:188-299 | rewriting a row a second time on the same day leaves it unchanged |
| RankUpdate.UpdateIdempotent | rank_update_service.py:112-318 | running the update twice on the same day writes nothing new: the second batch leaves the sheet as the first left it |
| RankUpdate.UpdateAllSheets | rank_update_service.py:62-110 | both sheets are updated against the same two indexes and today's `%y. %m. %d` date |
| RankUpdate.FromSnapshots | rank_update_service.py:329-364 | no rank record today means no update; otherwise the total is the sum of both sheets' updated counts |
| Recovery.HeaderIndexes | recovery_service.py:86-88 | every header, and only a header, is indexed, at a position that holds it |
| Recovery.HeaderIndexesLast | recovery_service.py:86-88 | a repeated header is indexed at its last position |
| Recovery.LogDate | recovery_service.py:101-105 | the log date is a prefix of the execution time and holds no `T` |
| Recovery.LogDateOfTimestamp | recovery_service.py:102-103 | an ISO timestamp yields the date before its `T` |
| Recovery.FailureOf | recovery_service.py:94-131 | a kept log row is on or after the cutoff and counts failures or mentions a failure |
| Recovery.LaterStrict | recovery_service.py:138 | the newest-first date order is a strict order |
| Recovery.FailuresOk | recovery_service.py:92-135 | every collected failure is on or after the cutoff and is a failure |
| Recovery.SortedLatestFirst | recovery_service.py:138 | the sort keeps exactly the failures, newest date first, and is stable within a date |
| Recovery.FailedCrawlDatesSpec | recovery_service.py:59-141 | the result is a stable newest-first permutation of the failures in the log rows after the header, each on or after the cutoff |
| Recovery.GetFailedCrawlDates | recovery_service.py:59-145 | the loop returns `FailedCrawlDates`: empty when the tab is missing or has no data row, otherwise the newest-first failure list of `Recovery.FailedCrawlDatesSpec` |
| Recovery.Without | recovery_service.py:177 | a target is kept iff no snapshot has its date, and the list never grows |
| Recovery.DatesWithData | recovery_service.py:170-174 | the dates with data are exactly the non-empty dates of the history |
| Recovery.MissingDates | recovery_service.py:147-184 | no targets give none, an unreadable history gives all of them, otherwise a target is missing iff no record has its date |
| Recovery.WithoutKeepsOrder | recovery_service.py:177 | the missing dates keep the targets' order |
| Recovery.OfDate | recovery_service.py:222-225 | exactly the records of the target date are kept, each as often as before |
| Recovery.CrawlHistorical | recovery_service.py:190-244 | a failed crawl gives no data; a successful one only records of the target date |
| Recovery.CrawlHistoricalKeeps | recovery_service.py:220-225 | no record of the target date is lost |
| Recovery.ItemsOf | recovery_service.py:592-595 | the rank records handed to the sheet update are the crawl's records, in order |
| Recovery.Distinct | recovery_service.py:561 | the failed dates are the distinct dates of the failures |
| Recovery.DatesOf | recovery_service.py:561 | one date per failure, in order |
| Recovery.Recover | recovery_service.py:584-596 | every missing date is crawled again, in order |
| Recovery.RecoverCounts | recovery_service.py:584-596 | one sheet update per crawl with data, and the crawled total is the number of records crawled |
| Recovery.RecoverNoData | recovery_service.py:588 | when no crawl brings data, no sheet is touched |
| Recovery.RecoverFailedCrawls | recovery_service.py:535-618 | no failures iff the log has none, nothing crawled when every failed date already has data, and the failed dates are exactly the failures' dates |
| Recovery.RecoverFailedCrawlsSpec | recovery_service.py:572-614 | on completion each missing date, all of them failed dates without data, is crawled once in order, and the totals add up the crawls and the updates |
| Recovery.RecoverLoop | recovery_service.py:583-596 | the loop over missing dates returns `Recover`: one crawl per date in order, with the counts of `Recovery.RecoverCounts` |
| Recovery.RecoverFailedCrawlsLoop | recovery_service.py:535-618 | the imperative flow returns the report of `RecoverFailedCrawls`, with the statuses and totals `Recovery.RecoverFailedCrawlsSpec` states |
| Recovery.RecoverSpecificDate | recovery_service.py:620-673 | a failed crawl or no record of the date stops before any sheet is touched; otherwise the counts are those of the crawl and the selective update |
| RecoveryLedger.SelectiveFrom | recovery_service.py:465-482 | an empty cell reported is an empty cell of the ledger |
| RecoveryLedger.SelectiveFromSpec | recovery_service.py:465-482 | the scan reports the date recorded iff some filled cell from the start on holds it; otherwise it reports the first empty cell, and full only when no cell is empty |
| RecoveryLedger.SelectiveCellsSpec | recovery_service.py:462-492 | over a whole ledger: recorded iff any cell holds the date, the empty cell reported is the first one, full iff every cell is filled with other dates |
| RecoveryLedger.ScansAgree | recovery_service.py:465-482 | the recovery scan agrees with the daily scan except when the date sits in a cell after the first empty one |
| RecoveryLedger.LateDateWitness | recovery_service.py:465-482 | a ledger with an empty first cell and the date in the second: the daily scan targets the empty cell, the recovery scan sees the date |
| RecoveryLedger.ScanSelectiveCells | recovery_service.py:462-482 | over the row's 25-cell day window, the loop computes the recovery scan: the recorded flag, the first empty column, or -1 when every cell is filled |
| RecoveryLedger.ScanWindow | recovery_service.py:462-482 | the same loop over any 25 cells read from the row: the date is reported iff some filled cell holds it, and otherwise the first empty cell is the target, or -1 when all 25 are filled |
| RecoveryLedger.SelectiveFromScan | recovery_service.py:484-503 | the recovery updater never counts a filter skip |
| RecoveryLedger.Selective | recovery_service.py:407-503 | no row is ever counted as filter-skipped |
| RecoveryLedger.SelectiveSpec | recovery_service.py:407-503 | a row is already-recorded iff eligible with the date somewhere in its ledger, rank-skipped iff above its guarantee, and written iff eligible with no such date; the write goes to the first empty cell or the overflow cell |
| RecoveryLedger.OutcomesAgree | recovery_service.py:484-492 | with equal scans both updaters place the same write; when only the recovery scan finds the date, the daily one would write again |
| RecoveryLedger.SelectiveAgreesWithDaily | recovery_service.py:407-503 | on every row without the date past a gap the recovery updater chooses the daily updater's write, and on such a row it skips where the daily one writes |
| RecoveryLedger.SelectiveRow | recovery_service.py:407-503 | the loop body's outcome for a row is `Selective`, characterised by `RecoveryLedger.SelectiveSpec` |
| RecoveryLedger.PlaceSelective | recovery_service.py:461-503 | an eligible row is placed as the recovery scan dictates |
| RecoveryLedger.SelectiveUpdateSpec | recovery_service.py:343-521 | a sheet fails iff it lacks the header row or a required column; otherwise matched equals updated equals the writes, the counters never exceed the data rows, and the writes are those each row decides |
| RecoveryLedger.SelectiveWriteTargets | recovery_service.py:398-503 | every write lands on an eligible row whose ledger does not hold the date, in its ledger or overflow column |
| RecoveryLedger.SelectiveBatchIsDaily | recovery_service.py:398-503 | when no row has the date past a gap, the recovery batch is the daily batch |
| RecoveryLedger.UpdateSheetSelective | recovery_service.py:333-529 | the selective sheet update returns `SelectiveUpdate`, whose error cases, counters and writes `RecoveryLedger.SelectiveUpdateSpec` states |
| RecoveryLedger.SelectiveScanAfterWrite | recovery_service.py:465-482 | after the write the recovery scan sees the date or what it saw before |
| RecoveryLedger.SelectiveAgain | recovery_service.py:484-503 | deciding again after the write either skips as already recorded or chooses the same write |
| RecoveryLedger.SelectiveAfterFill | recovery_service.py:465-482 | once the first empty cell holds the date, the scan reports it recorded |
| RecoveryLedger.SelectiveAfterWrite | recovery_service.py:407-503 | a written row, when decided again for the same date, is skipped or gets the same write |
| RecoveryLedger.SelectiveRowStable | recovery_service.py:398-503 | rewriting a row a second time for the same date leaves it unchanged |
| RecoveryLedger.SelectiveIdempotent | recovery_service.py:333-521 | recovering the same date twice writes nothing new: the second batch leaves the sheet as the first left it |
| RecoveryLedger.SelectiveRunOf | recovery_service.py:250-331 | an unparsable target date is rejected; otherwise the totals are the sums over both sheets of updated and already-recorded rows |
| RecoveryLedger.SelectiveRunOfIso | recovery_service.py:269-313 | a valid ISO target date runs both sheets against the same indexes with its `%y. %m. %d` text |
| RecoveryLedger.UpdateSelective | recovery_service.py:250-331 | the run over both sheets returns `SelectiveRunOf`: rejected for an unparsable date, otherwise the summed totals of `RecoveryLedger.SelectiveRunOf` |
| RecoveryLedger.UpdateBoth | recovery_service.py:276-331 | for a parsed date, the two sheets are updated with the same rank indexes and the totals are the sums over both sheets, as `RecoveryLedger.SelectiveRunOf` states |
| SnapshotLog.KeyTextFields | rank_snapshot_manager.py:59-72 | the hashed text splits back into date, time slot, keyword and URL, so equal keys come from the same four fields whenever the hash is injective |
| SnapshotLog.KeyRowsPoint | rank_snapshot_manager.py:201-206 | every mapped key is non-empty and points at a data row, numbered from 2, that holds it |
| SnapshotLog.KeyRowsSpec | rank_snapshot_manager.py:201-206 | a key is mapped iff it is non-empty and some data row holds it |
| SnapshotLog.KeyRowsLast | rank_snapshot_manager.py:201-206 | a key held by several rows maps to the last of them |
| SnapshotLog.BuildKeyRowMap | rank_snapshot_manager.py:178-208 | an empty sheet gives no keys and no headers; otherwise the headers are row 1 and the map is that of the `unique_key` column, or column 0 without it |
| SnapshotLog.FillSpec | rank_snapshot_manager.py:257-280 | a record gets its key; place id, collection time and source are filled only when absent; no other field changes |
| SnapshotLog.PlanCounts | rank_snapshot_manager.py:249-299 | success is updated plus added, success plus failed is the number of records, and nothing fails iff every record has its four key fields |
| SnapshotLog.PrepareReady | rank_snapshot_manager.py:252-254 | a record is written iff date, time slot, keyword and URL are all non-empty |
| SnapshotLog.ApplyUpdates | rank_snapshot_manager.py:302-318 | overwriting rows keeps the row count |
| SnapshotLog.ApplyUpdatesElsewhere | rank_snapshot_manager.py:302-318 | a row no update targets is unchanged |
| SnapshotLog.Repaired | rank_snapshot_manager.py:159-163 | the repaired sheet starts with `unique_key`; it is the sheet itself when row 1 already did, and otherwise the sheet pushed down one row under SNAPSHOT_HEADERS |
| SnapshotLog.UpsertSpec | rank_snapshot_manager.py:225-333 | no records change nothing and count nothing; otherwise, on the sheet with its header row repaired, the counters add up, the sheet grows by the added rows, appended in order, and rows not overwritten stay as they were |
| SnapshotLog.PrepareKeyed | rank_snapshot_manager.py:283 | with a `unique_key` header each prepared row holds its key in that column |
| SnapshotLog.PlanKeys | rank_snapshot_manager.py:285-293 | every overwrite goes to the row already holding its key, and every new key is appended |
| SnapshotLog.ApplyKeyed | rank_snapshot_manager.py:302-318 | overwrites keep every mapped key in its row |
| SnapshotLog.KeyInMap | rank_snapshot_manager.py:201-206 | a data row's non-empty key is mapped |
| SnapshotLog.KeyRowsBelow | rank_snapshot_manager.py:201-206 | mapped keys are non-empty, sit in their rows and never point at the header row |
| SnapshotLog.AllUpdated | rank_snapshot_manager.py:285-289 | when every record is ready and already keyed, all are updates and nothing is appended |
| SnapshotLog.KeysKept | rank_snapshot_manager.py:302-324 | after overwriting and appending, the header stays, old keys stay mapped and every appended key is mapped |
| SnapshotLog.KeysAfterUpsert | rank_snapshot_manager.py:225-333 | after an upsert row 1 is the repaired header row, starting with `unique_key`, and the key of every complete record is in the sheet |
| SnapshotLog.Reupsert | rank_snapshot_manager.py:225-333 | on any sheet, upserting the same complete records again updates every one and adds no row |
| SnapshotLog.SnapshotSheet.constructor | rank_snapshot_manager.py:84-103 | the manager starts from the given worksheet values |
| SnapshotLog.SnapshotSheet.GetOrCreateWorksheet | rank_snapshot_manager.py:142-176 | the worksheet becomes `Repaired` of what it held: SNAPSHOT_HEADERS is inserted as row 1 unless row 1 starts with `unique_key` |
| SnapshotLog.SnapshotSheet.UpsertBulk | rank_snapshot_manager.py:225-333 | an empty batch touches nothing; otherwise the worksheet is repaired first, and the counts, the filled records and the new worksheet are those of `Upsert`, whose counters and row changes `SnapshotLog.UpsertSpec` states |
| SnapshotLog.ApplyBatch | rank_snapshot_manager.py:302-318 | the loop applies every overwrite |
| SnapshotLog.PrepareRecord | rank_snapshot_manager.py:250-283 | the loop body's entry for a record is `Prepare`: filled as `SnapshotLog.FillSpec` states and ready iff its four key fields are present |
| SnapshotLog.ClassifyRecords | rank_snapshot_manager.py:249-299 | the classification loop computes the plan |
| SnapshotLog.Zip | rank_snapshot_manager.py:429-432 | a history item holds only header fields |
| SnapshotLog.LaterStampStrict | rank_snapshot_manager.py:436 | the `(date, time_slot)` descending order is strict |
| SnapshotLog.SortedByStamp | rank_snapshot_manager.py:436 | sorting keeps every item, newest first, stable within equal stamps |
| SnapshotLog.KeptRows | rank_snapshot_manager.py:401-433 | an item is kept iff its row passes the date range, the cutoff, the client and keyword filters |
| SnapshotLog.HistorySpec | rank_snapshot_manager.py:358-438 | the history is a stable newest-first permutation of exactly the rows passing every filter |
| SnapshotLog.ScanHistory | rank_snapshot_manager.py:371-433 | the query loop returns `History`, the stable newest-first filtered rows of `SnapshotLog.HistorySpec` |
| SnapshotLog.SnapshotSheet.GetHistory | rank_snapshot_manager.py:358-438 | the worksheet is repaired as `get_or_create_worksheet` does, and the history of the repaired sheet is returned |
| SnapshotLog.TimeSlot | rank_snapshot_manager.py:459-461 | `09:00` iff before noon, else `15:00` |
| SnapshotLog.Take | rank_snapshot_manager.py:466 | the stored details are the first ten at most |
| SnapshotLog.LogRow | rank_snapshot_manager.py:470-478 | a log row has one cell per log header |
| SnapshotLog.FailedCountOfText | rank_snapshot_manager.py:474 | the written failure count reads back as itself, or 0 when negative |
| SnapshotLog.LogColumns | rank_snapshot_manager.py:470-478 | the log headers put each field where the reader looks for it |
| SnapshotLog.LogRowReadBack | rank_snapshot_manager.py:459-478 | a logged execution is read back by the recovery scan as a failure iff it is on or after the cutoff and failed, with its time slot, count, time and first ten details |
| SheetClient.Required | sheet_client.py:170-178 | the seven required columns, each with its configured header and its synonyms, in the fixed order |
| SheetClient.RemoveSpaces | sheet_client.py:115 | removing whitespace leaves no whitespace and never lengthens the text |
| SheetClient.RemoveSpacesUnchanged | sheet_client.py:115 | a text without whitespace is left as it is |
| SheetClient.LowerKeepsSpaces | sheet_client.py:115 | lowering keeps whitespace exactly where it was |
| SheetClient.CollapseSpacesSpec | sheet_client.py:114-115 | the normal form has no whitespace and no capital, and normalising twice is normalising once |
| SheetClient.CollapseIgnoresSpace | sheet_client.py:114-115 | a whitespace character anywhere does not change the normal form |
| SheetClient.RemoveSpacesAppend | sheet_client.py:115 | whitespace removal works piece by piece |
| SheetClient.NumberFromNone | sheet_client.py:124-126 | no number is found iff no digit follows |
| SheetClient.ParseIntMaybeNone | sheet_client.py:118-130 | no value iff the cell is missing or holds no digit |
| SheetClient.DigitRunAll | sheet_client.py:124 | a run of digits is read to its end |
| SheetClient.ParseIntMaybeOfString | sheet_client.py:118-130 | the text of any integer parses back to it, negative ones included |
| SheetClient.TruthyNormalised | sheet_client.py:133-137 | a missing cell is not truthy, and leading whitespace and letter case do not matter |
| SheetClient.MatchesCollapsed | sheet_client.py:140-148 | a header matches iff its normal form is that of the configured header or of one synonym, so headers with the same normal form match alike |
| SheetClient.InSynonymsSpec | sheet_client.py:145-147 | a normal form is a synonym iff some synonym normalises to it |
| SheetClient.FirstKeyLike | sheet_client.py:157-159 | the first key with that normal form, or none when no key has it |
| SheetClient.SynonymValueSpec | sheet_client.py:161-165 | no value iff no key normalises to a synonym; otherwise the value of such a key |
| SheetClient.GetValueFlexibleSpec | sheet_client.py:151-166 | no value iff no key matches; the exact configured key wins; otherwise the value of a matching key |
| SheetClient.StripAll | sheet_client.py:187 | each header is stripped, the count kept |
| SheetClient.Score | sheet_client.py:188-193 | each header counts at most once, so the score never exceeds the header count |
| SheetClient.BestOfSpec | sheet_client.py:183-197 | the chosen row has the highest score and is the first such row; with no rows the score stays -1 |
| SheetClient.HeaderRowSpec | sheet_client.py:169-204 | when no candidate scores, row 1 is used with the first row's headers; otherwise the first best-scoring candidate row |
| SheetClient.ScoreRow | sheet_client.py:188-193 | the scoring loop returns `Score`, the number of headers matching some required column, each counted once |
| SheetClient.MatchesSome | sheet_client.py:189-192 | the column loop for one header finds a match exactly when the header matches some required column |
| SheetClient.FindHeaderRow | sheet_client.py:169-204 | the scoring loop returns `HeaderRow`: the earliest best-scoring candidate, or row 1 when no candidate scores |
| SheetClient.RecordKeys | sheet_client.py:220-223 | a record's keys are the distinct stripped headers |
| SheetClient.RecordGet | sheet_client.py:220-223 | a key's value is the cell under its last header, empty past the row's end |
| SheetClient.IsBlankRowSpec | sheet_client.py:217 | a row is blank iff every cell strips to nothing |
| SheetClient.RecordsSpec | sheet_client.py:207-225 | the records are those of the non-blank rows after the header row |
| SheetClient.RecordsOfRows | sheet_client.py:216-224 | a record is built iff it comes from a non-blank data row |
| SheetClient.RecordFromRow | sheet_client.py:216-224 | every record comes from a non-blank data row |
| SheetClient.RowRecordKept | sheet_client.py:216-224 | every non-blank data row yields its record |
| SheetClient.BuildRecord | sheet_client.py:219-223 | the loop builds a row's record |
| SheetClient.BuildRecords | sheet_client.py:207-225 | the loop returns `Records`: one record per non-blank row after the header, each header mapped to its cell or "" |
| SheetClient.BlankRow | sheet_client.py:217-218 | the blank test holds exactly when every cell of the row strips to "" |
| SheetClient.Letters | sheet_client.py:315-321 | the column name is capital letters only, and empty only for 0 |
| SheetClient.ColLetter | sheet_client.py:315-321 | every column has a non-empty name |
| SheetClient.LettersRoundTrip | sheet_client.py:315-321 | reading a column name back as a base-26 numeral gives its number |
| SheetClient.LettersOfValue | sheet_client.py:315-321 | every string of capitals is the name of the column it denotes |
| SheetClient.ColLetterBijective | sheet_client.py:315-321 | each zero-based column index has exactly one name, `A` for 0 |
| SheetClient.ColLetterLoop | sheet_client.py:315-321 | the `divmod` loop computes the column name |
| SheetGrouping.DisplayTask | sheet_client.py:356-362 | on the misc tab the product name, if any, is the task; elsewhere the tab title joined to the product and stripped; else the tab title |
| SheetGrouping.EntryOf | sheet_client.py:341-364 | a row is kept iff it passes the mode's internal filter, is unchecked, has a selected remaining-days value and a business name; an internal-mode row without agency gets `내부 진행` |
| SheetGrouping.AddEntryAgencies | sheet_client.py:365 | filing a row adds its agency label once, after the existing ones |
| SheetGrouping.AddEntryDays | sheet_client.py:366 | filing a row adds its remaining-days value under its agency only |
| SheetGrouping.AddEntryTasks | sheet_client.py:367 | filing a row adds its task under its agency and day only |
| SheetGrouping.AddEntryNames | sheet_client.py:367-369 | filing a row adds its business name once, in its own list only |
| SheetGrouping.GroupAgencies | sheet_client.py:365 | the agencies are the distinct labels of the kept rows, in first-seen order |
| SheetGrouping.GroupDays | sheet_client.py:366 | an agency's days are the distinct days of its rows, in first-seen order |
| SheetGrouping.GroupTasks | sheet_client.py:367 | a day's tasks are the distinct tasks of its rows, in first-seen order |
| SheetGrouping.GroupNames | sheet_client.py:367-369 | a task's names are the distinct names of its rows, in first-seen order |
| SheetGrouping.NamesOfSpec | sheet_client.py:353 | every grouped name is non-empty and under a selected day |
| SheetGrouping.NameListsSpec | sheet_client.py:365-369 | each name list has no repeats and holds exactly the names of its rows, all non-empty under selected days |
| SheetGrouping.LegacyEntries | sheet_client.py:329-369 | the full-scan path keeps only selected rows |
| SheetGrouping.PositionSpec | sheet_client.py:297-311 | a column's position is the first matching header, none when no header matches |
| SheetGrouping.PositionSnoc | sheet_client.py:297-311 | a later header never replaces a position already found |
| SheetGrouping.PositionsOf | sheet_client.py:287-312 | one position per required column |
| SheetGrouping.Positions | sheet_client.py:287-312 | positions for all seven columns |
| SheetGrouping.ResolvePositions | sheet_client.py:287-312 | the loop resolves every column to its first matching header |
| SheetGrouping.Ranges | sheet_client.py:383-398 | one range per resolved column |
| SheetGrouping.KeyValues | sheet_client.py:410-420 | one value list per column key |
| SheetGrouping.KeyValuesAligned | sheet_client.py:409-420 | an unresolved column gets no values; a resolved one gets the batch result at the position of its own range |
| SheetGrouping.MaxLen | sheet_client.py:422-425 | the row count bounds every column's length |
| SheetGrouping.BatchEntries | sheet_client.py:427-464 | the batch path keeps only selected rows |
| SheetGrouping.NoDataNoRows | sheet_client.py:400-427 | a batch read that raised without fallback yields no rows |
| SheetGrouping.NoDataColumns | sheet_client.py:410-420 | with no batch data every column is empty |
| SheetGrouping.MaxLenEmpty | sheet_client.py:422-425 | empty columns give no rows |
| SheetGrouping.PathOf | sheet_client.py:371-407 | batch reading off means a full scan; no resolved column means a full scan or nothing, as the fallback says; a failed batch read means a full scan with the fallback, else no rows |
| SheetGrouping.SheetEntries | sheet_client.py:323-464 | every path keeps only selected rows |
| SheetGrouping.ConcatSelected | sheet_client.py:323 | rows gathered over all tabs stay selected |
| SheetGrouping.AllEntriesSelected | sheet_client.py:323-464 | every row filed from any tab is selected |
| SheetGrouping.FileTabs | sheet_client.py:323-464 | the loop over tabs files the rows of every tab in order |
| SheetGrouping.FetchGroupedByDate | sheet_client.py:269-466 | the nested agency, day, task and name dictionaries are those of all kept rows |
| SheetGrouping.NoticeOf | sheet_client.py:244-259 | a record is a notice iff unchecked, not internal, with a selected day and a business name; the agency defaults to `미지정 대행사` and the task is the tab title |
| SheetGrouping.AddNoticeAgencies | sheet_client.py:261 | filing a notice adds its agency once |
| SheetGrouping.AddNoticeNames | sheet_client.py:261-264 | filing a notice adds its name once, in its own list only |
| SheetGrouping.GroupNoticesAgencies | sheet_client.py:261 | the agencies are the distinct agencies of the notices, in first-seen order |
| SheetGrouping.GroupNoticesNames | sheet_client.py:261-264 | a task's names are the distinct names of its notices, in first-seen order |
| SheetGrouping.FileNotices | sheet_client.py:240-264 | the loop over tabs files every notice in order |
| SheetGrouping.FetchGroupedMessages | sheet_client.py:228-266 | the two-level grouping is that of all notices |
| SheetGrouping.ReasonAgrees | sheet_client.py:518-528 | the diagnosis finds no exclusion reason iff the older grouping takes the record |
| SheetGrouping.Classify | sheet_client.py:509-533 | every record is either matched or excluded |
| SheetGrouping.ClassifyMatched | sheet_client.py:509-533 | the matched records are exactly the grouping's notices, name for name |
| SheetGrouping.Prefix | sheet_client.py:538-539 | a sample is the first `limit` entries |
| SheetGrouping.TabReportOf | sheet_client.py:535-540 | matched plus excluded is every record, and both samples are at most `limit` long |
| SheetGrouping.DiagnoseSpec | sheet_client.py:494-541 | the report has one entry per distinct tab title, and a repeated title keeps the last tab's report |
| Guarantee.WithDefaultsSpec | guarantee_manager.py:62-67 | `setdefault` keeps every field the item already has and adds exactly the defaults it lacks |
| Guarantee.NewItemStamps | guarantee_manager.py:57-60 | a created item carries the generated id and the creation and update times |
| Guarantee.NewItemFields | guarantee_manager.py:62-67 | every other field of a created item is the caller's, else the default, and no field appears from nowhere |
| Guarantee.DefaultStatus | guarantee_manager.py:64 | a new item without a status starts as `세팅대기` |
| Guarantee.MergeSpec | guarantee_manager.py:122-128 | an update never changes `id` or `created_at`, takes every other given field, keeps the rest and stamps `updated_at` |
| Guarantee.IndexOfId | guarantee_manager.py:111-116 | the first item whose id matches, or none when no item has it |
| Guarantee.UpdatedById | guarantee_manager.py:118-132 | an update never changes the number of items |
| Guarantee.Where | guarantee_manager.py:86-107 | one filter stage only ever drops items |
| Guarantee.KeepAllWhere | guarantee_manager.py:86-107 | applying the first stage then the rest is applying all stages |
| Guarantee.PipelineKeepAll | guarantee_manager.py:83-109 | the chain of list comprehensions keeps exactly what the combined filter keeps |
| Guarantee.KeepAllSpec | guarantee_manager.py:83-109 | an item survives the filters iff it is stored and passes every stage |
| Guarantee.GetItemsSpec | guarantee_manager.py:73-109 | the listing is the stored items passing every requested filter, in order, and no filters give all items |
| Guarantee.KeepAllEvery | guarantee_manager.py:80-81 | stages every item passes keep the list as it is |
| Guarantee.SearchLoop | guarantee_manager.py:224-234 | the search loop only ever keeps stored items |
| Guarantee.SearchSpec | guarantee_manager.py:211-236 | an item is found iff the query is not empty and its lowered text occurs in one of the five searched fields; the search ignores the query's case |
| Guarantee.SearchLoopSpec | guarantee_manager.py:224-234 | the loop keeps exactly the items that contain the lowered query |
| Guarantee.GroupedSpec | guarantee_manager.py:165-193 | a counting dictionary has a key iff some item has that key, and its value is the fold of exactly those items |
| Guarantee.AccumulatedUnseen | guarantee_manager.py:165-193 | a key no item has accumulates nothing |
| Guarantee.GroupLoop | guarantee_manager.py:165-193 | the counting loop builds that dictionary |
| Guarantee.MonthKey | guarantee_manager.py:188-192 | only items with a contract date count toward a month, and the month key is its first seven characters at most |
| Guarantee.CompanyCounts | guarantee_manager.py:166-179 | a company's total is the number of its items, and active plus completed never exceed it |
| Guarantee.CounterCounts | guarantee_manager.py:182-192 | a product or month counter equals the number of items with that key |
| Guarantee.SeenCount | guarantee_manager.py:182-192 | a key is present iff at least one item has it, and its count is at most the number of items |
| Guarantee.StatisticsSpec | guarantee_manager.py:161-200 | every company, product and month in the statistics is counted exactly, and absent keys have no item |
| Guarantee.ZFill2 | guarantee_manager.py:423 | `zfill(2)` pads one or two digits to two digits |
| Guarantee.MatchMonthFirst | guarantee_manager.py:420-423 | a `MM/DD/YYYY` match yields groups of one or two, one or two and four digits |
| Guarantee.MatchYearFirst | guarantee_manager.py:426-429 | a `YYYY.MM.DD` match yields groups of four, one or two and one or two digits |
| Guarantee.Assemble | guarantee_manager.py:423 | the rebuilt date is four digits, dash, two digits, dash, two digits |
| Guarantee.ParseDateSpec | guarantee_manager.py:410-431 | a date text comes back unchanged or as `YYYY-MM-DD` digits, and parsing twice is parsing once |
| Guarantee.ParseDateMonthFirst | guarantee_manager.py:419-423 | `3/7/2024` becomes `2024-03-07` |
| Guarantee.ParseDateYearFirst | guarantee_manager.py:425-429 | `2024.3.7` becomes `2024-03-07` |
| Guarantee.ParseDateOther | guarantee_manager.py:431 | a text that is no date comes back as it is |
| Guarantee.GetCellValue | guarantee_manager.py:404-408 | a missing or out-of-range column reads as empty, any other the stripped cell |
| Guarantee.FindExisting | guarantee_manager.py:282-289 | the first item with the same business name, contract date and company, or none |
| Guarantee.UpsertFinds | guarantee_manager.py:262-273 | after an upsert the contract is found, and the item count grows only when it was added |
| Guarantee.UpsertSize | guarantee_manager.py:262-273 | an upsert adds one item when it adds and none when it updates |
| Guarantee.SyncRunCounts | guarantee_manager.py:259-276 | one company's sync adds as many items as it counts added, accounts for every fetched row unless it fails, and fails at most once |
| Guarantee.SyncAllCounts | guarantee_manager.py:255-276 | the whole sync adds as many items as it reports added, and fails at most once per company |
| Guarantee.GuaranteeManager.constructor | guarantee_manager.py:20-28 | the manager starts from the stored items and last sync time |
| Guarantee.GuaranteeManager.CreateItem | guarantee_manager.py:54-71 | the new item, with its id built from the stamp and the prior count, is appended and returned |
| Guarantee.GuaranteeManager.FindItem | guarantee_manager.py:111-116 | the loop finds the first item with the id |
| Guarantee.GuaranteeManager.UpdateItem | guarantee_manager.py:118-132 | the first item with the id is merged with the updates and returned; an unknown id changes nothing and returns none |
| Guarantee.GuaranteeManager.DeleteItem | guarantee_manager.py:134-142 | success iff the id exists, and then exactly that item is removed, the others keeping their order |
| Guarantee.GuaranteeManager.UpdateDailyRank | guarantee_manager.py:144-159 | the day's rank is set in the item's `daily_ranks`, the rest of the item kept; an unknown id changes nothing |
| Guarantee.GuaranteeManager.GetStatistics | guarantee_manager.py:161-200 | the statistics computed by the loops are those of the stored items |
| Guarantee.GuaranteeManager.Sync | guarantee_manager.py:243-280 | the items and counts after syncing every company are those of `SyncAll`, which upserts each readable company's rows in turn with the counts `Guarantee.SyncAllCounts` relates; the last sync time is set |
| Guarantee.GuaranteeManager.SyncEntry | guarantee_manager.py:258-274 | a company whose sheet could not be read counts one failure and changes nothing; otherwise its rows are synced |
| Guarantee.GuaranteeManager.SyncCompany | guarantee_manager.py:259-271 | the rows of one company are upserted in order as `SyncRun` does, with the counts `Guarantee.SyncRunCounts` states |
| Guarantee.GuaranteeManager.UpsertItem | guarantee_manager.py:262-271 | an existing contract is updated, a new one added with its company |
| Guarantee.GuaranteeManager.FindExistingLoop | guarantee_manager.py:282-289 | the loop finds the first item of the same contract |
| Worklog.SegmentRun | worklog_cache.py:76 | the run of non-slash characters from a position ends at the end of the URL or at a slash |
| Worklog.PlaceGroup | worklog_cache.py:76 | the digit group after "place.naver.com/segment/" starts no further than one past the URL's end |
| Worklog.PlaceDigitsAt | worklog_cache.py:76 | a place-URL match yields at least five digits |
| Worklog.PlaceRunFrom | worklog_cache.py:76-78 | a found place id is at least five digits |
| Worklog.PlaceRunFromSpec | worklog_cache.py:76-78 | the search finds nothing exactly when no position matches, and otherwise returns the digits of the leftmost match |
| Worklog.ExtractMid | worklog_cache.py:63-85 | an empty URL yields no id, and any id found is an all-digit text of at least five digits |
| Worklog.ExtractMidSpec | worklog_cache.py:63-85 | no id exactly when the URL is empty or neither the place pattern nor the seven-digit slash pattern matches; when the place pattern matches, the id is its leftmost match |
| Worklog.ExtractMidPlaceExample | worklog_cache.py:75-78 | "place.naver.com/a/12345" yields "12345" |
| Worklog.ActiveOnInterval | worklog_cache.py:223-259 | a task active on two days is active on every day between them |
| Worklog.ActiveOnWindow | worklog_cache.py:239-257 | with readable dates, a task is active on a day exactly when the day is not before its start nor after its end (missing bounds are open) |
| Worklog.InRangeOneDay | worklog_cache.py:198-219 | a one-day range filter agrees with being active on that day when the start is readable, is implied by it otherwise, and no range keeps everything |
| Worklog.Select | worklog_cache.py:192-221 | a query result is never longer than the cache |
| Worklog.SelectSpec | worklog_cache.py:192-221 | a record is in a query's result exactly when it is in the cache and the query wants it |
| Worklog.SelectNone | worklog_cache.py:192-221 | a query that wants no cached record returns nothing |
| Worklog.ByMidNeedsMid | worklog_cache.py:274-276 | looking up by an empty place id returns nothing |
| Worklog.Smart | worklog_cache.py:299-328 | every task the combined lookup returns is a cached task active on the day |
| Worklog.SmartSpec | worklog_cache.py:315-328 | the place-id lookup is used when it is given and finds something; otherwise the business-name lookup when a name is given, else nothing |
| Worklog.Entries | worklog_cache.py:338-344 | one entry per task, pairing its task name with its workload |
| Worklog.SumValuesUpdate | worklog_cache.py:346-349 | replacing one entry's value changes the total by the difference |
| Worklog.SumValuesBump | worklog_cache.py:346-349 | adding a workload to a name's total raises the grand total by that workload |
| Worklog.KeySumAbsent | worklog_cache.py:338-349 | a name with no entries sums to zero |
| Worklog.TallyGet | worklog_cache.py:338-351 | the totals hold a name exactly when some task has it, with the sum of that name's workloads |
| Worklog.TallySum | worklog_cache.py:338-351 | the totals add up to the sum of all workloads |
| Worklog.TotalsGet | worklog_cache.py:330-351 | the per-task totals hold a name exactly when an active task carries it, with that name's workload sum |
| Worklog.TaskNameJoined | worklog_cache.py:455-459 | outside the misc tab with a product name, the task name is the tab and product joined by a space, or the product alone when the tab is blank |
| Worklog.FirstTruthy | worklog_cache.py:477-482 | the first non-empty cell among the candidate columns is returned, and nothing only when all are empty |
| Worklog.StartDate | worklog_cache.py:464-472 | a start date, when found, is the parse of some non-empty candidate cell |
| Worklog.MidColumn | worklog_cache.py:484-492 | a place id from the id columns is all digits, at least five long, and copied from a candidate cell; none when no candidate qualifies |
| Worklog.PlaceOf | worklog_cache.py:474-492 | the place id is well formed, and no URL cell means no URL |
| Worklog.NormaliseSpec | worklog_cache.py:429-507 | a row becomes a record exactly when it is internal or postpaid and has a business name; the record carries that name, the mapped company or "기타", and an end date today plus the remaining days exactly when those parse |
| Worklog.TabRecords | worklog_cache.py:429-507 | a tab yields at most one record per row |
| Worklog.TabRecordsFresh | worklog_cache.py:429-507 | every record built from a tab has readable dates and a well formed place id |
| Worklog.RefreshedFresh | worklog_cache.py:408-507 | every record of a refresh has readable dates and a well formed place id |
| Worklog.RefreshedActiveOn | worklog_cache.py:223-259 | for a freshly built record, being active on a day is exactly the start and end comparison |
| Worklog.NormaliseTab | worklog_cache.py:429-512 | the row loop builds exactly the records of the tab |
| Worklog.WorklogCache.constructor | worklog_cache.py:113-118 | a new cache has no times and no records |
| Worklog.WorklogCache.Loaded | worklog_cache.py:104-109 | a cache loaded from disk holds the stored times and records |
| Worklog.WorklogCache.Lookup | worklog_cache.py:192-221 | a query's loop returns exactly the selected records, in cache order |
| Worklog.WorklogCache.WorklogByBusiness | worklog_cache.py:176-221 | returns the business's records overlapping the optional date range, in cache order |
| Worklog.WorklogCache.ActiveTasksOnDate | worklog_cache.py:223-259 | returns the business's records active on the day, in cache order |
| Worklog.WorklogCache.ActiveTasksByMid | worklog_cache.py:261-297 | returns the records with the non-empty place id that are active on the day |
| Worklog.WorklogCache.ActiveTasksSmart | worklog_cache.py:299-328 | returns the place-id lookup when it finds anything, else the business-name fallback |
| Worklog.WorklogCache.TaskTotalsOnDate | worklog_cache.py:330-351 | returns the per-task workload totals of the active tasks, and they sum to the total workload |
| Worklog.WorklogCache.RefreshCache | worklog_cache.py:353-523 | replaces the records with those built from the readable tabs, sets the expiry to the time-to-live later, and leaves a valid cache of fresh records |
| Worklog.WorklogCache.ClearCache | worklog_cache.py:548-557 | empties the cache; afterwards it is invalid at every time |
| Workload.ExpiryAsWritten | workload_cache.py:143-151 | the expiry the code computes is 11:30 sharp, on the same day or the next |
| Workload.Expiry | workload_cache.py:143-151 | the intended expiry is 11:30 sharp |
| Workload.ExpirySpec | workload_cache.py:143-151 | the intended expiry lies strictly after the update time, at most one day later, and is the earliest 11:30 that does |
| Workload.ExpiryAsWrittenDiffers | workload_cache.py:148-151 | the written rule and the intended one disagree exactly when the hour is past 11 and the minute is below 30 |
| Workload.ExpiryAsWrittenValid | workload_cache.py:148-151 | the computed expiry lies after the update time iff the update is not after noon in the first half of an hour |
| Workload.ExpiryAsWrittenStale | workload_cache.py:148-151 | an update at 12:10 gets an expiry that is already past, so the fresh cache is invalid at once |
| Workload.PrefixSplit | workload_cache.py:120-124 | a key equals prefix plus name exactly when it starts with the prefix and the rest is the name |
| Workload.ByPrefixSpec | workload_cache.py:119-126 | filtering by a prefix and stripping it yields, for each name, the value stored under prefix plus name (keys distinct) |
| Workload.AllBusinessesSpec | workload_cache.py:102-126 | a company's business map holds, for each business name, the value stored under "company:name" |
| Workload.WorkloadCache.constructor | workload_cache.py:36-42 | a new cache has no update time, no expiry and no companies |
| Workload.WorkloadCache.Loaded | workload_cache.py:25-42 | a cache loaded from disk holds the stored update time, expiry and companies |
| Workload.WorkloadCache.CompanyWorkload | workload_cache.py:67-81 | nothing when the cache is invalid, otherwise a value exactly when the company is present |
| Workload.WorkloadCache.BusinessWorkload | workload_cache.py:83-100 | nothing when the cache is invalid, otherwise a value exactly when the key "company:name" is among the businesses |
| Workload.WorkloadCache.AllBusinessesWorkload | workload_cache.py:102-126 | empty when the cache is invalid, otherwise the businesses whose key starts with "company:", with the prefix removed |
| Workload.WorkloadCache.UpdateCache | workload_cache.py:128-162 | records the update time, the expiry the code computes and the new data; the fresh cache is valid iff the update is not after noon in the first half of an hour, and while valid each company lookup returns the new data |
| Workload.WorkloadCache.ClearCache | workload_cache.py:164-175 | empties the cache; afterwards it is invalid at every time |
| Training.LessStrict | training_dataset_builder.py:36 | the string order used by `sorted` is strict |
| Training.Prefix | training_dataset_builder.py:38 | a prefix is at most the requested length |
| Training.TasksHash | training_dataset_builder.py:34-38 | the hash is the first 12 characters of the 40-character digest of the canonical text |
| Training.SortedSetSpec | training_dataset_builder.py:36 | the sorted set holds each task once, exactly the given tasks, in increasing order |
| Training.SortedUnique | training_dataset_builder.py:36 | two sorted arrangements of the same tasks are the same sequence |
| Training.SortedSetOrderFree | training_dataset_builder.py:36-37 | the canonical text depends only on which tasks occur |
| Training.TasksHashOrderFree | training_dataset_builder.py:34-38 | the hash depends only on the set of task names, not on their order or repeats |
| Training.TasksHashTestOrder | test_training_dataset.py:51-56 | the hash of `저장, 영수증B, 트래픽` equals that of `트래픽, 저장, 영수증B` |
| Training.FirstDatedFrom | training_dataset_builder.py:55-59 | the first snapshot carrying the date from a position on, or none |
| Training.SnapshotAt | training_dataset_builder.py:41-59 | the first snapshot dated start plus day minus one, none iff no snapshot has that date |
| Training.FirstScoredFrom | training_dataset_builder.py:81-86 | the first fallback day, from a position on, with an N2 score |
| Training.N2Delta | training_dataset_builder.py:62-88 | a delta exists iff day 1 and some fallback day have N2; it is then that day's N2 minus the start's; otherwise day 0 and no end |
| Training.N2DeltaPreference | training_dataset_builder.py:81 | days are tried in the order 3, 4, 2, 5 |
| Training.TrendOf | training_dataset_builder.py:261-266 | up iff above the threshold, down iff below its negative, stable otherwise |
| Training.LastNamed | training_dataset_builder.py:128 | the guarantee kept for a business name is the last one with it |
| Training.OwnerOf | training_dataset_builder.py:133-134 | a snapshot is grouped only under a non-empty client or business name |
| Training.OwnersSpec | training_dataset_builder.py:131-135 | the businesses are distinct and are exactly those some snapshot names |
| Training.GroupAbsent | training_dataset_builder.py:131-135 | an unnamed business has no snapshots |
| Training.GroupHas | training_dataset_builder.py:131-135 | every named snapshot lands in its business's group |
| Training.GroupByOwner | training_dataset_builder.py:131-135 | the loop groups each business's snapshots in input order, businesses in first-seen order |
| Training.TaskNames | training_dataset_builder.py:175 | empty task names are dropped |
| Training.RowKeys | training_dataset_builder.py:168 | one key per row, joining business and date with a vertical bar |
| Training.EmitGroupSpec | training_dataset_builder.py:155-206 | one business's pass keeps the rows before it, adds only sound rows, and covers each of its usable snapshots |
| Training.EmitOwnersSpec | training_dataset_builder.py:141-206 | after the given businesses every row is sound and each of their usable snapshots has its row |
| Training.TrainingRowsSpec | training_dataset_builder.py:98-210 | at most one row per business and date, every row sound, and one for every usable snapshot of a named business |
| Training.TrainingRowsAsWritten | training_dataset_builder.py:62-216 | as the code is written: no rows at all once some business with a readable start has a dated snapshot and `calculate_n2_delta` subtracts its two text scores; otherwise the rows of `TrainingRows` |
| Training.AsWrittenDropsRows | training_dataset_builder.py:77-216 | for such a business the builder as written returns [], while `TrainingRows` has a row for each of its dated snapshots |
| Training.RaisesIffDelta | training_dataset_builder.py:70-88 | when the cells present are exactly the scores present, the subtraction of text happens exactly when the intended delta exists |
| Training.BumpKeysAppend | training_dataset_builder.py:269-290 | counting two key lists is counting one after the other |
| Training.BumpKeysBalanced | training_dataset_builder.py:269-290 | every counter's count stays up plus down plus stable |
| Training.BumpKeysCount | training_dataset_builder.py:269-290 | a key's count grows by the number of times it is bumped |
| Training.RowPairs | training_dataset_builder.py:279-280 | the pairs starting at one task are it joined with each later task |
| Training.PairsBeforeCount | training_dataset_builder.py:278-283 | the pair loops produce the triangular number of pairs |
| Training.PairsBeforeComplete | training_dataset_builder.py:278-283 | every `i<j` pair is produced |
| Training.PairsBeforeSound | training_dataset_builder.py:278-283 | only `i<j` pairs are produced |
| Training.ComboCount | training_dataset_builder.py:275-290 | a row with n distinct tasks bumps n(n-1)/2 pair keys plus the full key |
| Training.TwoTasksCountedTwice | training_dataset_builder.py:276-290 | with exactly two tasks the pair key is the full key, and it is bumped twice |
| Training.CountsQualifying | training_dataset_builder.py:253-258 | rows without a delta or without tasks contribute nothing |
| Training.CountsSpec | training_dataset_builder.py:253-290 | every count is up plus down plus stable, a task's count is its number of occurrences in qualifying rows, and a combo's its number of bumps |
| Training.Lines | training_dataset_builder.py:293-313 | at most one line per counter |
| Training.GreaterStrict | training_dataset_builder.py:315 | the order by descending average is strict |
| Training.LinesOfBalanced | training_dataset_builder.py:293-313 | one line per counter, with its name and count, and the count split into up, down and stable |
| Training.RankedSpec | training_dataset_builder.py:293-316 | the lines are kept and sorted by descending average delta |
| Training.Take | training_dataset_builder.py:322-328 | a cut keeps the requested number of lines or all of them |
| Training.TakeTopSpec | training_dataset_builder.py:322-328 | the top 20 are the head of the top 50, and both stay sorted |
| Training.SummariseSpec | training_dataset_builder.py:318-337 | the totals count the distinct tasks and combos; the top 20 and the first 50 are heads of the same sorted list |
| Training.RecipeSpec | training_dataset_builder.py:218-340 | no rows give no statistics; otherwise the statistics have the totals and sorted lists above |
| Training.CalcStats | training_dataset_builder.py:293-316 | the loop computes the sorted lines |
| Training.TrainingDatasetBuilder.constructor | training_dataset_builder.py:94-96 | the builder starts with no rows and no statistics |
| Training.TrainingDatasetBuilder.BuildTrainingRows | training_dataset_builder.py:98-210 | the rows returned and stored are `TrainingRows`, one per business and date; the recipe statistics are untouched |
| Training.TrainingDatasetBuilder.BuildRecipeStats | training_dataset_builder.py:218-340 | the statistics of the given rows, else of the stored ones, stored only when there are any |
| Training.CollectRows | training_dataset_builder.py:131-206 | the nested loops return `TrainingRows`, at most one row per business and date |
| Training.BusinessRows | training_dataset_builder.py:155-206 | one business's loop emits its rows and records their keys |
| Training.SnapshotRow | training_dataset_builder.py:157-206 | a snapshot without a readable date or with an already processed key adds nothing; otherwise its row is appended and its key marked |
| Training.CountRows | training_dataset_builder.py:253-290 | the loop computes the task and combo counters |
| Training.CountTasks | training_dataset_builder.py:269-272 | every active task is bumped once per occurrence |
| Training.CountPairs | training_dataset_builder.py:279-283 | the inner loop bumps each pair starting at one task |
| Training.CountAllPairs | training_dataset_builder.py:278-283 | the outer loop bumps every pair |
| Training.CountCombos | training_dataset_builder.py:275-290 | every pair and the full combo are bumped |
| RecipeAnalyzer.RestaurantKeywordSpec | recipe_analyzer.py:16-20 | a URL containing "restaurant" passes whatever its letter case (upper-casing the URL changes nothing); a passing URL is at least 10 characters long |
| RecipeAnalyzer.SnapshotOnDay | recipe_analyzer.py:23-42 | None exactly when no snapshot is dated start + day − 1; otherwise the first snapshot with that date |
| RecipeAnalyzer.AnalyzeN2Change | recipe_analyzer.py:45-89 | present iff there is a day-1 score and one of days 3, 4, 2, 5 has a score; the day used is one of those, the delta is end − start, and the label is 상승 above +0.001, 하락 below −0.001, 유지 in between |
| RecipeAnalyzer.AnalyzerAgreesWithBuilder | recipe_analyzer.py:58-77 | the analyzer and the training-set builder pick the same day and the same change, and report a change in exactly the same cases |
| RecipeAnalyzer.FirstLatest | recipe_analyzer.py:110-111 | reference definition of the end snapshot: no snapshot is dated later, and every earlier snapshot is dated strictly earlier |
| RecipeAnalyzer.NewestFirstHead | recipe_analyzer.py:110-111 | the head of the stable latest-first sort is the first snapshot, in input order, with the latest date |
| RecipeAnalyzer.AnalyzeReviewChange | recipe_analyzer.py:92-128 | present iff a day-1 snapshot exists and its total is non-zero; start and end totals are blog + visitor reviews with missing counts as 0, the end is the latest snapshot, delta is end − start |
| RecipeAnalyzer.ReviewEndIsLatest | recipe_analyzer.py:110-123 | the end total is the total of the first snapshot with the latest date |
| RecipeAnalyzer.ChangeRate | recipe_analyzer.py:128 | the rate times the start total is 100 times the change |
| RecipeAnalyzer.WarningFor | recipe_analyzer.py:130-136 | 경고 iff the rate is below −10, 주의 iff it is in [−10, −5), no warning iff it is at least −5 |
| RecipeAnalyzer.WarningForCounts | recipe_analyzer.py:125-136 | for a positive start total: 경고 iff the end total is below 90 % of the start, 주의 iff it is at least 90 % and below 95 % |
| RecipeAnalyzer.ReviewWarningSpec | recipe_analyzer.py:92-136 | the same thresholds, stated on the analysis result |
| RecipeAnalyzer.TrafficGroup | recipe_analyzer.py:147-158 | the label is the one for the hundred the volume falls in, clamped to A for negatives and E from 400 on |
| RecipeAnalyzer.TrafficGroupMonotone | recipe_analyzer.py:147-158 | more traffic never falls into an earlier group; the boundaries are 100 and 400 (99→A, 100→B, 399→D, 400→E) |
| InternalManager.TaskDisplaySpec | internal_manager.py:23-29 | on the 기타 tab (whitespace and case aside) the stripped product name, or the tab when that is blank; on another tab without a product the tab; a non-blank tab title never gives a blank task |
| InternalManager.TaskDisplayJoined | internal_manager.py:27-29 | on an ordinary tab, a stripped non-empty tab title and product are joined by exactly one space |
| InternalManager.FmtMmdd | internal_manager.py:146-147 | five characters with '/' in the middle; the two digit fields read back as the month and the day |
| InternalManager.HasUnitKeySpec | internal_manager.py:155-157 | the loop over the unit words answers yes iff one of them (spaces and case removed) occurs in the task |
| InternalManager.GuessUnit | internal_manager.py:150-158 | 타 iff the task contains no 영수증 and contains one of 저장, 길찾기, 지도, 저트길, 클릭, 노출, 타 (spaces and case aside); 건 otherwise |
| InternalManager.GuessUnitIgnoresSpace | internal_manager.py:152 | inserting whitespace anywhere in a task name does not change its unit |
| InternalManager.WeekCount | internal_manager.py:166 | at least one window, and exactly `weeks` when weeks is at least 1 |
| InternalManager.WindowsChain | internal_manager.py:161-172 | the first window ends on base, each spans 7 days, and each later one ends the day before the previous one starts |
| InternalManager.BuildWeekWindows | internal_manager.py:161-172 | the loop returns max(1, weeks) windows, the i-th being base − 7i − 6 … base − 7i |
| InternalManager.FirstWindow | internal_manager.py:253-259 | none iff no window holds the day; otherwise a window that holds it |
| InternalManager.FirstWindowOfWeeks | internal_manager.py:253-259 | with the windows of `_build_week_windows`, a day is in some window iff it lies in the n weeks ending on base, and then in window (base − d) / 7 |
| InternalManager.AgencyLabel | internal_manager.py:71 | never empty; a non-empty agency is kept as it is |
| InternalManager.FiledRows | internal_manager.py:50-70 | one element per row, filed under the stripped tab title and the row's task display |
| InternalManager.AggregatedGet | internal_manager.py:64-88 | after the row loop a key has an entry iff some internal row with a business has that key; the entry holds the fields of the first such row and the sum of all their workloads |
| InternalManager.AddItemGet | internal_manager.py:74-88 | one step opens the entry of a new key or adds the row's workload to an existing one, and leaves every other key as it was |
| InternalManager.AddItemBumps | internal_manager.py:87-88 | a row whose key has an entry adds its workload to that entry's sum |
| InternalManager.FileItem | internal_manager.py:64-88 | the loop body skips a row that is not internal or has no business, and otherwise performs one aggregation step |
| InternalManager.AggregateTab | internal_manager.py:53-88 | the row loop of one tab folds the aggregation step over its rows in order |
| InternalManager.AggregateItems | internal_manager.py:49-88 | the tab loop folds the aggregation step over every row of every tab in order |
| InternalManager.ItemOf | internal_manager.py:92-102 | daily_workload is present iff the sum is positive, and then reads back as the sum; the other fields are the entry's |
| InternalManager.TripleLessStrict | internal_manager.py:91 | the (agency, task, business) order is irreflexive and transitive |
| InternalManager.SortedEntriesSpec | internal_manager.py:91 | the list is ordered by agency, then task, then business, and holds every entry exactly once |
| InternalManager.FetchInternalItems | internal_manager.py:32-104 | the items are the aggregated entries in that order, in their listed form; stats count the tabs and the items |
| InternalWeekly.DayOf | internal_manager.py:232-251 | a day number exactly for a real date of years 1–9999 (where `date(y, m, d)` succeeds), and then a positive one |
| InternalWeekly.FirstNonBlank | internal_manager.py:272-278 | none iff every candidate cell is blank; otherwise the stripped first non-blank one |
| InternalWeekly.ReceiptCategory | internal_manager.py:264-281 | the stripped 항목 cell if not blank, else the first non-blank 구분 cell, else the stripped memo |
| InternalWeekly.ShiftOr | internal_manager.py:299-304 | base + remain when that is a date Python can hold, the start day otherwise |
| InternalWeekly.MiddleGroup | internal_manager.py:202 | the middle `\d{1,2}` group takes two digits when a separator follows them, else one, and is always followed by one of `-/.` |
| InternalWeekly.LastGroup | internal_manager.py:202 | the last `\d{1,2}` group is empty exactly when no digit follows the second separator |
| InternalWeekly.TitleMatchFromSpec | internal_manager.py:199-208 | the title search finds nothing iff no position starts a match, and otherwise returns the match at the leftmost position that starts one |
| InternalWeekly.TitleMatchAtIso | internal_manager.py:202-205 | an ISO date written in the title matches at its own position and reads back as that date |
| InternalWeekly.TitleDayOfIso | internal_manager.py:199-208 | a title holding an ISO date with no digit before it yields that date's day |
| InternalWeekly.TitleDayNoDigits | internal_manager.py:199-208 | a title without digits yields no date |
| InternalWeekly.RowRecord | internal_manager.py:221-311 | a record exactly for an internal row with a business, a start day (start cell, else received cell, else the first `YYYY-MM-DD`-style date in the tab title) and a window holding it; keyed by (agency or 내부 진행, business), with the end and received days as the source derives them |
| InternalWeekly.RecordInWeeks | internal_manager.py:239-259 | a row is kept iff it is internal, names a business, has a start day and that day lies in the max(1, weeks) weeks ending on base |
| InternalWeekly.TabRecords | internal_manager.py:210-311 | one slot per row of the tab, each the row's record under the stripped tab title, whose date is the row's last fallback |
| InternalWeekly.RecordsGet | internal_manager.py:296-311 | after the loops a key is present iff some record was filed under it, and then holds exactly those records in sheet order |
| InternalWeekly.FileRecord | internal_manager.py:296-311 | the loop body appends the row's record to its key's list, creating the list on first use |
| InternalWeekly.CollectTab | internal_manager.py:213-311 | the row loop of one tab files its rows' records in order |
| InternalWeekly.CollectRecords | internal_manager.py:209-311 | the tab loop files the records of every row of every tab in order |
| InternalWeekly.AfterOrder | internal_manager.py:319 | "received later" is a strict total order |
| InternalWeekly.AnchorSpec | internal_manager.py:319-320 | the anchor is the start day of the first-listed record among those with the latest received day |
| InternalWeekly.Week3 | internal_manager.py:324-325 | the week-3 window anchor − 20 … anchor − 14 is the third 7-day window counted back from the anchor |
| InternalWeekly.OverlapsSpec | internal_manager.py:334 | for a record that does not end before it starts, the overlap test holds iff the record and the window share a day |
| InternalWeekly.OverlapTasks | internal_manager.py:328-337 | a task is summed iff some record with that task overlaps the window |
| InternalWeekly.TaskSums | internal_manager.py:327-337 | task_to_sum has a task iff one of its records overlaps the window, and then holds the sum of their workloads |
| InternalWeekly.SumWeek | internal_manager.py:327-337 | the loop builds exactly that per-task tally of the overlapping records, in order |
| InternalWeekly.SortedSumsSpec | internal_manager.py:340 | the lines are sorted by task name and hold every sum exactly once |
| InternalWeekly.Lines | internal_manager.py:340 | one line per task |
| InternalWeekly.JoinEmptyLast | internal_manager.py:342-347 | joining one more empty part adds just the separator |
| InternalWeekly.SectionTextSpec | internal_manager.py:342-347 | when the last line does not end in whitespace, the text is the label and the lines joined by newlines, with the trailing blank part stripped away |
| InternalWeekly.GroupOf | internal_manager.py:315-353 | a section iff the business has records; it carries the business's key and the label of the third window before its anchor |
| InternalWeekly.SummarizeGroup | internal_manager.py:316-353 | the loop body for one business computes that section |
| InternalWeekly.PairLessStrict | internal_manager.py:315 | the (agency, business) order is irreflexive and transitive |
| InternalWeekly.SortedGroupsSpec | internal_manager.py:315 | businesses come out in (agency, business) order, each exactly once |
| InternalWeekly.PresentAll | internal_manager.py:315-317 | when every business has records there is one section per business, in order |
| InternalWeekly.EmitSections | internal_manager.py:314-353 | the group loop returns the sections of the sorted businesses, skipping any without records |
| InternalWeekly.Windows | internal_manager.py:161-172 | max(1, weeks) windows, the i-th being base − 7i − 6 … base − 7i |
| InternalWeekly.FetchWeeklySummary | internal_manager.py:175-355 | collects the records, then emits the sections of the businesses in (agency, business) order |
| BusinessCategory.Normalize | business_category.py:19-20 | the normalised text has no space left in it |
| BusinessCategory.AnyKeywordSpec | business_category.py:36-38 | the keyword loop answers yes iff some keyword from the given position on occurs in the text |
| BusinessCategory.Classify | business_category.py:7-41 | the category is 맛집 iff one of the fifteen restaurant keywords occurs in the joined normalised tab title, product and product name, and 일반 otherwise |
| BusinessCategory.ClassifyByParts | business_category.py:22-38 | a job is 맛집 iff a keyword occurs in one of the three normalised texts on its own; the joining spaces never create or hide a match |
| BusinessCategory.ClassifyIgnoresCase | business_category.py:19-24 | upper-casing the three texts does not change the category |
| BusinessCategory.AgencyOf | business_category.py:107 | the agency is the stripped name when that is non-empty, and 미지정 otherwise; it is never empty |
| BusinessCategory.PlaceWeek | business_category.py:98-104 | each item of a week is classified and keeps the week's dates, in item order |
| BusinessCategory.PlaceAll | business_category.py:94-98 | the week and item loops visit exactly as many items as the weeks hold |
| BusinessCategory.FindWeek | business_category.py:114-119 | the search finds the first week with equal start and end dates, or reports that none has them |
| BusinessCategory.WithPart | business_category.py:110-111 | updating one category leaves the other category as it was |
| BusinessCategory.GroupedAgency | business_category.py:94-134 | an agency of a category holds exactly the weeks that its own items, taken in input order, build; items of other agencies and categories never touch it |
| BusinessCategory.AddToWeeksCount | business_category.py:114-134 | filing an item adds exactly one item to the agency's weeks |
| BusinessCategory.AddToWeeksSpec | business_category.py:114-134 | filing an item keeps the agency's weeks unique per date pair |
| BusinessCategory.WeeksSpec | business_category.py:114-134 | an agency's weeks are unique per (start, end) pair and hold as many items as were filed to it, and there is a week whenever an item was filed |
| BusinessCategory.GroupedNoEmpty | business_category.py:109-134 | no agency is ever left without a week |
| BusinessCategory.GroupedKeys | business_category.py:109-111 | the agencies of a category are those of its items, in the order they are first seen, each once |
| BusinessCategory.GroupedTotal | business_category.py:94-134 | the two categories together hold as many items as were filed: each item lands in exactly one category, agency and week |
| BusinessCategory.DropEmpty | business_category.py:137-142 | the filter keeps at most the agencies it was given |
| BusinessCategory.DropEmptyNone | business_category.py:137-142 | without agencies that lack weeks, the filter changes nothing |
| BusinessCategory.GroupWorkloadSpec | business_category.py:44-144 | in the result, each agency's weeks are those its own items build, unique per date pair, holding exactly that agency's items |
| BusinessCategory.GroupWorkloadShape | business_category.py:44-144 | the result holds every input item exactly once, and each category's agencies are those of its items in first-seen order |
| BusinessCategory.FileItem | business_category.py:98-134 | one pass of the item loop files the item as the step function says |
| BusinessCategory.FileWeek | business_category.py:98-134 | the item loop files a week's items in order |
| BusinessCategory.FileWeeks | business_category.py:94-134 | the week loop files every item of every week in order |
| BusinessCategory.DropEmptyLoop | business_category.py:137-142 | the filter loop keeps the agencies that have weeks, in order |
| BusinessCategory.GroupWorkloadLoop | business_category.py:44-144 | the grouping computes the result the reference definition describes |
| BusinessCategory.RankText | business_category.py:181-185 | the rank text is empty iff no rank is given |
| BusinessCategory.RankSuffixOnce | business_category.py:181-185 | a rank given as "3" or as "3위" prints the same, "(3위)": 위 is never doubled |
| BusinessCategory.ItemLines | business_category.py:218-221 | one "name : workload" line per item, in item order |
| BusinessCategory.WeeksLinesCount | business_category.py:204-225 | an agency prints one date line per week, one line per item and one blank line between two weeks |
| BusinessCategory.SortedAgenciesSpec | business_category.py:201 | the agencies print in name order, each of them once |
| BusinessCategory.CategoryBlock | business_category.py:190-229 | a category prints nothing iff it has no agency |
| BusinessCategory.FormatTextStripped | business_category.py:231 | the text neither starts nor ends with whitespace |
| BusinessCategory.FormatTextEmpty | business_category.py:179-231 | with nothing grouped and no business named, the text is empty |
| BusinessCategory.FormatTextHeader | business_category.py:180-187 | with a business named, the text opens with 월보장 |
| BusinessCategory.EmitItems | business_category.py:218-221 | the item loop appends the week's item lines |
| BusinessCategory.EmitWeek | business_category.py:206-225 | one pass of the week loop appends the date line, the item lines and, unless the week is the last, a blank line |
| BusinessCategory.EmitWeeks | business_category.py:204-225 | the week loop appends the lines of all of an agency's weeks |
| BusinessCategory.EmitAgencies | business_category.py:201-227 | the agency loop appends each agency's name in brackets, its weeks and a blank line |
| BusinessCategory.EmitCategory | business_category.py:190-229 | a category with no agency appends nothing; otherwise its banner, its agencies in name order and a blank line |
| BusinessCategory.FormatGroupedText | business_category.py:147-231 | the text is the stripped newline join of the header, the 일반 lines and the 맛집 lines |
| Auth.RoleLevel | auth.py:19-35 | an unknown role has level 0, and no level exceeds the administrator's 100 |
| Auth.PermissionOrder | auth.py:309-312 | an administrator may do whatever a manager may, a manager whatever a user may, and an unknown role only what needs level 0 or less |
| Auth.VerifyHashed | auth.py:94-105 | a password always verifies against its own salted hash |
| Auth.ZeroPad3 | auth.py:222 | the `:03d` form of the number has at least three digits |
| Auth.IndexOfId | auth.py:166-178 | the first account with that id, or none when no account has it |
| Auth.LoginIndex | auth.py:140-164 | the first account that is active, has the username and whose password verifies, or none when no account qualifies |
| Auth.Usernames | auth.py:207-211 | the usernames of all stored accounts, active or not, in order |
| Auth.ActiveAdmins | auth.py:292 | the count of active administrators never exceeds the number of accounts |
| Auth.ActiveAdminsUpdate | auth.py:292-297 | replacing one account changes the administrator count only by that account's own contribution |
| Auth.Updated | auth.py:253-262 | an update never touches the id, the username, the creation time or the password |
| Auth.AuthManager.constructor | auth.py:41-59 | after construction some account is an administrator: the stored accounts when one of them is, else those plus `admin_001` |
| Auth.AuthManager.Authenticate | auth.py:140-164 | the first active account whose username and password match gets its login time and its session fields are returned; with none, nothing changes |
| Auth.AuthManager.GetUser | auth.py:166-178 | a profile is returned iff some account has the id, and it is that account's |
| Auth.AuthManager.FindUser | auth.py:166-178 | the loop finds the first account with the id |
| Auth.AuthManager.CreateUser | auth.py:198-246 | a taken username (active or not) or an unknown role changes nothing; otherwise exactly one active account `user_NNN` with `NNN` one past the prior count is appended and its public fields returned |
| Auth.AuthManager.UpdateUser | auth.py:248-267 | an unknown id changes nothing; otherwise only that account's name, role and active flag change, with who and when |
| Auth.AuthManager.ChangePassword | auth.py:269-284 | success iff the id exists; the account then verifies the new password, and every other account is unchanged |
| Auth.AuthManager.DeleteUser | auth.py:286-307 | a soft delete: the account stays and is deactivated, unless it is an administrator and at most one administrator is active; an active administrator always remains |
| Auth.AuthManager.CountActiveAdmins | auth.py:292 | the loop counts the active administrators |
| Auth.CreatedCanLogIn | auth.py:140-164 | an active account appended under a username no stored account has logs in with its password, and it is the one found |
| Auth.InactiveCannotLogIn | auth.py:146 | a deactivated account never logs in |
| SchedulerLog.Last | scheduler_logs.py:52 | the bounded log keeps at most 100 entries, and all of them when there are no more |
| SchedulerLog.LastSnoc | scheduler_logs.py:115 | appending to a full log drops its oldest entry, otherwise just appends |
| SchedulerLog.NewEntry | scheduler_logs.py:101-113 | a new entry carries the job id, the status and the day's date |
| SchedulerLog.NewestMatching | scheduler_logs.py:141-149 | the matching entries are a selection of the log |
| SchedulerLog.NewestMatchingSnoc | scheduler_logs.py:141-149 | the newest entry, when it matches, comes first |
| SchedulerLog.NewestMatchingSpec | scheduler_logs.py:141-149 | an entry is listed iff it is in the log and passes the job, status and date filters |
| SchedulerLog.NewestMatchingAppend | scheduler_logs.py:141-149 | later entries are listed before earlier ones |
| SchedulerLog.RecentLogs | scheduler_logs.py:124-153 | the newest matching entries, cut after `limit` of them, and after one when `limit` is below one |
| SchedulerLog.NewestOf | scheduler_logs.py:159-162 | the entry chosen for a job is one of its entries, and there is none only when the job never ran |
| SchedulerLog.NewestOfCons | scheduler_logs.py:159-162 | a newer entry of the same job takes precedence |
| SchedulerLog.LatestByJobSpec | scheduler_logs.py:155-164 | every job with a non-empty id maps to its newest entry |
| SchedulerLog.CountStatus | scheduler_logs.py:169-170 | a status count never exceeds the log size |
| SchedulerLog.CountDate | scheduler_logs.py:174 | today's count never exceeds the log size |
| SchedulerLog.GetSummary | scheduler_logs.py:166-182 | the total is the log size and today's count is at most that |
| SchedulerLog.SuccessFailedBound | scheduler_logs.py:169-170 | successes and failures together never exceed the log size |
| SchedulerLog.KeepFrom | scheduler_logs.py:189-192 | pruning only removes entries |
| SchedulerLog.KeepFromSpec | scheduler_logs.py:189-192 | an entry survives iff its date is not before the cutoff |
| SchedulerLog.KeepFromAppend | scheduler_logs.py:189-192 | pruning keeps the log's order |
| SchedulerLog.SchedulerLogManager.constructor | scheduler_logs.py:47-67 | the manager starts with the last 100 stored entries |
| SchedulerLog.SchedulerLogManager.AddLog | scheduler_logs.py:84-122 | the new entry is appended, the oldest dropped beyond 100, and returned |
| SchedulerLog.SchedulerLogManager.GetLogs | scheduler_logs.py:124-153 | the query loop returns the newest matching entries up to the limit |
| SchedulerLog.SchedulerLogManager.GetLatestByJob | scheduler_logs.py:155-164 | the loop computes the newest entry per job |
| SchedulerLog.SchedulerLogManager.ClearOldLogs | scheduler_logs.py:184-197 | exactly the entries dated before the cutoff are removed, the rest keep their order |
| NaverDirectCrawler.Url | naver_direct_crawler.py:26-30 | the proxy address starts with `http://` and ends with `:` and the port |
| NaverDirectCrawler.UrlIgnoresPartialCredentials | naver_direct_crawler.py:26-30 | with the user name or the password missing, the address is the one without credentials |
| NaverDirectCrawler.UrlWithCredentials | naver_direct_crawler.py:26-30 | with both credentials, the address is the bare one with `user:password@` inserted after the scheme |
| NaverDirectCrawler.PyMod | naver_direct_crawler.py:53 | Python's remainder lies in `[0, b)` for a positive divisor and in `(b, 0]` for a negative one |
| NaverDirectCrawler.PortAtRange | naver_direct_crawler.py:53 | with a positive endpoint count, every round-robin port lies in `[port_start, port_start + port_count)` |
| NaverDirectCrawler.PortAtPeriodic | naver_direct_crawler.py:53-54 | the round-robin ports repeat with period `port_count` |
| NaverDirectCrawler.PortAtCovers | naver_direct_crawler.py:53-54 | any `port_count` consecutive requests are handed every port of the range |
| NaverDirectCrawler.ProxyPool.constructor | naver_direct_crawler.py:36-43 | the pool keeps the given settings and its counter starts at zero |
| NaverDirectCrawler.ProxyPool.GetProxy | naver_direct_crawler.py:48-60 | without credentials there is no proxy and the counter is unchanged; otherwise the port is `port_start + index mod port_count` and the counter moves on by one |
| NaverDirectCrawler.ProxyPool.GetRandomProxy | naver_direct_crawler.py:62-73 | without credentials there is no proxy; otherwise the port lies in `[port_start, port_start + port_count - 1]`; the counter is not touched |
| NaverDirectCrawler.Assigned | naver_direct_crawler.py:181-185 | a score that fails to parse leaves itself and every later score unset and keeps the earlier ones |
| NaverDirectCrawler.ScorePart | naver_direct_crawler.py:174-177 | without a comma the score part is the whole text; with one it holds no comma |
| NaverDirectCrawler.ParseGdid | naver_direct_crawler.py:152-187 | no scores for an empty text, a text without a colon, or a score part of fewer than four colon fields; trust is set only with popularity, popularity only with relevance |
| NaverDirectCrawler.GdidRoundTrip | naver_direct_crawler.py:152-187 | a gdid built as `id,version:relevance:popularity:trust`, with or without the `id,` prefix, gives back the three parsed scores |
| NaverDirectCrawler.RankPlaces | naver_direct_crawler.py:248-269 | one result per returned item, in order, whose rank is its 1-based position and whose scores come from its gdid |
| NaverDirectCrawler.SearchPlaces | naver_direct_crawler.py:232-272 | a failed request gives no results; otherwise the results are the returned items numbered from 1 |
| NaverDirectCrawler.Eligibles | naver_direct_crawler.py:314-315 | only targets with both a keyword and a place id are looked up |
| NaverDirectCrawler.FirstWithId | naver_direct_crawler.py:326-330 | the search finds the first result whose id is the place id, or reports that none has it |
| NaverDirectCrawler.RowForSpec | naver_direct_crawler.py:326-357 | a row is found iff some result carries the place id, and then has that result's rank; a row not found has no metric at all; the keyword, place id and business name are copied |
| NaverDirectCrawler.RowForRank | naver_direct_crawler.py:332-337 | on numbered results, a found place's rank is one more than the position of its first result |
| NaverDirectCrawler.BatchRows | naver_direct_crawler.py:309-359 | the batch has one row per eligible target, in target order, each computed from its own keyword's results |
| NaverDirectCrawler.CrawlRanksBatch | naver_direct_crawler.py:296-359 | the loop builds the reference batch, and the keywords it searches are the eligible keywords in first-seen order, each once |
| NaverDirectCrawler.SearchedOnce | naver_direct_crawler.py:317-321 | the searched keywords are distinct and are exactly the keywords of the eligible targets |
| NaverDirectCrawler.KeywordsSpec | naver_direct_crawler.py:309-321 | a keyword is listed iff some eligible target carries it |
| App.RemoveParensKeeps | app.py:24 | removing the parenthesised remarks only drops characters of the text |
| App.RemoveParensNoGroup | app.py:24 | after the substitution no `(` … `)` group is left |
| App.RemoveParensNoOpen | app.py:24 | a text without `(` is left as it is |
| App.StripParenthesesSpec | app.py:20-24 | a cleaned task name holds no parenthesised group, and a name without `(` is only stripped |
| App.ParseDaysRoundTrip | app.py:126-136 | days written with `str` and joined by commas parse back to the same days in the same order |
| App.KeepIntsFrom | app.py:129-136 | every parsed day is the integer of one of the stripped comma-separated pieces |
| App.ParseDaysLoop | app.py:126-136 | the loop of `_parse_days` returns `ParseDays`, whose round trip and origin `App.ParseDaysRoundTrip` and `App.KeepIntsFrom` state |
| App.KeepIntsAt | app.py:132-136 | one pass of the loop adds the piece's integer, if any, before the rest of the pieces' integers |
| App.BaseDay | app.py:38-45 | the base day is today's when the stripped parameter is empty or `date.fromisoformat` refuses it, and otherwise a real calendar day that the parameter names |
| App.BaseDayUnpadded | app.py:39-43 | "2025-1-6" is refused by `date.fromisoformat`, so the base day falls back to today |
| App.BaseDayOfIso | app.py:39-41 | a base date written in ISO form is the day it names |
| App.DayLabel | app.py:59-63 | a day label is `YYYY-MM-DD(요일)`: 13 characters with the weekday in brackets after the ISO date |
| App.DayLabelDate | app.py:58-63 | a label exists exactly for a day Python's dates cover; its first ten characters read back as the date `d` days after the base day and its bracketed name is that day's weekday |
| App.DayLabelsSpec | app.py:60-63 | the labels exist when every selected day has a date, and then exactly the selected days are labelled, each with its own label |
| App.LabelsBySome | app.py:60-63 | labelling the days in turn succeeds iff every day has a label |
| App.LabelsByGet | app.py:60-63 | after labelling, a day reads its own label iff it is one of the days, and nothing otherwise |
| App.DayLabelsLoop | app.py:60-63 | the label loop returns `DayLabels`, whose contents `App.DayLabelsSpec` states |
| App.AscendingSpec | app.py:56 | `sorted` keeps the days and puts them in increasing order |
| App.TaskLinesListNames | app.py:81-87 | a task with names contributes its `<task>` line and each stripped name |
| App.DayLinesListDays | app.py:79-87 | each day of an agency contributes its label, or `+d` without one, and its task lines |
| App.MessageListsName | app.py:77-88 | every name filed for an agency appears in its message, with its task line and its day label |
| App.MessagesBySpec | app.py:77-88 | one message per agency of the grouping, in the grouping's order |
| App.MessagesSpec | app.py:77-88 | each agency's message is made from that agency's own days |
| App.EmitNames | app.py:86-87 | the name loop appends each name, stripped, in order |
| App.TaskLinesAt | app.py:81-87 | one task adds its `<task>` line and names, or nothing without names, before the later tasks' lines |
| App.EmitTask | app.py:81-87 | one pass of the task loop appends the task's block |
| App.EmitTasks | app.py:81-87 | the task loop appends `TaskLines`, whose lines `App.TaskLinesListNames` states |
| App.DayLinesAt | app.py:79-87 | one day adds its label and task lines before the later days' lines |
| App.EmitDay | app.py:79-87 | one pass of the day loop appends the day's label and its tasks |
| App.EmitDays | app.py:79-87 | the day loop appends `DayLines`, whose lines `App.DayLinesListDays` states |
| App.MessageLoop | app.py:78-88 | the body of the agency loop returns `Message`, which `App.MessageListsName` describes |
| App.MessagesLoop | app.py:77-88 | the agency loop returns `Messages`, one message per agency as `App.MessagesSpec` states |
| App.Index | app.py:31-103 | nothing is fetched or computed unless the form was submitted |
| App.IndexSpec | app.py:54-88 | a submitted page lists the parsed days in increasing order, labels exactly those days, reports a failed fetch's error with no messages, and otherwise holds one message per agency |
| Dates.FromOrdinal | app.py:60-61 | every day number from 1 up names a valid calendar date |
| Dates.OrdinalRoundTrip | app.py:60-61 | turning a day number into a date and back gives the same number, so adding days to a date is adding to its number |
| Dates.Weekday | app.py:63 | the weekday index is always one of the seven labels' positions |
| Dates.WeekdayPeriodic | app.py:63 | weekdays repeat every seven days, and 0001-01-01 is a Monday |
| Dates.Iso | app.py:62 | the ISO text of a date is ten characters with dashes at positions 4 and 7 |
| Dates.IsoOfDay | app.py:62 | the text produced for a day number parses back to that very day |
| Dates.SheetDate | recovery_service.py:272 | the `%y. %m. %d` text is ten characters with `. ` after the year and the month |
| Dates.ParseIso | recovery_service.py:271 | a parsed date is always a valid calendar date with a four-digit year |
| Dates.ParseIsoOfIso | recovery_service.py:271-272 | parsing the ISO text of any valid date gives that date back |
| Dates.FromIsoFormat | app.py:41 | an accepted text is exactly ten characters and names a valid date |
| Dates.FromIsoFormatOfIso | app.py:41 | `fromisoformat` inverts `isoformat` on every date up to year 9999 |
| Dates.ParseIsoRejectsMonth13 | recovery_service.py:273-275 | a month 13 is rejected |
| Dates.ParseIsoRejectsFeb30 | recovery_service.py:273-275 | a day past the month's end is rejected |
| Dates.SpacePaddedDay | recovery_service.py:271 | `strptime` reads the space-padded day of "2025-01- 6" as January 6, while `fromisoformat` refuses the same text |
| Sorting.SortBy | internal_manager.py:319 | sorting keeps every element exactly once: the result is a permutation of the input |
| Sorting.SortBySorted | internal_manager.py:92 | under a strict order on keys, the sorted result is ordered by key |
| Sorting.SortByStable | internal_manager.py:319 | elements with equal keys keep their input order, as Python's sort guarantees |
| Sorting.SortByHead | internal_manager.py:319-320 | the head of the sorted list is the first element whose key no other element's key precedes |
| Sorting.Insert | internal_manager.py:92 | inserting one element adds exactly that element |
| Sorting.InsertSorted | internal_manager.py:92 | inserting into a key-ordered list keeps it ordered |
| Sorting.FirstTop | internal_manager.py:319-320 | picks the earliest position whose key nothing precedes |
| Common.ParseIntToString | sheet_client.py:118-130 | the integer parse reads back every integer's decimal text |
| Common.ParseIntOfDigits | app.py:133 | `int()` of a run of ASCII digits is the number they spell |
| Common.SlashDigitsSpec | worklog_cache.py:80-83 | the slash-digits search finds nothing exactly when no position matches, and otherwise returns the leftmost match |
| Common.DedupSpec | training_dataset_builder.py:36 | removing duplicates leaves distinct elements with the same membership |
| Common.JoinSplit | training_dataset_builder.py:36-37 | splitting a text at a separator and joining the pieces with it gives the text back |
| Common.StripIdempotent | sheet_client.py:121 | stripping twice is the same as stripping once |
| Common.StripEmptyIff | sheet_client.py:121-123 | a text strips to empty exactly when every character is whitespace |

## Left out

- Google Sheets and Google authentication I/O: opening, reading, `update_cells`, `batch_update` and `append_rows`. Sheets are inputs and writes are returned lists, and a 100-row chunked `batch_update` is one ordered list of overwrites.
- JSON persistence of every manager and cache (`_load_*`, `_save_*`, backups): loading is a constructor taking the stored state, and a failed save is not modelled.
- `datetime.now()`, `date.today()`, `time.time()` and time zones: the current moment, day or second is a parameter.
- Environment variables and settings: spreadsheet ids, column names, the cache file paths and the worklog time-to-live override. The default values are constants.
- Concurrency: the lock guarding the scheduler log singleton.
- Network access: `_make_request`, `_with_retry`, `time.sleep` and retry back-off. A search result, or a failed one, is a function parameter.
- The browser crawler and the crawl itself (`rank_crawler.py`, `find_place_rank`): a crawl's records, or its failure, are an input.
- SHA-1, SHA-256 and MD5 digests, and `json.dumps`: they are function parameters, and only their determinism is used.
- Regular-expression engines: each pattern the services use is written out as a character-level extractor.
- Floating point: scores and rates are exact reals. `round(...)`, averages, `avg_delta_all`, `up_rate` and the `generated_at` stamp of the statistics are not modelled.
- `float()` parsing in `parse_gdid_scores`: it is a function parameter that may fail.
- `str.lower()` covers ASCII letters only. Full Unicode case mapping is not modelled.
- Calendar dates before year 1 and after year 9999, and the extended ISO forms `date.fromisoformat` accepts since Python 3.11, are not modelled.
- `_parse_date_maybe`, `parse_date_flexible` and `_is_internal_or_postpaid` are not part of this model: their results are given with each row.
- Common.ParseInt: `int()` is modelled on ASCII text only. The Unicode decimal digits Python also accepts (such as `１２` or `٣`) and underscores between digits (`1_0`) are not modelled.
- Common.IsDigit: only `0`…`9` are digits, so `str.isdigit()` and the regular-expression class `\d` are modelled on ASCII digits. This covers the tab-title date search of `internal_manager.py` too.
- Exception handlers that only log and return an empty result are modelled only where the source reaches them from a modelled input, for example `get_dates_missing_in_snapshots` returning every date when the history read fails.
- `TrainingDatasetBuilder.save_results`, `get_top_recipes`, `build_and_save` and the Sheets backup of the training set: these are file and sheet output.
- `recipe_analyzer.analyze_all`: glue that applies the modelled helpers to every business and writes a report.
- `AuthManager.get_all_users` and `get_role_info`: copies of the stored data without secret fields.
- `GuaranteeManager.get_latest_activities`, `get_last_sync_time` and `_parse_amount`: display helpers outside the item rules.
- `inspect_sheets` in `sheet_client.py`: a diagnostic listing of tab titles.
- `RankSnapshotManager.get_latest_by_client` and `get_last_crawl_time`: read-only lookups over the same sheet as `get_history`.
- `get_cache_status` in `worklog_cache.py`: a status report over the cached records.
- Flask routing and templates in `app.py`, apart from the day parsing and message assembly.
- `data_security.py`, `db_backup.py` and the test scripts: encryption, file permissions, sqlite export and scripts that read live sheets.
- BusinessCategory: the workload value of an item is kept as text, as the source passes it through. A missing end date is printed as "None", as Python's formatting does.
- NaverDirectCrawler.ProxyPool.GetProxy: requires a non-zero port count when credentials are set. With a zero count the source raises `ZeroDivisionError`, and that path is not modelled.
- NaverDirectCrawler.ProxyPool.GetRandomProxy: the random draw is a parameter, required to lie in the range `random.randint` would draw from.
- InternalWeekly: the window anchor − 20 … anchor − 14 uses day numbers, so an anchor within 20 days of 0001-01-01, where Python would raise `OverflowError`, is not modelled.
- Workload.WorkloadCache: a stored expiry that does not parse is not representable, so the "unparseable expiry" branch of `is_cache_valid` is not modelled. A missing expiry still makes the cache invalid.
- Recovery.Distinct: `list(set(...))` has no defined order in Python, since string hashing is randomised per process. The model fixes one order, first seen first, so the crawl order and the ledger cell each recovered date fills follow that order. The missing dates, and "in order" in the recovery contracts, follow the list of failed dates whatever its order.
- SnapshotLog.ApplyBatch: the end column is `chr(ord('A') + len(headers) - 1)`, which is not a column name past 26 headers, so `batch_update` would fail there. The model writes the whole row for any header count.
- Training.N2Delta: the scores it subtracts are numbers. The history items hold the sheet's text, on which the subtraction raises; "## Findings" records this, with `Training.TrainingRowsAsWritten` as the builder as written.
- RecipeAnalyzer.AnalyzeN2Change: scores are numbers here. The history items come from the sheet as text, so once the day-1 entry and the entry of day 3, 4, 2 or 5 are present (even empty), `end_n2 - start_n2` raises `TypeError`, and `analyze_all`, which is not part of this model, does not catch it.
- RecipeAnalyzer.AnalyzeReviewChange: review counts are numbers here. From the sheet they are text, so unless both day-1 review cells are empty or absent (a total of 0, and no analysis), `blog or 0` plus `visitor or 0` either joins two strings or adds a string to 0, and the addition or `end_total - start_total` raises `TypeError`.
- Worklog.WorklogCache: the `stats` counters of `refresh_cache` are not modelled. A tab whose read raised is skipped, and the failure count is not kept.

## Findings

| source | as written | input that shows it | evidently intended | confidence | as-written member | corrected member |
|---|---|---|---|---|---|---|
| workload_cache.py:148-151 | the next day's 11:30 is chosen only when `hour >= 11 and minute >= 30`, otherwise today's 11:30 | an update at 12:10 gets today's 11:30 as its expiry, which is already past, so the fresh cache is invalid at once | the first 11:30 after the update time: today's before 11:30, tomorrow's from 11:30 on | high (not executed) | Workload.ExpiryAsWritten | Workload.Expiry |
| training_dataset_builder.py:77-85 | the scores of the history items are the sheet's text; `is not None` lets any present cell through and `end_n2 - start_n2` subtracts two strings, so `TypeError` reaches the blanket `except` of `build_training_rows`, which returns [] | a business with a readable guarantee start whose day-1 and day-3 snapshots hold "0.5" and "0.7": no training row is built, for any business | the scores read as numbers, and one row per business and date with the delta end − start | high (not executed) | Training.TrainingRowsAsWritten | Training.TrainingRows |
