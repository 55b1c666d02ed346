/**
 * The crawl-failure recovery flow: find the dates whose crawl failed in
 * the "rank_update_logs" tab, keep those with no snapshot data, crawl
 * each again, keep the records of that date, and fill the guarantee
 * ledgers selectively (see RecoveryLedger).
 */
module Recovery {
  import opened Common
  import opened Sorting
  import opened Ledger
  import opened RecoveryLedger

  // ---------------------------------------------------------------------
  // The failure log
  // ---------------------------------------------------------------------

  /** One failure found in the log. */
  datatype FailureRecord = FailureRecord(
    date: string,
    timeSlot: string,
    executedAt: string,
    failedCount: nat,
    message: string,
    failedDetails: seq<string>)

  /** `idx_map`: every header text to the index of its last occurrence. */
  function HeaderIndexes(headers: seq<string>): (m: map<string, nat>)
    ensures forall h :: h in m <==> h in headers
    ensures forall h :: h in m ==> m[h] < |headers| && headers[m[h]] == h
  {
    if |headers| == 0 then map[]
    else HeaderIndexes(headers[..|headers| - 1])[headers[|headers| - 1] := |headers| - 1]
  }

  /** The header map keeps the last index of a repeated header. */
  lemma {:induction false} HeaderIndexesLast(headers: seq<string>, h: string, j: nat)
    requires j < |headers| && headers[j] == h
    ensures HeaderIndexes(headers)[h] >= j
  {
    var n := |headers| - 1;
    if j < n && headers[n] != h {
      HeaderIndexesLast(headers[..n], h, j);
    }
  }

  /** `idx_map.get(name, default)`. */
  function ColumnOf(idx: map<string, nat>, name: string, default: nat): nat {
    if name in idx then idx[name] else default
  }

  /** `row[i] if len(row) > i else default`. */
  function CellOr(row: seq<string>, i: nat, default: string): string {
    if |row| > i then row[i] else default
  }

  /**
   * The date of a log row: the text before the first "T" of
   * `executed_at`, else its first ten characters, else "".
   */
  function LogDate(executedAt: string): (d: string)
    ensures StartsWith(executedAt, d) && 'T' !in d
  {
    match IndexOf(executedAt, 'T')
    case Some(k) => executedAt[..k]
    case None => if |executedAt| >= 10 then executedAt[..10] else ""
  }

  /** An ISO timestamp is dated by its text before "T". */
  lemma LogDateOfTimestamp(date: string, time: string)
    requires 'T' !in date
    ensures LogDate(date + "T" + time) == date
  {
    IndexOfAfter(date, 'T', time);
    assert (date + "T" + time)[..|date|] == date;
  }

  /** `int(s) if s.isdigit() else 0`. */
  function FailedCount(s: string): nat {
    if IsDigitString(s) then NatOf(s) else 0
  }

  /** A row counts as a failure by its count, or by 실패 or "failed" (any case) in its message. */
  predicate IsFailure(count: nat, message: string) {
    count > 0 || Contains(message, "실패") || Contains(Lower(message), "failed")
  }

  /** `json.loads(s) if s else []`, a decoding error giving []. */
  function Details(s: string, decode: string -> Option<seq<string>>): seq<string> {
    if s == "" then []
    else match decode(s)
      case Some(d) => d
      case None => []
  }

  /** The record one log row contributes, if it is a recent failure. */
  function FailureOf(row: seq<string>, idx: map<string, nat>, cutoff: string, decode: string -> Option<seq<string>>): (r: Option<FailureRecord>)
    ensures r.Some? ==> !StrLess(r.value.date, cutoff) && IsFailure(r.value.failedCount, r.value.message)
  {
    var executedAt := CellOr(row, ColumnOf(idx, "executed_at", 0), "");
    var countText := CellOr(row, ColumnOf(idx, "failed_count", 3), "0");
    var message := CellOr(row, ColumnOf(idx, "message", 5), "");
    var detailsText := CellOr(row, ColumnOf(idx, "failed_details", 6), "[]");
    var timeSlot := CellOr(row, ColumnOf(idx, "time_slot", 1), "");
    var date := LogDate(executedAt);
    var count := FailedCount(countText);
    if StrLess(date, cutoff) || !IsFailure(count, message) then None
    else Some(FailureRecord(date, timeSlot, executedAt, count, message, Details(detailsText, decode)))
  }

  /** The failure records of the data rows. */
  function FailureOfRow(idx: map<string, nat>, cutoff: string, decode: string -> Option<seq<string>>): seq<string> -> Option<FailureRecord> {
    row => FailureOf(row, idx, cutoff, decode)
  }

  /** The comes-before relation of `sort(key=date, reverse=True)`. */
  function Later(a: string, b: string): bool {
    StrLess(b, a)
  }

  function DateOf(r: FailureRecord): string {
    r.date
  }

  lemma LaterStrict()
    ensures StrictOrder(Later)
  {
    forall a
      ensures !Later(a, a)
    {
      StrLessIrreflexive(a);
    }
    forall a, b, c | Later(a, b) && Later(b, c)
      ensures Later(a, c)
    {
      StrLessTransitive(c, b, a);
    }
  }

  /**
   * `get_failed_crawl_dates`: nothing when the log tab is missing or has
   * no data row; otherwise the failures dated on or after the cutoff,
   * latest date first.
   */
  function FailedCrawlDates(log: Option<seq<seq<string>>>, cutoff: string, decode: string -> Option<seq<string>>): seq<FailureRecord> {
    match log
    case None => []
    case Some(values) =>
      if |values| <= 1 then []
      else SortBy(Collect(values[1..], FailureOfRow(HeaderIndexes(values[0]), cutoff, decode)), DateOf, Later)
  }

  /** Every collected failure is dated on or after the cutoff and fails by count or message. */
  lemma FailuresOk(rows: seq<seq<string>>, idx: map<string, nat>, cutoff: string, decode: string -> Option<seq<string>>)
    ensures forall x: FailureRecord :: x in Collect(rows, FailureOfRow(idx, cutoff, decode)) ==>
      !StrLess(x.date, cutoff) && IsFailure(x.failedCount, x.message)
  {
    var f := FailureOfRow(idx, cutoff, decode);
    CollectSpec(rows, f);
    forall x: FailureRecord | x in Collect(rows, f)
      ensures !StrLess(x.date, cutoff) && IsFailure(x.failedCount, x.message)
    {
      var k :| 0 <= k < |rows| && f(rows[k]) == Some(x);
      assert f(rows[k]) == FailureOf(rows[k], idx, cutoff, decode);
    }
  }

  /** Sorting by date, latest first, keeps every record and the log order within a date. */
  lemma SortedLatestFirst(fs: seq<FailureRecord>)
    ensures var r := SortBy(fs, DateOf, Later);
      && multiset(r) == multiset(fs)
      && SortedBy(r, DateOf, Later)
      && (forall d :: Select(r, DateOf, d) == Select(fs, DateOf, d))
  {
    LaterStrict();
    SortBySorted(fs, DateOf, Later);
    forall d
      ensures Select(SortBy(fs, DateOf, Later), DateOf, d) == Select(fs, DateOf, d)
    {
      SortByStable(fs, DateOf, Later, d);
    }
  }

  /**
   * The result is the failures, each once, latest date first, failures
   * of one date in log order; each is dated on or after the cutoff and
   * fails by count or message.
   */
  lemma FailedCrawlDatesSpec(log: Option<seq<seq<string>>>, cutoff: string, decode: string -> Option<seq<string>>)
    requires log.Some? && |log.value| > 1
    ensures var fs := Collect(log.value[1..], FailureOfRow(HeaderIndexes(log.value[0]), cutoff, decode));
      var r := FailedCrawlDates(log, cutoff, decode);
      && multiset(r) == multiset(fs)
      && SortedBy(r, DateOf, Later)
      && (forall d :: Select(r, DateOf, d) == Select(fs, DateOf, d))
      && (forall i :: 0 <= i < |r| ==> !StrLess(r[i].date, cutoff) && IsFailure(r[i].failedCount, r[i].message))
  {
    var values := log.value;
    var fs := Collect(values[1..], FailureOfRow(HeaderIndexes(values[0]), cutoff, decode));
    var r := FailedCrawlDates(log, cutoff, decode);
    SortedLatestFirst(fs);
    FailuresOk(values[1..], HeaderIndexes(values[0]), cutoff, decode);
    forall i | 0 <= i < |r|
      ensures !StrLess(r[i].date, cutoff) && IsFailure(r[i].failedCount, r[i].message)
    {
      assert r[i] in multiset(fs);
    }
  }

  /** The imperative `get_failed_crawl_dates`: the header map, the row loop, the sort. */
  method GetFailedCrawlDates(log: Option<seq<seq<string>>>, cutoff: string, decode: string -> Option<seq<string>>)
    returns (records: seq<FailureRecord>)
    ensures records == FailedCrawlDates(log, cutoff, decode)
  {
    if log.None? || |log.value| <= 1 {
      return [];
    }
    var values := log.value;
    var headers := values[0];
    var idx: map<string, nat> := map[];
    for i := 0 to |headers|
      invariant idx == HeaderIndexes(headers[..i])
    {
      assert headers[..i + 1][..i] == headers[..i];
      idx := idx[headers[i] := i];
    }
    assert headers[..|headers|] == headers;
    var rows := values[1..];
    var found: seq<FailureRecord> := [];
    for i := 0 to |rows|
      invariant found == Collect(rows[..i], FailureOfRow(idx, cutoff, decode))
    {
      assert rows[..i + 1][..i] == rows[..i];
      var row := rows[i];
      var executedAt := CellOr(row, ColumnOf(idx, "executed_at", 0), "");
      var countText := CellOr(row, ColumnOf(idx, "failed_count", 3), "0");
      var message := CellOr(row, ColumnOf(idx, "message", 5), "");
      var detailsText := CellOr(row, ColumnOf(idx, "failed_details", 6), "[]");
      var timeSlot := CellOr(row, ColumnOf(idx, "time_slot", 1), "");
      var date := LogDate(executedAt);
      if StrLess(date, cutoff) {
        continue;
      }
      var count := FailedCount(countText);
      if IsFailure(count, message) {
        found := found + [FailureRecord(date, timeSlot, executedAt, count, message, Details(detailsText, decode))];
      }
    }
    assert rows[..|rows|] == rows;
    records := SortBy(found, DateOf, Later);
  }

  // ---------------------------------------------------------------------
  // Dates with no snapshot
  // ---------------------------------------------------------------------

  /** The dates of `targets` outside `have`, in order. */
  function Without(targets: seq<string>, have: set<string>): (r: seq<string>)
    ensures |r| <= |targets|
    ensures forall d :: d in r <==> d in targets && d !in have
  {
    if |targets| == 0 then []
    else
      var init := Without(targets[..|targets| - 1], have);
      assert targets == targets[..|targets| - 1] + [targets[|targets| - 1]];
      if targets[|targets| - 1] in have then init else init + [targets[|targets| - 1]]
  }

  /** The non-empty dates among the history records. */
  function DatesWithData(history: seq<string>): (s: set<string>)
    ensures forall d :: d in s <==> d in history && d != ""
  {
    set d | d in history && d != ""
  }

  /**
   * `get_dates_missing_in_snapshots`: the target dates that no returned
   * snapshot carries; `history` is the date of every record the history
   * query returned, `None` when the query failed.
   */
  function MissingDates(targets: seq<string>, history: Option<seq<string>>): (r: seq<string>)
    ensures |targets| == 0 ==> r == []
    ensures history.None? ==> r == targets
    ensures history.Some? ==> forall d :: d in r <==> d in targets && (d == "" || d !in history.value)
  {
    if |targets| == 0 then []
    else match history
      case None => targets
      case Some(h) => Without(targets, DatesWithData(h))
  }

  /** A date with no data that occurs several times is kept at each occurrence, in order. */
  lemma {:induction false} WithoutKeepsOrder(targets: seq<string>, have: set<string>, i: nat, j: nat)
    requires i < j < |targets| && targets[i] !in have && targets[j] !in have
    ensures exists a, b ::
      && 0 <= a < b < |Without(targets, have)|
      && Without(targets, have)[a] == targets[i]
      && Without(targets, have)[b] == targets[j]
  {
    var a := WithoutAt(targets, have, i);
    var b := WithoutAt(targets, have, j);
    WithoutGrows(targets, have, i, j);
  }

  /** A kept date sits, in the result, after the dates kept before it. */
  lemma {:induction false} WithoutAt(targets: seq<string>, have: set<string>, i: nat) returns (a: nat)
    requires i < |targets| && targets[i] !in have
    ensures a == |Without(targets[..i], have)| && a < |Without(targets, have)| && Without(targets, have)[a] == targets[i]
    decreases |targets|
  {
    var n := |targets| - 1;
    if i < n {
      a := WithoutAt(targets[..n], have, i);
      assert targets[..n][..i] == targets[..i];
      WithoutSnocPrefix(targets, have, a);
    } else {
      a := WithoutAtLast(targets, have);
    }
  }

  /** The last date, when kept, is the last of the result. */
  lemma WithoutAtLast(targets: seq<string>, have: set<string>) returns (a: nat)
    requires |targets| > 0 && targets[|targets| - 1] !in have
    ensures a == |Without(targets[..|targets| - 1], have)| && a < |Without(targets, have)|
    ensures Without(targets, have)[a] == targets[|targets| - 1]
  {
    WithoutSnoc(targets, have);
    a := |Without(targets[..|targets| - 1], have)|;
  }

  /** Positions kept from all but the last date keep their value. */
  lemma WithoutSnocPrefix(targets: seq<string>, have: set<string>, a: nat)
    requires |targets| > 0 && a < |Without(targets[..|targets| - 1], have)|
    ensures a < |Without(targets, have)| && Without(targets, have)[a] == Without(targets[..|targets| - 1], have)[a]
  {
    WithoutSnoc(targets, have);
  }

  /** Keeping a date makes the kept prefix longer from there on. */
  lemma {:induction false} WithoutGrows(targets: seq<string>, have: set<string>, i: nat, j: nat)
    requires i < j <= |targets| && targets[i] !in have
    ensures |Without(targets[..i], have)| < |Without(targets[..j], have)|
    decreases j
  {
    WithoutSnoc(targets[..j], have);
    assert targets[..j][..j - 1] == targets[..j - 1];
    if j > i + 1 {
      WithoutGrows(targets, have, i, j - 1);
    }
  }

  /** The dates kept from a list, from those kept from all but its last. */
  lemma WithoutSnoc(targets: seq<string>, have: set<string>)
    requires |targets| > 0
    ensures var n := |targets| - 1;
      Without(targets, have) == Without(targets[..n], have) + (if targets[n] in have then [] else [targets[n]])
  {
  }

  // ---------------------------------------------------------------------
  // Crawling a past date
  // ---------------------------------------------------------------------

  /** A crawled record with its (possibly absent) date. */
  datatype CrawlRecord = CrawlRecord(date: Option<string>, item: RankItem)

  /** What the crawler reported: a failure with its message, or its records. */
  datatype CrawlOutcome = CrawlError(message: string) | CrawlData(records: seq<CrawlRecord>)

  datatype HistoricalCrawl = HistoricalCrawl(success: bool, date: string, data: seq<CrawlRecord>, totalCrawled: nat)

  /** The records dated `date`, in order. */
  function OfDate(records: seq<CrawlRecord>, date: string): (r: seq<CrawlRecord>)
    ensures |r| <= |records|
    ensures forall x :: x in r <==> x in records && x.date == Some(date)
    ensures forall x: CrawlRecord :: x.date == Some(date) ==> multiset(r)[x] == multiset(records)[x]
  {
    if |records| == 0 then []
    else
      var n := |records| - 1;
      assert records == records[..n] + [records[n]];
      var init := OfDate(records[..n], date);
      if records[n].date == Some(date) then init + [records[n]] else init
  }

  /**
   * `crawl_historical_date`: a failed crawl gives no data; otherwise
   * exactly the crawled records of the target date, in crawl order.
   */
  function CrawlHistorical(target: string, crawl: CrawlOutcome): (c: HistoricalCrawl)
    ensures c.date == target
    ensures !c.success ==> c.data == []
    ensures c.success <==> crawl.CrawlData?
    ensures forall x :: x in c.data ==> x.date == Some(target)
  {
    match crawl
    case CrawlError(_) => HistoricalCrawl(false, target, [], 0)
    case CrawlData(records) => HistoricalCrawl(true, target, OfDate(records, target), |records|)
  }

  /** A successful crawl keeps every record of the target date, as often as the crawl gave it. */
  lemma CrawlHistoricalKeeps(target: string, records: seq<CrawlRecord>, x: CrawlRecord)
    requires x.date == Some(target)
    ensures multiset(CrawlHistorical(target, CrawlData(records)).data)[x] == multiset(records)[x]
  {
  }

  // ---------------------------------------------------------------------
  // The sheets between updates
  // ---------------------------------------------------------------------

  /** The "보장건" tabs of the two sheets (`None` when the tab is missing). */
  datatype Sheets = Sheets(jtwolab: Option<seq<seq<string>>>, ilryu: Option<seq<seq<string>>>)

  /** A tab after the writes of its selective update. */
  function AfterTab(tab: Option<seq<seq<string>>>, r: SelectiveResult): Option<seq<seq<string>>> {
    if tab.Some? && r.Filled? then Some(ApplyWrites(tab.value, r.writes)) else tab
  }

  /** The sheets after a selective run. */
  function AfterRun(s: Sheets, run: SelectiveRun): Sheets {
    match run
    case InvalidDate => s
    case Ran(j, i, _, _) => Sheets(AfterTab(s.jtwolab, j), AfterTab(s.ilryu, i))
  }

  function ItemsOf(data: seq<CrawlRecord>): (items: seq<RankItem>)
    ensures |items| == |data| && forall k :: 0 <= k < |data| ==> items[k] == data[k].item
  {
    if |data| == 0 then [] else ItemsOf(data[..|data| - 1]) + [data[|data| - 1].item]
  }

  /** `update_guarantee_sheets_selective` on the current sheets. */
  function RunSelective(data: seq<CrawlRecord>, date: string, s: Sheets): SelectiveRun {
    SelectiveRunOf(ItemsOf(data), s.jtwolab, s.ilryu, date)
  }

  function UpdatedOf(run: SelectiveRun): nat {
    if run.Ran? then run.totalUpdated else 0
  }

  function SkippedOf(run: SelectiveRun): nat {
    if run.Ran? then run.totalSkippedExisting else 0
  }

  // ---------------------------------------------------------------------
  // recover_failed_crawls
  // ---------------------------------------------------------------------

  /** `list(set(dates))`: each date once (in first-seen order here). */
  function Distinct(dates: seq<string>): (r: seq<string>)
    ensures forall d :: d in r <==> d in dates
    ensures forall a, b :: 0 <= a < b < |r| ==> r[a] != r[b]
  {
    if |dates| == 0 then []
    else
      var n := |dates| - 1;
      assert dates == dates[..n] + [dates[n]];
      var init := Distinct(dates[..n]);
      if dates[n] in init then init else init + [dates[n]]
  }

  function DatesOf(records: seq<FailureRecord>): (r: seq<string>)
    ensures |r| == |records| && forall k :: 0 <= k < |r| ==> r[k] == records[k].date
  {
    if |records| == 0 then [] else DatesOf(records[..|records| - 1]) + [records[|records| - 1].date]
  }

  /** The crawl-and-update loop state after some missing dates. */
  datatype Progress = Progress(crawls: seq<HistoricalCrawl>, updates: seq<SelectiveRun>, totalCrawled: nat, sheets: Sheets)

  /** Whether a crawl result leads to a sheet update. */
  predicate Usable(c: HistoricalCrawl) {
    c.success && c.data != []
  }

  /** A selective update of the sheets with a date's records. */
  type Updater = (seq<CrawlRecord>, string, Sheets) -> SelectiveRun

  /** One missing date: crawl it, and update the sheets when it brought data. */
  function Step(p: Progress, c: HistoricalCrawl, update: Updater): Progress {
    if Usable(c) then
      var run := update(c.data, c.date, p.sheets);
      Progress(p.crawls + [c], p.updates + [run], p.totalCrawled + |c.data|, AfterRun(p.sheets, run))
    else Progress(p.crawls + [c], p.updates, p.totalCrawled, p.sheets)
  }

  /** The loop over the missing dates, the `i`-th crawl reporting `crawlAt(i)`. */
  function Recover(missing: seq<string>, crawlAt: nat -> CrawlOutcome, update: Updater, sheets: Sheets): (p: Progress)
    ensures |p.crawls| == |missing|
    ensures forall k :: 0 <= k < |missing| ==> p.crawls[k] == CrawlHistorical(missing[k], crawlAt(k))
  {
    if |missing| == 0 then Progress([], [], 0, sheets)
    else
      var n := |missing| - 1;
      Step(Recover(missing[..n], crawlAt, update, sheets), CrawlHistorical(missing[n], crawlAt(n)), update)
  }

  function UsableCount(cs: seq<HistoricalCrawl>): nat {
    if |cs| == 0 then 0 else UsableCount(cs[..|cs| - 1]) + (if Usable(cs[|cs| - 1]) then 1 else 0)
  }

  function DataCount(cs: seq<HistoricalCrawl>): nat {
    if |cs| == 0 then 0 else DataCount(cs[..|cs| - 1]) + (if Usable(cs[|cs| - 1]) then |cs[|cs| - 1].data| else 0)
  }

  /** One update per crawl that brought data, and the crawled total is their data. */
  lemma {:induction false} RecoverCounts(missing: seq<string>, crawlAt: nat -> CrawlOutcome, update: Updater, sheets: Sheets)
    ensures var p := Recover(missing, crawlAt, update, sheets);
      |p.updates| == UsableCount(p.crawls) && p.totalCrawled == DataCount(p.crawls)
  {
    if |missing| > 0 {
      var n := |missing| - 1;
      RecoverCounts(missing[..n], crawlAt, update, sheets);
      var p := Recover(missing[..n], crawlAt, update, sheets);
      var c := CrawlHistorical(missing[n], crawlAt(n));
      assert Recover(missing, crawlAt, update, sheets).crawls == p.crawls + [c];
      assert (p.crawls + [c])[..|p.crawls|] == p.crawls;
    }
  }

  /** When no crawl brings data, no sheet is touched. */
  lemma {:induction false} RecoverNoData(missing: seq<string>, crawlAt: nat -> CrawlOutcome, update: Updater, sheets: Sheets)
    requires forall k :: 0 <= k < |missing| ==> !Usable(CrawlHistorical(missing[k], crawlAt(k)))
    ensures Recover(missing, crawlAt, update, sheets).updates == []
    ensures Recover(missing, crawlAt, update, sheets).sheets == sheets
  {
    if |missing| > 0 {
      var n := |missing| - 1;
      RecoverNoData(missing[..n], crawlAt, update, sheets);
    }
  }

  function SumUpdated(runs: seq<SelectiveRun>): nat {
    if |runs| == 0 then 0 else SumUpdated(runs[..|runs| - 1]) + UpdatedOf(runs[|runs| - 1])
  }

  function SumSkipped(runs: seq<SelectiveRun>): nat {
    if |runs| == 0 then 0 else SumSkipped(runs[..|runs| - 1]) + SkippedOf(runs[|runs| - 1])
  }

  datatype Summary =
    | NoFailures
    | AlreadyRecovered
    | Completed(failedDatesCount: nat, missingDatesCount: nat, totalCrawled: nat, totalUpdated: nat, totalSkippedExisting: nat)

  datatype Report = Report(
    failedDates: seq<string>,
    missingDates: seq<string>,
    crawls: seq<HistoricalCrawl>,
    updates: seq<SelectiveRun>,
    summary: Summary,
    sheets: Sheets)

  /**
   * `recover_failed_crawls` on the log's failure records: `history` is
   * the history query's answer for the failed dates and `crawlAt(i)` the
   * crawler's report at the `i`-th crawl.
   */
  function RecoverFailedCrawls(failed: seq<FailureRecord>, history: Option<seq<string>>, crawlAt: nat -> CrawlOutcome, sheets: Sheets): (r: Report)
    ensures r.summary.NoFailures? <==> failed == []
    ensures r.summary.AlreadyRecovered? ==> r.crawls == [] && r.sheets == sheets
    ensures forall d :: d in r.failedDates <==> exists k :: 0 <= k < |failed| && failed[k].date == d
  {
    var failedDates := Distinct(DatesOf(failed));
    if failedDates == [] then Report(failedDates, [], [], [], NoFailures, sheets)
    else
      var missing := MissingDates(failedDates, history);
      if missing == [] then Report(failedDates, missing, [], [], AlreadyRecovered, sheets)
      else
        var p := Recover(missing, crawlAt, RunSelective, sheets);
        Report(failedDates, missing, p.crawls, p.updates,
          Completed(|failedDates|, |missing|, p.totalCrawled, SumUpdated(p.updates), SumSkipped(p.updates)),
          p.sheets)
  }

  /**
   * Every missing date is crawled once, in order; a date with snapshot
   * data is never crawled; the sheets are updated once per crawl that
   * brought data, and the summary adds up their counts.
   */
  lemma RecoverFailedCrawlsSpec(failed: seq<FailureRecord>, history: Option<seq<string>>, crawlAt: nat -> CrawlOutcome, sheets: Sheets)
    ensures var r := RecoverFailedCrawls(failed, history, crawlAt, sheets);
      r.summary.Completed? ==>
        && |r.crawls| == |r.missingDates| == r.summary.missingDatesCount
        && (forall k :: 0 <= k < |r.crawls| ==> r.crawls[k].date == r.missingDates[k])
        && (forall d :: d in r.missingDates ==> d in r.failedDates)
        && (history.Some? ==> forall d :: d in r.missingDates ==> d == "" || d !in history.value)
        && |r.updates| == UsableCount(r.crawls)
        && r.summary.totalCrawled == DataCount(r.crawls)
        && r.summary.totalUpdated == SumUpdated(r.updates)
  {
    var failedDates := Distinct(DatesOf(failed));
    if failedDates != [] {
      var missing := MissingDates(failedDates, history);
      if missing != [] {
        RecoverCounts(missing, crawlAt, RunSelective, sheets);
      }
    }
  }

  /** The crawl-and-update loop of `recover_failed_crawls`. */
  method RecoverLoop(missing: seq<string>, crawlAt: nat -> CrawlOutcome, update: Updater, sheets: Sheets)
    returns (p: Progress)
    ensures p == Recover(missing, crawlAt, update, sheets)
  {
    var crawls: seq<HistoricalCrawl> := [];
    var updates: seq<SelectiveRun> := [];
    var totalCrawled: nat := 0;
    var current := sheets;
    for i := 0 to |missing|
      invariant Progress(crawls, updates, totalCrawled, current) == Recover(missing[..i], crawlAt, update, sheets)
    {
      assert missing[..i + 1][..i] == missing[..i];
      var c := CrawlHistorical(missing[i], crawlAt(i));
      crawls := crawls + [c];
      if c.success && c.data != [] {
        totalCrawled := totalCrawled + |c.data|;
        var run := update(c.data, missing[i], current);
        updates := updates + [run];
        current := AfterRun(current, run);
      }
    }
    assert missing[..|missing|] == missing;
    p := Progress(crawls, updates, totalCrawled, current);
  }

  /** The imperative `recover_failed_crawls`. */
  method RecoverFailedCrawlsLoop(failed: seq<FailureRecord>, history: Option<seq<string>>, crawlAt: nat -> CrawlOutcome, sheets: Sheets)
    returns (r: Report)
    ensures r == RecoverFailedCrawls(failed, history, crawlAt, sheets)
  {
    var failedDates := Distinct(DatesOf(failed));
    if failedDates == [] {
      return Report(failedDates, [], [], [], NoFailures, sheets);
    }
    var missing := MissingDates(failedDates, history);
    if missing == [] {
      return Report(failedDates, missing, [], [], AlreadyRecovered, sheets);
    }
    var p := RecoverLoop(missing, crawlAt, RunSelective, sheets);
    r := Report(failedDates, missing, p.crawls, p.updates,
      Completed(|failedDates|, |missing|, p.totalCrawled, SumUpdated(p.updates), SumSkipped(p.updates)), p.sheets);
  }

  // ---------------------------------------------------------------------
  // recover_specific_date
  // ---------------------------------------------------------------------

  datatype SpecificSummary =
    | CrawlFailed(message: string)
    | NoData
    | Done(crawledCount: nat, updatedCount: nat, skippedExisting: nat)

  datatype SpecificReport = SpecificReport(crawl: HistoricalCrawl, update: Option<SelectiveRun>, summary: SpecificSummary, sheets: Sheets)

  /**
   * `recover_specific_date`: a failed crawl or a crawl with no record of
   * the date stops before any sheet is touched; otherwise one selective
   * update with the date's records.
   */
  function RecoverSpecificDate(target: string, crawl: CrawlOutcome, sheets: Sheets): (r: SpecificReport)
    ensures r.summary.CrawlFailed? <==> crawl.CrawlError?
    ensures r.summary.NoData? <==> crawl.CrawlData? && OfDate(crawl.records, target) == []
    ensures r.update.None? <==> !r.summary.Done?
    ensures !r.summary.Done? ==> r.sheets == sheets
    ensures r.summary.Done? ==>
      && r.summary.crawledCount == |OfDate(crawl.records, target)| > 0
      && r.summary.updatedCount == UpdatedOf(r.update.value)
      && r.summary.skippedExisting == SkippedOf(r.update.value)
  {
    var c := CrawlHistorical(target, crawl);
    if !c.success then SpecificReport(c, None, CrawlFailed(crawl.message), sheets)
    else if c.data == [] then SpecificReport(c, None, NoData, sheets)
    else
      var run := RunSelective(c.data, target, sheets);
      SpecificReport(c, Some(run), Done(|c.data|, UpdatedOf(run), SkippedOf(run)), AfterRun(sheets, run))
  }
}
