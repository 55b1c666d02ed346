/**
 * The daily guarantee-sheet updater: after the afternoon crawl, every
 * eligible row of the "보장건" tab gets today's rank written into the
 * first empty cell of its 25-cell day ledger (or the overflow cell after
 * it), unless the scan meets today's date first. One batch of writes
 * per sheet.
 */
module RankUpdate {
  import opened Common
  import opened Dates
  import opened Ledger

  // ---------------------------------------------------------------------
  // The day-cell scan
  // ---------------------------------------------------------------------

  /**
   * The scan of the window cells from offset `off` on: it stops at the
   * first empty cell, or at the first non-empty cell that holds the
   * date; running off the window means the ledger is full.
   */
  function ScanFrom(cells: seq<string>, date: string, off: nat): (r: Scan)
    requires off <= |cells|
    ensures r.EmptyAt? ==> off <= r.offset < |cells| && cells[r.offset] == ""
    decreases |cells| - off
  {
    if off == |cells| then Full
    else if cells[off] == "" then EmptyAt(off)
    else if Contains(cells[off], date) then Recorded
    else ScanFrom(cells, date, off + 1)
  }

  function DailyScan(row: seq<string>, start: nat, date: string): Scan {
    ScanFrom(Window(row, start), date, 0)
  }

  /** Window cell `j` is filled and does not carry the date. */
  predicate Passed(cells: seq<string>, date: string, j: int) {
    0 <= j < |cells| && cells[j] != "" && !Contains(cells[j], date)
  }

  /** Window cell `j` is filled and carries the date. */
  predicate DatedAt(cells: seq<string>, date: string, j: int) {
    0 <= j < |cells| && cells[j] != "" && Contains(cells[j], date)
  }

  lemma {:induction false} ScanFromSpec(cells: seq<string>, date: string, off: nat)
    requires off <= |cells|
    ensures ScanFrom(cells, date, off).EmptyAt? ==>
      var k := ScanFrom(cells, date, off).offset;
      off <= k < |cells| && cells[k] == "" && forall j :: off <= j < k ==> Passed(cells, date, j)
    ensures ScanFrom(cells, date, off).Recorded? ==>
      exists k :: off <= k < |cells| && DatedAt(cells, date, k) && forall j :: off <= j < k ==> Passed(cells, date, j)
    ensures ScanFrom(cells, date, off).Full? <==> forall j :: off <= j < |cells| ==> Passed(cells, date, j)
    decreases |cells| - off
  {
    if off < |cells| {
      if Passed(cells, date, off) {
        ScanFromSpec(cells, date, off + 1);
        if ScanFrom(cells, date, off + 1).Recorded? {
          var k :| off + 1 <= k < |cells| && DatedAt(cells, date, k) && forall j :: off + 1 <= j < k ==> Passed(cells, date, j);
          assert forall j :: off <= j < k ==> Passed(cells, date, j);
        }
      } else if cells[off] != "" {
        assert DatedAt(cells, date, off);
      }
    }
  }

  /**
   * The inner `for offset in range(MAX_DAILY_COUNT)` loop: `target` is the
   * empty cell found (-1 for none) and `already` says today was met first.
   */
  method ScanDailyCells(row: seq<string>, start: nat, date: string) returns (target: int, already: bool)
    ensures already <==> DailyScan(row, start, date).Recorded?
    ensures target == -1 <==> !DailyScan(row, start, date).EmptyAt?
    ensures target != -1 ==> target == start + DailyScan(row, start, date).offset
  {
    target := -1;
    already := false;
    ghost var w := Window(row, start);
    for offset := 0 to MaxDailyCount
      invariant target == -1 && !already
      invariant DailyScan(row, start, date) == ScanFrom(w, date, offset)
    {
      var checkIdx := start + offset;
      var cellValue := "";
      if checkIdx < |row| {
        cellValue := Strip(row[checkIdx]);
      }
      WindowCell(row, start, offset);
      if cellValue == "" {
        target := checkIdx;
        break;
      }
      if Contains(cellValue, date) {
        already := true;
        break;
      }
    }
  }

  // ---------------------------------------------------------------------
  // One row
  // ---------------------------------------------------------------------

  /** The outcome of a row from its filters and its day-cell scan. */
  function DecideFrom(a: Assessment, scan: Scan, ctx: Context): (o: Outcome)
    ensures !o.AlreadyRecorded?
  {
    match a
    case BadStatus => FilterSkipped
    case AboveGuarantee => RankSkipped
    case Eligible(rank) =>
      (match scan
       case Recorded => RankSkipped
       case EmptyAt(j) => Written(Placement(ctx.dayStart + j, WriteText(ctx.date, rank)))
       case Full => Written(Placement(ctx.dayStart + MaxDailyCount, WriteText(ctx.date, rank))))
    case _ => Ignored
  }

  /** What `_update_sheet` does with one data row. */
  function Decide(row: seq<string>, ctx: Context): (o: Outcome)
    ensures !o.AlreadyRecorded?
  {
    DecideFrom(Assess(row, ctx), DailyScan(row, ctx.dayStart, ctx.date), ctx)
  }

  function DecideFor(ctx: Context): seq<string> -> Outcome {
    row => Decide(row, ctx)
  }

  /**
   * A status miss is counted as filtered; a rank above the guarantee, or
   * today met by the scan, as a rank skip; a row is written exactly when
   * it passes every filter and its scan does not meet today, into the
   * first empty day cell, or the overflow cell when all 25 are filled,
   * with today's date and the rank.
   */
  lemma {:induction false} DecideSpec(row: seq<string>, ctx: Context)
    ensures Decide(row, ctx).FilterSkipped? <==> Assess(row, ctx).BadStatus?
    ensures Decide(row, ctx).RankSkipped? <==>
      Assess(row, ctx).AboveGuarantee? || (Assess(row, ctx).Eligible? && DailyScan(row, ctx.dayStart, ctx.date).Recorded?)
    ensures Decide(row, ctx).Written? <==>
      Assess(row, ctx).Eligible? && !DailyScan(row, ctx.dayStart, ctx.date).Recorded?
    ensures Decide(row, ctx).Written? ==>
      var p := Decide(row, ctx).p;
      && p.value == WriteText(ctx.date, Assess(row, ctx).rank)
      && ctx.dayStart <= p.idx <= ctx.dayStart + MaxDailyCount
      && (p.idx < ctx.dayStart + MaxDailyCount ==> Cell(row, p.idx) == "")
      && (p.idx == ctx.dayStart + MaxDailyCount <==> DailyScan(row, ctx.dayStart, ctx.date).Full?)
    ensures !Decide(row, ctx).AlreadyRecorded?
  {
    var a := Assess(row, ctx);
    var scan := DailyScan(row, ctx.dayStart, ctx.date);
    DecideFromCases(a, scan, ctx);
    if a.Eligible? && scan.EmptyAt? {
      WindowCell(row, ctx.dayStart, scan.offset);
    }
  }

  /** The outcome by the cases of the filters and the scan. */
  lemma DecideFromCases(a: Assessment, scan: Scan, ctx: Context)
    ensures DecideFrom(a, scan, ctx).FilterSkipped? <==> a.BadStatus?
    ensures DecideFrom(a, scan, ctx).RankSkipped? <==> a.AboveGuarantee? || (a.Eligible? && scan.Recorded?)
    ensures DecideFrom(a, scan, ctx).Written? <==> a.Eligible? && !scan.Recorded?
    ensures a.Eligible? && scan.EmptyAt? ==>
      DecideFrom(a, scan, ctx) == Written(Placement(ctx.dayStart + scan.offset, WriteText(ctx.date, a.rank)))
    ensures a.Eligible? && scan.Full? ==>
      DecideFrom(a, scan, ctx) == Written(Placement(ctx.dayStart + MaxDailyCount, WriteText(ctx.date, a.rank)))
  {
  }

  // ---------------------------------------------------------------------
  // One sheet
  // ---------------------------------------------------------------------

  datatype SheetError = InsufficientRows | MissingHeaders(missing: seq<string>) | TabNotFound

  /** The dict `_update_sheet` returns; `updated` is `len(updates)`. */
  datatype SheetResult =
    | Failed(error: SheetError)
    | Updated(matched: nat, skippedRank: nat, skippedFilter: nat, updated: nat, writes: seq<CellWrite>)

  /** What the header row (the second sheet row) fixes for every data row. */
  function ContextOf(values: seq<seq<string>>, byPlace: map<string, RankItem>, byName: map<string, RankItem>, date: string): Context
    requires |values| >= 2
  {
    Context(Columns(values[1]), DayStart(values[1]), date, byPlace, byName)
  }

  /** `_update_sheet` on the values of the "보장건" tab. */
  function SheetUpdate(values: seq<seq<string>>, byPlace: map<string, RankItem>, byName: map<string, RankItem>, date: string): SheetResult {
    if |values| <= 1 then Failed(InsufficientRows)
    else
      var missing := MissingColumns(Columns(values[1]));
      if missing != [] then Failed(MissingHeaders(missing))
      else
        var t := TallyOf(values[2..], DecideFor(ContextOf(values, byPlace, byName, date)));
        Updated(t.matched, t.skippedRank, t.skippedFilter, |t.writes|, t.writes)
  }

  /**
   * The outcome of one sheet: an error with no writes when the header
   * row is missing or lacks a required column; otherwise `matched ==
   * updated == len(writes)`, no data row is counted twice, and the batch
   * holds the placement of every written row, in row order.
   */
  lemma {:induction false} SheetUpdateSpec(values: seq<seq<string>>, byPlace: map<string, RankItem>, byName: map<string, RankItem>, date: string)
    ensures SheetUpdate(values, byPlace, byName, date).Failed? <==>
      |values| <= 1 || MissingColumns(Columns(values[1])) != []
    ensures SheetUpdate(values, byPlace, byName, date).Updated? ==>
      var r := SheetUpdate(values, byPlace, byName, date);
      var ctx := ContextOf(values, byPlace, byName, date);
      && r.matched == r.updated == |r.writes|
      && r.matched + r.skippedRank + r.skippedFilter <= |values| - 2
      && r.writes == WritesOf(values[2..], PlacementOf(DecideFor(ctx)))
  {
    if |values| > 1 && MissingColumns(Columns(values[1])) == [] {
      TallyOfSpec(values[2..], DecideFor(ContextOf(values, byPlace, byName, date)));
    }
  }

  /** The row passed every filter and `value` is today's date with its rank. */
  predicate RankWrite(row: seq<string>, ctx: Context, value: string) {
    Assess(row, ctx).Eligible? && value == WriteText(ctx.date, Assess(row, ctx).rank)
  }

  /**
   * A write of the batch (see `SheetUpdateSpec`) lands on a data row that
   * passed every filter, in that row's ledger window or its overflow
   * cell, with today's date and the rank.
   */
  lemma {:induction false} SheetWriteTargets(rows: seq<seq<string>>, ctx: Context, k: nat)
    requires k < |WritesOf(rows, PlacementOf(DecideFor(ctx)))|
    ensures var w := WritesOf(rows, PlacementOf(DecideFor(ctx)))[k];
      && 3 <= w.row <= |rows| + 2
      && ctx.dayStart + 1 <= w.col <= ctx.dayStart + MaxDailyCount + 1
      && RankWrite(rows[w.row - 3], ctx, w.value)
  {
    WritesOfTargets(rows, PlacementOf(DecideFor(ctx)), k);
    var w := WritesOf(rows, PlacementOf(DecideFor(ctx)))[k];
    DecideSpec(rows[w.row - 3], ctx);
  }

  /**
   * The body of the row loop of `_update_sheet`: the filters, then the
   * scan of the day cells, then the cell to write.
   */
  method DecideRow(row: seq<string>, ctx: Context) returns (o: Outcome)
    ensures o == Decide(row, ctx)
  {
    var assessment := Assess(row, ctx);
    assert Decide(row, ctx) == DecideFrom(assessment, DailyScan(row, ctx.dayStart, ctx.date), ctx);
    if assessment.Eligible? {
      o := PlaceDaily(row, ctx, assessment.rank);
    } else if assessment.BadStatus? {
      o := FilterSkipped;
    } else if assessment.AboveGuarantee? {
      o := RankSkipped;
    } else {
      o := Ignored;
    }
  }

  /** The scan and the write of a row that passed every filter. */
  method PlaceDaily(row: seq<string>, ctx: Context, rank: int) returns (o: Outcome)
    ensures o == DecideFrom(Eligible(rank), DailyScan(row, ctx.dayStart, ctx.date), ctx)
  {
    var target, already := ScanDailyCells(row, ctx.dayStart, ctx.date);
    if already {
      return RankSkipped;
    }
    if target == -1 {
      target := ctx.dayStart + MaxDailyCount;
    }
    o := Written(Placement(target, WriteText(ctx.date, rank)));
  }

  /**
   * The imperative `_update_sheet`: the header row, then the row loop.
   */
  method UpdateSheet(values: seq<seq<string>>, byPlace: map<string, RankItem>, byName: map<string, RankItem>, date: string)
    returns (res: SheetResult)
    ensures res == SheetUpdate(values, byPlace, byName, date)
  {
    if |values| <= 1 {
      return Failed(InsufficientRows);
    }
    var cols, dayStart := MapHeaders(values[1]);
    var missing := MissingColumns(cols);
    if missing != [] {
      return Failed(MissingHeaders(missing));
    }
    var ctx := Context(cols, dayStart, date, byPlace, byName);
    var t := CountRows(values[2..], DecideFor(ctx));
    res := Updated(t.matched, t.skippedRank, t.skippedFilter, |t.writes|, t.writes);
  }

  // ---------------------------------------------------------------------
  // Running twice on the same day
  // ---------------------------------------------------------------------

  /** The day ledger and its overflow cell hold no mapped column. */
  predicate LedgerClear(ctx: Context) {
    forall c :: c in ctx.cols ==> !(ctx.dayStart <= ctx.cols[c] <= ctx.dayStart + MaxDailyCount)
  }

  /** Filling the empty cell the scan stopped at with text carrying the date makes the scan meet the date. */
  lemma {:induction false} ScanAfterFill(cells: seq<string>, date: string, off: nat, v: string)
    requires off <= |cells| && ScanFrom(cells, date, off).EmptyAt?
    requires v != "" && Contains(v, date)
    ensures ScanFrom(cells[ScanFrom(cells, date, off).offset := v], date, off) == Recorded
    decreases |cells| - off
  {
    var k := ScanFrom(cells, date, off).offset;
    if off != k {
      ScanAfterFill(cells, date, off + 1, v);
    }
  }

  /**
   * A written row, looked at again on the same day, either meets today's
   * date in its ledger (and is skipped) or, for a full ledger, is placed
   * in the same overflow cell with the same text.
   */
  lemma {:induction false} DecideAfterWrite(row: seq<string>, ctx: Context)
    requires LedgerClear(ctx) && DateTextOk(ctx.date)
    requires Decide(row, ctx).Written?
    ensures var p := Decide(row, ctx).p;
      var row' := SetCell(row, p.idx, p.value);
      Decide(row', ctx) == RankSkipped || Decide(row', ctx) == Written(p)
  {
    var p := Decide(row, ctx).p;
    var row' := SetCell(row, p.idx, p.value);
    var a := Assess(row, ctx);
    var scan := DailyScan(row, ctx.dayStart, ctx.date);
    assert Decide(row, ctx) == DecideFrom(a, scan, ctx);
    assert forall c :: c in ctx.cols ==> ctx.cols[c] != p.idx;
    AssessAfterSet(row, ctx, p.idx, p.value);
    if scan.EmptyAt? {
      WriteTextReadsBack(ctx.date, a.rank);
      ScanAfterWrite(row, ctx.dayStart, ctx.date, p.value);
    } else {
      WindowOutside(row, ctx.dayStart, p.idx, p.value);
    }
    DecideFromAgain(a, scan, DailyScan(row', ctx.dayStart, ctx.date), ctx);
  }

  /** Writing text with the date into the empty cell the scan stopped at makes the scan meet the date. */
  lemma ScanAfterWrite(row: seq<string>, start: nat, date: string, v: string)
    requires DailyScan(row, start, date).EmptyAt?
    requires v != "" && Contains(v, date) && Strip(v) == v
    ensures DailyScan(SetCell(row, start + DailyScan(row, start, date).offset, v), start, date) == Recorded
  {
    var k := DailyScan(row, start, date).offset;
    WindowAfterSet(row, start, k, v);
    ScanAfterFill(Window(row, start), date, 0, v);
  }

  /** A written row whose scan now meets the date, or is unchanged, is skipped or placed as before. */
  lemma DecideFromAgain(a: Assessment, scan: Scan, scan': Scan, ctx: Context)
    requires DecideFrom(a, scan, ctx).Written?
    requires scan' == Recorded || scan' == scan
    ensures DecideFrom(a, scan', ctx) == RankSkipped || DecideFrom(a, scan', ctx) == DecideFrom(a, scan, ctx)
  {
  }

  lemma {:induction false} RowStable(row: seq<string>, ctx: Context)
    requires LedgerClear(ctx) && DateTextOk(ctx.date)
    ensures var place := PlacementOf(DecideFor(ctx));
      var r' := AfterRow(row, place(row));
      AfterRow(r', place(r')) == r'
  {
    if Decide(row, ctx).Written? {
      DecideAfterWrite(row, ctx);
    }
    RewriteStable(row, DecideFor(ctx));
  }

  /**
   * Running the updater a second time on the same day, after its first
   * batch was written, leaves the sheet as it is: every written row now
   * shows today's date, except full ledgers, whose overflow cell is
   * written again with the same text. This needs the ledger and its
   * overflow cell to hold no mapped column, and a date text that strip()
   * keeps, as `"%y. %m. %d"` is.
   */
  lemma {:induction false} UpdateIdempotent(values: seq<seq<string>>, byPlace: map<string, RankItem>, byName: map<string, RankItem>, date: string)
    requires SheetUpdate(values, byPlace, byName, date).Updated?
    requires LedgerClear(ContextOf(values, byPlace, byName, date)) && DateTextOk(date)
    ensures var once := ApplyWrites(values, SheetUpdate(values, byPlace, byName, date).writes);
      && SheetUpdate(once, byPlace, byName, date).Updated?
      && ApplyWrites(once, SheetUpdate(once, byPlace, byName, date).writes) == once
  {
    var ctx := ContextOf(values, byPlace, byName, date);
    var place := PlacementOf(DecideFor(ctx));
    SheetUpdateSpec(values, byPlace, byName, date);
    ApplyWritesOf(values, place);
    var once := ApplyWrites(values, SheetUpdate(values, byPlace, byName, date).writes);
    assert once == values[..2] + AfterRows(values[2..], place);
    assert once[1] == values[1] && once[2..] == AfterRows(values[2..], place);
    assert ContextOf(once, byPlace, byName, date) == ctx;
    SheetUpdateSpec(once, byPlace, byName, date);
    ApplyWritesOf(once, place);
    var rows := values[2..];
    forall i | 0 <= i < |rows|
      ensures var r' := AfterRow(rows[i], place(rows[i])); AfterRow(r', place(r')) == r'
    {
      RowStable(rows[i], ctx);
    }
    AfterRowsStable(rows, place);
    assert once[..2] == values[..2];
  }

  // ---------------------------------------------------------------------
  // Both sheets
  // ---------------------------------------------------------------------

  /** A sheet whose "보장건" tab may be missing. */
  function TabUpdate(tab: Option<seq<seq<string>>>, byPlace: map<string, RankItem>, byName: map<string, RankItem>, date: string): SheetResult {
    match tab
    case None => Failed(TabNotFound)
    case Some(values) => SheetUpdate(values, byPlace, byName, date)
  }

  /**
   * `update_all_sheets`: one pair of indexes built from the rank records,
   * then each of the two sheets updated with today's `"%y. %m. %d"`.
   */
  method UpdateAllSheets(items: seq<RankItem>, jtwolab: Option<seq<seq<string>>>, ilryu: Option<seq<seq<string>>>, today: Date)
    returns (jtwolabResult: SheetResult, ilryuResult: SheetResult)
    requires ValidDate(today)
    ensures jtwolabResult == TabUpdate(jtwolab, IndexBy(items, PlaceKey), IndexBy(items, NameKey), SheetDate(today))
    ensures ilryuResult == TabUpdate(ilryu, IndexBy(items, PlaceKey), IndexBy(items, NameKey), SheetDate(today))
  {
    var byPlace, byName := BuildRankIndexes(items);
    var date := SheetDate(today);
    jtwolabResult := Failed(TabNotFound);
    if jtwolab.Some? {
      jtwolabResult := UpdateSheet(jtwolab.value, byPlace, byName, date);
    }
    ilryuResult := Failed(TabNotFound);
    if ilryu.Some? {
      ilryuResult := UpdateSheet(ilryu.value, byPlace, byName, date);
    }
  }

  function UpdatedCount(r: SheetResult): nat {
    if r.Updated? then r.updated else 0
  }

  datatype SnapshotUpdate = NoDataForToday | Done(jtwolab: SheetResult, ilryu: SheetResult, totalUpdated: nat)

  /**
   * `update_guarantee_sheets_from_snapshots`, given today's snapshot
   * records: nothing is written when there are none; otherwise both
   * sheets are updated and the total counts the cells written in both.
   */
  function FromSnapshots(history: seq<RankItem>, jtwolab: Option<seq<seq<string>>>, ilryu: Option<seq<seq<string>>>, today: Date): (r: SnapshotUpdate)
    requires ValidDate(today)
    ensures r.NoDataForToday? <==> history == []
    ensures r.Done? ==> r.totalUpdated == UpdatedCount(r.jtwolab) + UpdatedCount(r.ilryu)
  {
    if history == [] then NoDataForToday
    else
      var byPlace, byName := IndexBy(history, PlaceKey), IndexBy(history, NameKey);
      var j := TabUpdate(jtwolab, byPlace, byName, SheetDate(today));
      var i := TabUpdate(ilryu, byPlace, byName, SheetDate(today));
      Done(j, i, UpdatedCount(j) + UpdatedCount(i))
  }
}
