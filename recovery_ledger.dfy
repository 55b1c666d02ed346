/**
 * The selective guarantee-sheet updater used by crawl recovery: it writes
 * the ranks of a past date into the same 25-cell day ledgers as the daily
 * updater, but skips every row whose ledger already holds that date in
 * any filled cell (a manager may have typed it in by hand), and otherwise
 * fills the first empty cell.
 */
module RecoveryLedger {
  import opened Common
  import opened Dates
  import opened Ledger
  import opened RankUpdate

  // ---------------------------------------------------------------------
  // The selective scan
  // ---------------------------------------------------------------------

  /**
   * The scan of the window cells from offset `off` on, `first` being the
   * first empty cell met so far: an empty cell is remembered if it is the
   * first and passed over; a filled cell that holds the date stops the
   * scan; at the end of the window the first empty cell is the target,
   * and without one the ledger is full.
   */
  function SelectiveFrom(cells: seq<string>, date: string, off: nat, first: Option<nat>): (r: Scan)
    requires off <= |cells|
    requires first.Some? ==> first.value < off && cells[first.value] == ""
    ensures r.EmptyAt? ==> r.offset < |cells| && cells[r.offset] == ""
    decreases |cells| - off
  {
    if off == |cells| then (if first.Some? then EmptyAt(first.value) else Full)
    else if cells[off] == "" then SelectiveFrom(cells, date, off + 1, if first.None? then Some(off) else first)
    else if Contains(cells[off], date) then Recorded
    else SelectiveFrom(cells, date, off + 1, first)
  }

  /** One step of the scan, at offset `off`. */
  lemma SelectiveFromStep(cells: seq<string>, date: string, off: nat, first: Option<nat>)
    requires off < |cells|
    requires first.Some? ==> first.value < off && cells[first.value] == ""
    ensures cells[off] == "" ==>
      SelectiveFrom(cells, date, off, first) == SelectiveFrom(cells, date, off + 1, if first.None? then Some(off) else first)
    ensures cells[off] != "" && Contains(cells[off], date) ==> SelectiveFrom(cells, date, off, first) == Recorded
    ensures cells[off] != "" && !Contains(cells[off], date) ==>
      SelectiveFrom(cells, date, off, first) == SelectiveFrom(cells, date, off + 1, first)
  {
  }

  function SelectiveCells(cells: seq<string>, date: string): Scan {
    SelectiveFrom(cells, date, 0, None)
  }

  function SelectiveScan(row: seq<string>, start: nat, date: string): Scan {
    SelectiveCells(Window(row, start), date)
  }

  lemma {:induction false} SelectiveFromSpec(cells: seq<string>, date: string, off: nat, first: Option<nat>)
    requires off <= |cells|
    requires first.Some? ==> first.value < off && cells[first.value] == ""
    ensures var r := SelectiveFrom(cells, date, off, first);
      && (r.Recorded? <==> exists j :: off <= j < |cells| && DatedAt(cells, date, j))
      && (r.EmptyAt? && first.Some? ==> r.offset == first.value)
      && (r.EmptyAt? && first.None? ==> off <= r.offset && forall j :: off <= j < r.offset ==> cells[j] != "")
      && (r.Full? <==> first.None? && forall j :: off <= j < |cells| ==> Passed(cells, date, j))
    decreases |cells| - off
  {
    if off < |cells| {
      if cells[off] == "" {
        SelectiveFromSpec(cells, date, off + 1, if first.None? then Some(off) else first);
        assert !Passed(cells, date, off) && !DatedAt(cells, date, off);
      } else if Contains(cells[off], date) {
        assert off <= off < |cells| && DatedAt(cells, date, off);
        assert !Passed(cells, date, off);
      } else {
        SelectiveFromSpec(cells, date, off + 1, first);
        assert Passed(cells, date, off) && !DatedAt(cells, date, off);
      }
    }
  }

  /**
   * The selective scan reports the date exactly when some filled cell
   * holds it, wherever that cell is; otherwise it reports the first empty
   * cell, or a full ledger when every cell is filled.
   */
  lemma SelectiveCellsSpec(cells: seq<string>, date: string)
    ensures SelectiveCells(cells, date).Recorded? <==> exists j :: 0 <= j < |cells| && DatedAt(cells, date, j)
    ensures SelectiveCells(cells, date).EmptyAt? ==>
      forall j :: 0 <= j < SelectiveCells(cells, date).offset ==> cells[j] != ""
    ensures SelectiveCells(cells, date).Full? <==> forall j :: 0 <= j < |cells| ==> Passed(cells, date, j)
  {
    SelectiveFromSpec(cells, date, 0, None);
  }

  /**
   * The two scans part ways only when a filled cell after the first
   * empty one holds the date: the daily scan stops at the empty cell,
   * the selective scan reports the date. Otherwise they agree.
   */
  lemma {:induction false} ScansAgree(cells: seq<string>, date: string)
    ensures ScanFrom(cells, date, 0).Recorded? ==> SelectiveCells(cells, date).Recorded?
    ensures ScanFrom(cells, date, 0).Full? ==> SelectiveCells(cells, date).Full?
    ensures ScanFrom(cells, date, 0).EmptyAt? ==>
      var k := ScanFrom(cells, date, 0).offset;
      SelectiveCells(cells, date) ==
        if exists j :: k < j < |cells| && DatedAt(cells, date, j) then Recorded else EmptyAt(k)
  {
    ScanFromSpec(cells, date, 0);
    SelectiveCellsSpec(cells, date);
    var daily := ScanFrom(cells, date, 0);
    var sel := SelectiveCells(cells, date);
    if daily.EmptyAt? {
      var k := daily.offset;
      if !exists j :: k < j < |cells| && DatedAt(cells, date, j) {
        assert !DatedAt(cells, date, k);
        forall j | 0 <= j < k
          ensures !DatedAt(cells, date, j)
        {
          assert Passed(cells, date, j);
        }
        assert !exists j :: 0 <= j < |cells| && DatedAt(cells, date, j);
        assert !sel.Full? by {
          assert !Passed(cells, date, k);
        }
        var k' := sel.offset;
        assert cells[k'] == "";
        assert k' < k ==> Passed(cells, date, k');
        assert k <= k';
        assert cells[k] == "";
        assert k' == k;
      }
    }
  }

  /** A date written after the first empty cell: the daily scan misses it, the selective scan sees it. */
  lemma LateDateWitness(date: string)
    requires date != ""
    ensures var cells := [""] + [date] + seq(MaxDailyCount - 2, _ => "x");
      ScanFrom(cells, date, 0) == EmptyAt(0) && SelectiveCells(cells, date) == Recorded
  {
    var cells := [""] + [date] + seq(MaxDailyCount - 2, _ => "x");
    assert IsAt(cells[1], date, 0);
    SelectiveCellsSpec(cells, date);
    assert DatedAt(cells, date, 1);
  }

  /**
   * The inner `for offset in range(MAX_DAILY_COUNT)` loop of
   * `_update_sheet_selective`: `target` is the first empty cell (-1 for
   * none) and `alreadyExists` says a filled cell holds the date.
   */
  method ScanSelectiveCells(row: seq<string>, start: nat, date: string) returns (target: int, alreadyExists: bool)
    ensures alreadyExists <==> SelectiveScan(row, start, date).Recorded?
    ensures !alreadyExists ==> (target == -1 <==> SelectiveScan(row, start, date).Full?)
    ensures !alreadyExists && target != -1 ==> target == start + SelectiveScan(row, start, date).offset
  {
    ghost var w := Window(row, start);
    forall k | start <= k < start + MaxDailyCount
      ensures w[k - start] == Cell(row, k)
    {
      WindowCell(row, start, k - start);
    }
    target, alreadyExists := ScanWindow(row, start, date, w);
  }

  /** The loop itself, over the window `w` of the row's day cells. */
  method ScanWindow(row: seq<string>, start: nat, date: string, ghost w: seq<string>) returns (target: int, alreadyExists: bool)
    requires |w| == MaxDailyCount
    requires forall k :: start <= k < start + MaxDailyCount ==> w[k - start] == Cell(row, k)
    ensures alreadyExists <==> SelectiveCells(w, date).Recorded?
    ensures !alreadyExists ==> (target == -1 <==> SelectiveCells(w, date).Full?)
    ensures !alreadyExists && target != -1 ==> target == start + SelectiveCells(w, date).offset
  {
    target := -1;
    alreadyExists := false;
    ghost var first: Option<nat> := None;
    for offset := 0 to MaxDailyCount
      invariant !alreadyExists
      invariant first.Some? ==> first.value < offset && w[first.value] == ""
      invariant target == if first.None? then -1 else start + first.value
      invariant SelectiveCells(w, date) == SelectiveFrom(w, date, offset, first)
    {
      var checkIdx := start + offset;
      var cellValue := Cell(row, checkIdx);
      assert cellValue == w[offset];
      SelectiveFromStep(w, date, offset, first);
      if cellValue == "" {
        if target == -1 {
          target := checkIdx;
          first := Some(offset);
        }
        continue;
      }
      if Contains(cellValue, date) {
        alreadyExists := true;
        break;
      }
    }
  }

  // ---------------------------------------------------------------------
  // One row
  // ---------------------------------------------------------------------

  /**
   * The outcome of a row: a status miss is dropped without a count, a
   * rank above the guarantee is a rank skip, a ledger already holding the
   * date is an existing-entry skip, and otherwise the first empty cell
   * (or the overflow cell) is written.
   */
  function SelectiveFromScan(a: Assessment, scan: Scan, ctx: Context): (o: Outcome)
    ensures !o.FilterSkipped?
  {
    match a
    case AboveGuarantee => RankSkipped
    case Eligible(rank) =>
      (match scan
       case Recorded => AlreadyRecorded
       case EmptyAt(j) => Written(Placement(ctx.dayStart + j, WriteText(ctx.date, rank)))
       case Full => Written(Placement(ctx.dayStart + MaxDailyCount, WriteText(ctx.date, rank))))
    case _ => Ignored
  }

  /** What `_update_sheet_selective` does with one data row. */
  function Selective(row: seq<string>, ctx: Context): (o: Outcome)
    ensures !o.FilterSkipped?
  {
    SelectiveFromScan(Assess(row, ctx), SelectiveScan(row, ctx.dayStart, ctx.date), ctx)
  }

  function SelectiveFor(ctx: Context): seq<string> -> Outcome {
    row => Selective(row, ctx)
  }

  /** No filled cell of the row's ledger holds the date. */
  predicate NoDateInLedger(row: seq<string>, ctx: Context) {
    NoDateIn(Window(row, ctx.dayStart), ctx.date)
  }

  /** No filled cell of `w` holds the date. */
  predicate NoDateIn(w: seq<string>, date: string) {
    forall j :: 0 <= j < |w| ==> !DatedAt(w, date, j)
  }

  /**
   * A row is written exactly when it passes every filter and no filled
   * cell of its ledger holds the date; the text is the date and the
   * rank, and the cell is the first empty one, or the overflow cell when
   * all 25 are filled. A row whose ledger holds the date is counted as an
   * existing entry; no status miss is counted.
   */
  lemma {:induction false} SelectiveSpec(row: seq<string>, ctx: Context)
    ensures Selective(row, ctx).AlreadyRecorded? <==> Assess(row, ctx).Eligible? && !NoDateInLedger(row, ctx)
    ensures Selective(row, ctx).RankSkipped? <==> Assess(row, ctx).AboveGuarantee?
    ensures !Selective(row, ctx).FilterSkipped?
    ensures Selective(row, ctx).Written? <==> Assess(row, ctx).Eligible? && NoDateInLedger(row, ctx)
    ensures Selective(row, ctx).Written? ==>
      var p := Selective(row, ctx).p;
      && RankWrite(row, ctx, p.value)
      && ctx.dayStart <= p.idx <= ctx.dayStart + MaxDailyCount
      && (p.idx < ctx.dayStart + MaxDailyCount ==> Cell(row, p.idx) == "")
  {
    var a := Assess(row, ctx);
    var scan := SelectiveScan(row, ctx.dayStart, ctx.date);
    var o := SelectiveFromScan(a, scan, ctx);
    assert Selective(row, ctx) == o;
    NoDateScan(row, ctx);
    FromScanCases(a, scan, ctx);
    if o.Written? {
      WrittenCases(a, scan, ctx, o.p);
      if scan.EmptyAt? {
        SelectiveEmptyCell(row, ctx);
      }
    }
  }

  /** The outcome's kind, from the assessment and the scan alone. */
  lemma FromScanCases(a: Assessment, scan: Scan, ctx: Context)
    ensures SelectiveFromScan(a, scan, ctx).AlreadyRecorded? <==> a.Eligible? && scan.Recorded?
    ensures SelectiveFromScan(a, scan, ctx).RankSkipped? <==> a.AboveGuarantee?
    ensures SelectiveFromScan(a, scan, ctx).Written? <==> a.Eligible? && !scan.Recorded?
  {
  }

  /** The selective scan reports the date iff some filled ledger cell holds it. */
  lemma NoDateScan(row: seq<string>, ctx: Context)
    ensures NoDateInLedger(row, ctx) <==> !SelectiveScan(row, ctx.dayStart, ctx.date).Recorded?
  {
    SelectiveCellsSpec(Window(row, ctx.dayStart), ctx.date);
  }

  /** The empty cell the selective scan finds is an empty cell of the row. */
  lemma SelectiveEmptyCell(row: seq<string>, ctx: Context)
    requires SelectiveScan(row, ctx.dayStart, ctx.date).EmptyAt?
    ensures SelectiveScan(row, ctx.dayStart, ctx.date).offset < MaxDailyCount
    ensures Cell(row, ctx.dayStart + SelectiveScan(row, ctx.dayStart, ctx.date).offset) == ""
  {
    var w := Window(row, ctx.dayStart);
    var j := SelectiveScan(row, ctx.dayStart, ctx.date).offset;
    SelectiveFromSpec(w, ctx.date, 0, None);
    WindowCell(row, ctx.dayStart, j);
  }

  /** The two outcome rules, on one assessment and the two scans. */
  lemma OutcomesAgree(a: Assessment, daily: Scan, sel: Scan, ctx: Context)
    ensures sel == daily ==> Placed(SelectiveFromScan(a, sel, ctx)) == Placed(DecideFrom(a, daily, ctx))
    ensures daily.EmptyAt? && sel.Recorded? && a.Eligible? ==>
      DecideFrom(a, daily, ctx).Written? && SelectiveFromScan(a, sel, ctx) == AlreadyRecorded
  {
  }

  /**
   * The daily updater and the selective one place a row in the same cell
   * with the same text unless a filled cell after the first empty one
   * holds the date; for such a row that passes every filter the daily
   * updater writes and the selective one skips.
   */
  lemma {:induction false} SelectiveAgreesWithDaily(row: seq<string>, ctx: Context)
    ensures !LateDate(row, ctx) ==> PlacementOf(SelectiveFor(ctx))(row) == PlacementOf(DecideFor(ctx))(row)
    ensures LateDate(row, ctx) && Assess(row, ctx).Eligible? ==>
      Decide(row, ctx).Written? && Selective(row, ctx) == AlreadyRecorded
  {
    var a := Assess(row, ctx);
    var daily := DailyScan(row, ctx.dayStart, ctx.date);
    var sel := SelectiveScan(row, ctx.dayStart, ctx.date);
    ScansAgree(Window(row, ctx.dayStart), ctx.date);
    assert !LateDate(row, ctx) ==> sel == daily;
    OutcomesAgree(a, daily, sel, ctx);
  }

  /** A filled ledger cell after the first empty one holds the date. */
  predicate LateDate(row: seq<string>, ctx: Context) {
    var w := Window(row, ctx.dayStart);
    var daily := DailyScan(row, ctx.dayStart, ctx.date);
    daily.EmptyAt? && exists j :: daily.offset < j < |w| && DatedAt(w, ctx.date, j)
  }

  /**
   * The body of the row loop of `_update_sheet_selective`.
   */
  method SelectiveRow(row: seq<string>, ctx: Context) returns (o: Outcome)
    ensures o == Selective(row, ctx)
  {
    var assessment := Assess(row, ctx);
    assert Selective(row, ctx) == SelectiveFromScan(assessment, SelectiveScan(row, ctx.dayStart, ctx.date), ctx);
    if assessment.AboveGuarantee? {
      o := RankSkipped;
    } else if assessment.Eligible? {
      o := PlaceSelective(row, ctx, assessment.rank);
    } else {
      o := Ignored;
    }
  }

  /** The scan and the write of a row that passed every filter. */
  method PlaceSelective(row: seq<string>, ctx: Context, rank: int) returns (o: Outcome)
    ensures o == SelectiveFromScan(Eligible(rank), SelectiveScan(row, ctx.dayStart, ctx.date), ctx)
  {
    var target, alreadyExists := ScanSelectiveCells(row, ctx.dayStart, ctx.date);
    if alreadyExists {
      return AlreadyRecorded;
    }
    if target == -1 {
      target := ctx.dayStart + MaxDailyCount;
    }
    o := Written(Placement(target, WriteText(ctx.date, rank)));
  }

  // ---------------------------------------------------------------------
  // One sheet
  // ---------------------------------------------------------------------

  /** The dict `_update_sheet_selective` returns; `updated` is `len(updates)`. */
  datatype SelectiveResult =
    | SheetFailed(error: SheetError)
    | Filled(matched: nat, updated: nat, skippedExisting: nat, skippedRank: nat, writes: seq<CellWrite>)

  /** `_update_sheet_selective` on the values of the "보장건" tab. */
  function SelectiveUpdate(values: seq<seq<string>>, byPlace: map<string, RankItem>, byName: map<string, RankItem>, date: string): SelectiveResult {
    if |values| <= 1 then SheetFailed(InsufficientRows)
    else
      var missing := MissingColumns(Columns(values[1]));
      if missing != [] then SheetFailed(MissingHeaders(missing))
      else
        var t := TallyOf(values[2..], SelectiveFor(ContextOf(values, byPlace, byName, date)));
        Filled(t.matched, |t.writes|, t.skippedExisting, t.skippedRank, t.writes)
  }

  /**
   * The outcome of one sheet: an error with no writes when the header
   * row is missing or lacks a required column; otherwise `matched ==
   * updated == len(writes)`, no data row is counted twice, and the batch
   * holds the placement of every written row, in row order.
   */
  lemma {:induction false} SelectiveUpdateSpec(values: seq<seq<string>>, byPlace: map<string, RankItem>, byName: map<string, RankItem>, date: string)
    ensures SelectiveUpdate(values, byPlace, byName, date).SheetFailed? <==>
      |values| <= 1 || MissingColumns(Columns(values[1])) != []
    ensures SelectiveUpdate(values, byPlace, byName, date).Filled? ==>
      var r := SelectiveUpdate(values, byPlace, byName, date);
      var ctx := ContextOf(values, byPlace, byName, date);
      && r.matched == r.updated == |r.writes|
      && r.matched + r.skippedRank + r.skippedExisting <= |values| - 2
      && r.writes == WritesOf(values[2..], PlacementOf(SelectiveFor(ctx)))
  {
    if |values| > 1 && MissingColumns(Columns(values[1])) == [] {
      TallyOfSpec(values[2..], SelectiveFor(ContextOf(values, byPlace, byName, date)));
    }
  }

  /**
   * A write of the selective batch lands on a data row that passed every
   * filter and whose ledger holds the date in no filled cell, with the
   * date and the rank.
   */
  lemma {:induction false} SelectiveWriteTargets(rows: seq<seq<string>>, ctx: Context, k: nat)
    requires k < |WritesOf(rows, PlacementOf(SelectiveFor(ctx)))|
    ensures SelectiveTarget(rows, ctx, WritesOf(rows, PlacementOf(SelectiveFor(ctx)))[k])
  {
    var init := rows[..|rows| - 1];
    if k < |WritesOf(init, PlacementOf(SelectiveFor(ctx)))| {
      SelectiveWriteTargets(init, ctx, k);
      WritesOfInit(rows, PlacementOf(SelectiveFor(ctx)), k);
      SelectiveTargetWiden(rows, ctx, WritesOf(init, PlacementOf(SelectiveFor(ctx)))[k]);
    } else {
      var p := WritesOfLast(rows, PlacementOf(SelectiveFor(ctx)), k);
      SelectivePlacement(rows[|rows| - 1], ctx);
      SelectiveTargetLast(rows, ctx, p);
    }
  }

  /**
   * Write `w` lands on a data row that passed every filter and whose
   * ledger holds the date in no filled cell, in that row's ledger window
   * or its overflow cell, with the date and the rank.
   */
  predicate SelectiveTarget(rows: seq<seq<string>>, ctx: Context, w: CellWrite) {
    && 3 <= w.row <= |rows| + 2
    && ctx.dayStart + 1 <= w.col <= ctx.dayStart + MaxDailyCount + 1
    && RankWrite(rows[w.row - 3], ctx, w.value)
    && NoDateInLedger(rows[w.row - 3], ctx)
  }

  /** A good write for the rows but the last is one for all of them. */
  lemma SelectiveTargetWiden(rows: seq<seq<string>>, ctx: Context, w: CellWrite)
    requires |rows| > 0 && SelectiveTarget(rows[..|rows| - 1], ctx, w)
    ensures SelectiveTarget(rows, ctx, w)
  {
    assert rows[..|rows| - 1][w.row - 3] == rows[w.row - 3];
  }

  /** The write of the last row's selective placement is a good write. */
  lemma SelectiveTargetLast(rows: seq<seq<string>>, ctx: Context, p: Placement)
    requires |rows| > 0 && Placed(Selective(rows[|rows| - 1], ctx)) == Some(p)
    ensures SelectiveTarget(rows, ctx, CellWrite(|rows| + 2, p.idx + 1, p.value))
  {
    SelectivePlacedWrite(rows[|rows| - 1], ctx, p.idx, p.value);
  }

  /** A row the selective pass places is written with its rank, inside its ledger, and had no cell holding the date. */
  lemma SelectivePlacedWrite(row: seq<string>, ctx: Context, idx: nat, value: string)
    requires Placed(Selective(row, ctx)) == Some(Placement(idx, value))
    ensures ctx.dayStart <= idx <= ctx.dayStart + MaxDailyCount
    ensures RankWrite(row, ctx, value) && NoDateInLedger(row, ctx)
  {
    SelectiveSpec(row, ctx);
  }

  /** The selective pass's placement function reads `Selective`. */
  lemma SelectivePlacement(row: seq<string>, ctx: Context)
    ensures PlacementOf(SelectiveFor(ctx))(row) == Placed(Selective(row, ctx))
  {
  }

  /**
   * On a sheet where no row holds the date after its first empty ledger
   * cell, the selective batch is the daily updater's batch.
   */
  lemma {:induction false} SelectiveBatchIsDaily(rows: seq<seq<string>>, ctx: Context)
    requires forall i :: 0 <= i < |rows| ==> !LateDate(rows[i], ctx)
    ensures WritesOf(rows, PlacementOf(SelectiveFor(ctx))) == WritesOf(rows, PlacementOf(DecideFor(ctx)))
  {
    forall i | 0 <= i < |rows|
      ensures PlacementOf(SelectiveFor(ctx))(rows[i]) == PlacementOf(DecideFor(ctx))(rows[i])
    {
      SelectiveAgreesWithDaily(rows[i], ctx);
    }
    WritesOfAgree(rows, PlacementOf(SelectiveFor(ctx)), PlacementOf(DecideFor(ctx)));
  }

  /** The imperative `_update_sheet_selective`: the header row, then the row loop. */
  method UpdateSheetSelective(values: seq<seq<string>>, byPlace: map<string, RankItem>, byName: map<string, RankItem>, date: string)
    returns (res: SelectiveResult)
    ensures res == SelectiveUpdate(values, byPlace, byName, date)
  {
    if |values| <= 1 {
      return SheetFailed(InsufficientRows);
    }
    var cols, dayStart := MapHeaders(values[1]);
    var missing := MissingColumns(cols);
    if missing != [] {
      return SheetFailed(MissingHeaders(missing));
    }
    var ctx := Context(cols, dayStart, date, byPlace, byName);
    var t := CountRows(values[2..], SelectiveFor(ctx));
    res := Filled(t.matched, |t.writes|, t.skippedExisting, t.skippedRank, t.writes);
  }

  // ---------------------------------------------------------------------
  // Running twice for the same date
  // ---------------------------------------------------------------------

  /** A written row, looked at again, is either an existing entry or placed in the same overflow cell. */
  lemma {:induction false} SelectiveAfterWrite(row: seq<string>, ctx: Context)
    requires LedgerClear(ctx) && DateTextOk(ctx.date)
    requires Selective(row, ctx).Written?
    ensures var p := Selective(row, ctx).p;
      var row' := SetCell(row, p.idx, p.value);
      Selective(row', ctx) == AlreadyRecorded || Selective(row', ctx) == Written(p)
  {
    var p := Selective(row, ctx).p;
    var row' := SetCell(row, p.idx, p.value);
    var a := Assess(row, ctx);
    var scan := SelectiveScan(row, ctx.dayStart, ctx.date);
    var scan' := SelectiveScan(row', ctx.dayStart, ctx.date);
    assert Selective(row, ctx) == SelectiveFromScan(a, scan, ctx);
    assert forall c :: c in ctx.cols ==> ctx.cols[c] != p.idx;
    AssessAfterSet(row, ctx, p.idx, p.value);
    assert Selective(row', ctx) == SelectiveFromScan(a, scan', ctx);
    SelectiveScanAfterWrite(row, ctx, a, p);
    SelectiveAgain(a, scan, scan', ctx);
  }

  /** Writing a row's placement leaves its selective scan as it was, or makes it report the date. */
  lemma SelectiveScanAfterWrite(row: seq<string>, ctx: Context, a: Assessment, p: Placement)
    requires DateTextOk(ctx.date)
    requires SelectiveFromScan(a, SelectiveScan(row, ctx.dayStart, ctx.date), ctx) == Written(p)
    ensures var scan' := SelectiveScan(SetCell(row, p.idx, p.value), ctx.dayStart, ctx.date);
      scan' == Recorded || scan' == SelectiveScan(row, ctx.dayStart, ctx.date)
  {
    var scan := SelectiveScan(row, ctx.dayStart, ctx.date);
    WrittenCases(a, scan, ctx, p);
    if scan.EmptyAt? {
      FilledWithDate(row, ctx.dayStart, ctx.date, a.rank, p.idx);
    } else {
      WindowOutside(row, ctx.dayStart, p.idx, p.value);
    }
  }

  /** Today's text written into the empty cell the scan found makes the scan report the date. */
  lemma FilledWithDate(row: seq<string>, start: nat, date: string, rank: int, idx: nat)
    requires DateTextOk(date)
    requires SelectiveScan(row, start, date).EmptyAt? && idx == start + SelectiveScan(row, start, date).offset
    ensures SelectiveScan(SetCell(row, idx, WriteText(date, rank)), start, date) == Recorded
  {
    WriteTextReadsBack(date, rank);
    SelectiveAfterFill(row, start, date, WriteText(date, rank));
  }

  /** A write comes from an eligible row, into the empty cell found or else the overflow cell. */
  lemma WrittenCases(a: Assessment, scan: Scan, ctx: Context, p: Placement)
    requires SelectiveFromScan(a, scan, ctx) == Written(p)
    ensures a.Eligible? && p.value == WriteText(ctx.date, a.rank)
    ensures scan.EmptyAt? ==> p.idx == ctx.dayStart + scan.offset
    ensures !scan.EmptyAt? ==> scan.Full? && p.idx == ctx.dayStart + MaxDailyCount
  {
  }

  /** A written row whose scan now reports the date, or is unchanged, is an existing entry or placed as before. */
  lemma SelectiveAgain(a: Assessment, scan: Scan, scan': Scan, ctx: Context)
    requires SelectiveFromScan(a, scan, ctx).Written?
    requires scan' == Recorded || scan' == scan
    ensures SelectiveFromScan(a, scan', ctx) == AlreadyRecorded || SelectiveFromScan(a, scan', ctx) == SelectiveFromScan(a, scan, ctx)
  {
  }

  /** Writing text with the date into the first empty cell makes the selective scan see the date. */
  lemma SelectiveAfterFill(row: seq<string>, start: nat, date: string, v: string)
    requires SelectiveScan(row, start, date).EmptyAt?
    requires v != "" && Contains(v, date) && Strip(v) == v
    ensures SelectiveScan(SetCell(row, start + SelectiveScan(row, start, date).offset, v), start, date) == Recorded
  {
    var k := SelectiveScan(row, start, date).offset;
    WindowAfterSet(row, start, k, v);
    var w' := Window(row, start)[k := v];
    assert DatedAt(w', date, k);
    SelectiveCellsSpec(w', date);
  }

  lemma {:induction false} SelectiveRowStable(row: seq<string>, ctx: Context)
    requires LedgerClear(ctx) && DateTextOk(ctx.date)
    ensures var place := PlacementOf(SelectiveFor(ctx));
      var r' := AfterRow(row, place(row));
      AfterRow(r', place(r')) == r'
  {
    if Selective(row, ctx).Written? {
      SelectiveAfterWrite(row, ctx);
    }
    RewriteStable(row, SelectiveFor(ctx));
  }

  /**
   * Recovering the same date twice leaves the sheet as the first run left
   * it: every row written the first time now holds the date and is
   * skipped as an existing entry, except full ledgers, whose overflow
   * cell is written again with the same text.
   */
  lemma {:induction false} SelectiveIdempotent(values: seq<seq<string>>, byPlace: map<string, RankItem>, byName: map<string, RankItem>, date: string)
    requires SelectiveUpdate(values, byPlace, byName, date).Filled?
    requires LedgerClear(ContextOf(values, byPlace, byName, date)) && DateTextOk(date)
    ensures var once := ApplyWrites(values, SelectiveUpdate(values, byPlace, byName, date).writes);
      && SelectiveUpdate(once, byPlace, byName, date).Filled?
      && ApplyWrites(once, SelectiveUpdate(once, byPlace, byName, date).writes) == once
  {
    var ctx := ContextOf(values, byPlace, byName, date);
    var place := PlacementOf(SelectiveFor(ctx));
    SelectiveUpdateSpec(values, byPlace, byName, date);
    ApplyWritesOf(values, place);
    var once := ApplyWrites(values, SelectiveUpdate(values, byPlace, byName, date).writes);
    assert once == values[..2] + AfterRows(values[2..], place);
    assert once[1] == values[1] && once[2..] == AfterRows(values[2..], place);
    assert ContextOf(once, byPlace, byName, date) == ctx;
    SelectiveUpdateSpec(once, byPlace, byName, date);
    ApplyWritesOf(once, place);
    var rows := values[2..];
    forall i | 0 <= i < |rows|
      ensures var r' := AfterRow(rows[i], place(rows[i])); AfterRow(r', place(r')) == r'
    {
      SelectiveRowStable(rows[i], ctx);
    }
    AfterRowsStable(rows, place);
    assert once[..2] == values[..2];
  }

  // ---------------------------------------------------------------------
  // Both sheets, for a given date
  // ---------------------------------------------------------------------

  /** A sheet whose "보장건" tab may be missing. */
  function SelectiveTab(tab: Option<seq<seq<string>>>, byPlace: map<string, RankItem>, byName: map<string, RankItem>, date: string): SelectiveResult {
    match tab
    case None => SheetFailed(TabNotFound)
    case Some(values) => SelectiveUpdate(values, byPlace, byName, date)
  }

  function FilledCount(r: SelectiveResult): nat {
    if r.Filled? then r.updated else 0
  }

  function ExistingCount(r: SelectiveResult): nat {
    if r.Filled? then r.skippedExisting else 0
  }

  datatype SelectiveRun =
    | InvalidDate
    | Ran(jtwolab: SelectiveResult, ilryu: SelectiveResult, totalUpdated: nat, totalSkippedExisting: nat)

  /**
   * `update_guarantee_sheets_selective`: a target date that `strptime`
   * refuses is an error and nothing is written; otherwise both sheets are
   * updated with the date as `"%y. %m. %d"`, and the totals add up the
   * two sheets.
   */
  function SelectiveRunOf(items: seq<RankItem>, jtwolab: Option<seq<seq<string>>>, ilryu: Option<seq<seq<string>>>, targetDate: string): (r: SelectiveRun)
    ensures r.InvalidDate? <==> ParseIso(targetDate).None?
    ensures r.Ran? ==>
      && r.totalUpdated == FilledCount(r.jtwolab) + FilledCount(r.ilryu)
      && r.totalSkippedExisting == ExistingCount(r.jtwolab) + ExistingCount(r.ilryu)
  {
    match ParseIso(targetDate)
    case None => InvalidDate
    case Some(d) => SelectiveRunOn(items, jtwolab, ilryu, SheetDate(d))
  }

  /** Both sheets updated for a date already written as `"%y. %m. %d"`. */
  function SelectiveRunOn(items: seq<RankItem>, jtwolab: Option<seq<seq<string>>>, ilryu: Option<seq<seq<string>>>, date: string): SelectiveRun {
    var byPlace, byName := IndexBy(items, PlaceKey), IndexBy(items, NameKey);
    RunOf(SelectiveTab(jtwolab, byPlace, byName, date), SelectiveTab(ilryu, byPlace, byName, date))
  }

  /** The run's result: both sheets' outcomes and the totals summed over them. */
  function RunOf(j: SelectiveResult, i: SelectiveResult): SelectiveRun {
    Ran(j, i, FilledCount(j) + FilledCount(i), ExistingCount(j) + ExistingCount(i))
  }

  /** Recovering a date given as `isoformat()` writes that day's `"%y. %m. %d"` text. */
  lemma SelectiveRunOfIso(items: seq<RankItem>, jtwolab: Option<seq<seq<string>>>, ilryu: Option<seq<seq<string>>>, d: Date)
    requires ValidDate(d) && d.year <= 9999
    ensures var r := SelectiveRunOf(items, jtwolab, ilryu, Iso(d));
      r.Ran? && r.jtwolab == SelectiveTab(jtwolab, IndexBy(items, PlaceKey), IndexBy(items, NameKey), SheetDate(d))
  {
    ParseIsoOfIso(d);
  }

  /** One tab of the imperative `update_guarantee_sheets_selective`: a missing tab is reported as such. */
  method UpdateTabSelective(tab: Option<seq<seq<string>>>, byPlace: map<string, RankItem>, byName: map<string, RankItem>, date: string)
    returns (res: SelectiveResult)
    ensures res == SelectiveTab(tab, byPlace, byName, date)
    ensures tab.None? <==> res == SheetFailed(TabNotFound)
  {
    if tab.None? {
      return SheetFailed(TabNotFound);
    }
    res := UpdateSheetSelective(tab.value, byPlace, byName, date);
  }

  /** The imperative `update_guarantee_sheets_selective`. */
  method UpdateSelective(items: seq<RankItem>, jtwolab: Option<seq<seq<string>>>, ilryu: Option<seq<seq<string>>>, targetDate: string)
    returns (r: SelectiveRun)
    ensures r == SelectiveRunOf(items, jtwolab, ilryu, targetDate)
  {
    var parsed := ParseIso(targetDate);
    if parsed.None? {
      return InvalidDate;
    }
    r := UpdateBoth(items, jtwolab, ilryu, SheetDate(parsed.value));
  }

  /** Both tabs of the imperative `update_guarantee_sheets_selective`, for a parsed date. */
  method UpdateBoth(items: seq<RankItem>, jtwolab: Option<seq<seq<string>>>, ilryu: Option<seq<seq<string>>>, date: string)
    returns (r: SelectiveRun)
    ensures r == SelectiveRunOn(items, jtwolab, ilryu, date)
  {
    var byPlace, byName := BuildRankIndexes(items);
    var j := UpdateTabSelective(jtwolab, byPlace, byName, date);
    var i := UpdateTabSelective(ilryu, byPlace, byName, date);
    r := RunOf(j, i);
  }
}
