/**
 * What the daily rank updater and the recovery updater of the guarantee
 * sheets ("보장건" tab) have in common: the rank-record indexes, the
 * header mapping of the second sheet row, the per-row filters (status,
 * product, guarantee threshold), the match of a row to a rank record and
 * the cell writes that are sent back in one batch.
 */
module Ledger {
  import opened Common
  import opened Dates

  // ---------------------------------------------------------------------
  // Rank records and their indexes
  // ---------------------------------------------------------------------

  /** One crawled rank record; `rank` is the text of its rank value, None when absent. */
  datatype RankItem = RankItem(clientName: string, keyword: string, placeUrl: string, rank: Option<string>)

  /** The place id a record is indexed under: the first '/'-led run of 5 or more digits in its URL. */
  function PlaceKey(item: RankItem): Option<string> {
    if item.placeUrl == "" then None else SlashDigits(item.placeUrl, 5)
  }

  /** The "name|keyword" key, only when both parts are non-empty. */
  function NameKey(item: RankItem): Option<string> {
    if item.clientName != "" && item.keyword != "" then Some(item.clientName + "|" + item.keyword) else None
  }

  /** The dict a loop `m[key(item)] = item` leaves behind; records without a key are passed over. */
  function IndexBy(items: seq<RankItem>, keyOf: RankItem -> Option<string>): map<string, RankItem> {
    if |items| == 0 then map[]
    else
      var m := IndexBy(items[..|items| - 1], keyOf);
      match keyOf(items[|items| - 1])
      case Some(k) => m[k := items[|items| - 1]]
      case None => m
  }

  /** `i` is the last position whose record carries key `k`. */
  predicate LastWithKey(items: seq<RankItem>, keyOf: RankItem -> Option<string>, k: string, i: int) {
    0 <= i < |items| && keyOf(items[i]) == Some(k)
    && forall j :: i < j < |items| ==> keyOf(items[j]) != Some(k)
  }

  /** The index holds exactly the keys some record carries. */
  lemma {:induction false} IndexByDomain(items: seq<RankItem>, keyOf: RankItem -> Option<string>, k: string)
    ensures k in IndexBy(items, keyOf) <==> exists i :: 0 <= i < |items| && keyOf(items[i]) == Some(k)
  {
    if |items| > 0 {
      var init := items[..|items| - 1];
      IndexByDomain(init, keyOf, k);
      if k in IndexBy(init, keyOf) {
        var i :| 0 <= i < |init| && keyOf(init[i]) == Some(k);
        assert items[i] == init[i];
      }
      if exists i :: 0 <= i < |items| && keyOf(items[i]) == Some(k) {
        var i :| 0 <= i < |items| && keyOf(items[i]) == Some(k);
        if i < |init| {
          assert init[i] == items[i];
        }
      }
    }
  }

  /** Under each key the index keeps the last record carrying that key: later records overwrite earlier ones. */
  lemma {:induction false} IndexByLast(items: seq<RankItem>, keyOf: RankItem -> Option<string>, k: string)
    requires k in IndexBy(items, keyOf)
    ensures exists i :: LastWithKey(items, keyOf, k, i) && IndexBy(items, keyOf)[k] == items[i]
  {
    var init := items[..|items| - 1];
    var last := items[|items| - 1];
    if keyOf(last) == Some(k) {
      assert LastWithKey(items, keyOf, k, |items| - 1);
    } else {
      IndexByLast(init, keyOf, k);
      var i :| LastWithKey(init, keyOf, k, i) && IndexBy(init, keyOf)[k] == init[i];
      assert LastWithKey(items, keyOf, k, i);
    }
  }

  /**
   * The index-building loop of `update_all_sheets` (repeated in
   * `update_guarantee_sheets_selective`): every record is indexed by its
   * place id and by "name|keyword", a later record replacing an earlier one.
   */
  method BuildRankIndexes(items: seq<RankItem>) returns (byPlace: map<string, RankItem>, byName: map<string, RankItem>)
    ensures byPlace == IndexBy(items, PlaceKey)
    ensures byName == IndexBy(items, NameKey)
  {
    byPlace := map[];
    byName := map[];
    for n := 0 to |items|
      invariant byPlace == IndexBy(items[..n], PlaceKey)
      invariant byName == IndexBy(items[..n], NameKey)
    {
      assert items[..n + 1][..n] == items[..n];
      var item := items[n];
      if item.placeUrl != "" {
        var placeId := SlashDigits(item.placeUrl, 5);
        if placeId.Some? {
          byPlace := byPlace[placeId.value := item];
        }
      }
      if item.clientName != "" && item.keyword != "" {
        byName := byName[item.clientName + "|" + item.keyword := item];
      }
    }
    assert items[..|items|] == items;
  }

  // ---------------------------------------------------------------------
  // Header mapping
  // ---------------------------------------------------------------------

  datatype Column = Status | BusinessName | Keyword | Product | Url | GuaranteeRank

  /** The if/elif chain that assigns a (stripped) header to a column; the first test that holds wins. */
  function HeaderColumn(h: string): Option<Column> {
    if Contains(h, "작업") && Contains(h, "여부") then Some(Status)
    else if Contains(h, "상호") || (Contains(h, "플레이스") && Contains(h, "자동완성")) then Some(BusinessName)
    else if Contains(h, "키워드") && Contains(h, "메인") then Some(Keyword)
    else if Contains(h, "상품") then Some(Product)
    else if Contains(Upper(h), "URL") then Some(Url)
    else if Contains(h, "보장") && Contains(h, "순위") then Some(GuaranteeRank)
    else None
  }

  /** A header that marks the first day column. */
  predicate IsDayOne(h: string) {
    h == "1" || h == "1일"
  }

  /** The column a raw header cell names, once stripped. */
  function HeaderKind(h: string): Option<Column> {
    HeaderColumn(Strip(h))
  }

  /** A raw header cell that, once stripped, marks the first day column. */
  predicate DayOneHeader(h: string) {
    IsDayOne(Strip(h))
  }

  /**
   * The column map a loop `cols[kind(h)] = idx` over the headers leaves
   * behind: a later header of the same column overwrites an earlier one.
   */
  function ColumnsBy(headers: seq<string>, kind: string -> Option<Column>): map<Column, nat> {
    if |headers| == 0 then map[]
    else
      var m := ColumnsBy(headers[..|headers| - 1], kind);
      match kind(headers[|headers| - 1])
      case Some(c) => m[c := |headers| - 1]
      case None => m
  }

  /** The column map of a header row. */
  function Columns(headers: seq<string>): map<Column, nat> {
    ColumnsBy(headers, HeaderKind)
  }

  /** Position of the first header satisfying `isDayOne`. */
  function FirstIndex(headers: seq<string>, isDayOne: string -> bool): (r: Option<nat>)
    ensures r.Some? ==> r.value < |headers|
  {
    if |headers| == 0 then None
    else match FirstIndex(headers[..|headers| - 1], isDayOne)
      case Some(i) => Some(i)
      case None => if isDayOne(headers[|headers| - 1]) then Some(|headers| - 1) else None
  }

  /** Position of the first header that reads "1" or "1일". */
  function FirstDayOne(headers: seq<string>): (r: Option<nat>)
    ensures r.Some? ==> r.value < |headers|
  {
    FirstIndex(headers, DayOneHeader)
  }

  const DefaultDayStart: nat := 17
  const MaxDailyCount: nat := 25

  /** The first day column: the first "1"/"1일" header, or column index 17 (R) when there is none. */
  function DayStart(headers: seq<string>): nat {
    match FirstDayOne(headers)
    case Some(i) => i
    case None => DefaultDayStart
  }

  /** A column is mapped exactly when some header is assigned to it. */
  lemma {:induction false} ColumnsDomain(headers: seq<string>, kind: string -> Option<Column>, c: Column)
    ensures c in ColumnsBy(headers, kind) <==> exists i :: 0 <= i < |headers| && kind(headers[i]) == Some(c)
  {
    if |headers| > 0 {
      var init := headers[..|headers| - 1];
      ColumnsDomain(init, kind, c);
      if c in ColumnsBy(init, kind) {
        var i :| 0 <= i < |init| && kind(init[i]) == Some(c);
        assert headers[i] == init[i];
      }
      if exists i :: 0 <= i < |headers| && kind(headers[i]) == Some(c) {
        var i :| 0 <= i < |headers| && kind(headers[i]) == Some(c);
        if i < |init| {
          assert init[i] == headers[i];
        }
      }
    }
  }

  /** A mapped column points at the last header assigned to it. */
  lemma {:induction false} ColumnsLast(headers: seq<string>, kind: string -> Option<Column>, c: Column)
    requires c in ColumnsBy(headers, kind)
    ensures ColumnsBy(headers, kind)[c] < |headers|
    ensures kind(headers[ColumnsBy(headers, kind)[c]]) == Some(c)
    ensures forall j :: ColumnsBy(headers, kind)[c] < j < |headers| ==> kind(headers[j]) != Some(c)
  {
    var init := headers[..|headers| - 1];
    if kind(headers[|headers| - 1]) != Some(c) {
      ColumnsLast(init, kind, c);
      assert init[ColumnsBy(init, kind)[c]] == headers[ColumnsBy(init, kind)[c]];
      forall j | ColumnsBy(headers, kind)[c] < j < |headers|
        ensures kind(headers[j]) != Some(c)
      {
        if j < |init| {
          assert init[j] == headers[j];
        }
      }
    }
  }

  /** The first index is the first header satisfying the test, and None means no header does. */
  lemma {:induction false} FirstIndexSpec(headers: seq<string>, isDayOne: string -> bool)
    ensures FirstIndex(headers, isDayOne).None? <==> forall i :: 0 <= i < |headers| ==> !isDayOne(headers[i])
    ensures FirstIndex(headers, isDayOne).Some? ==>
      && isDayOne(headers[FirstIndex(headers, isDayOne).value])
      && forall j :: 0 <= j < FirstIndex(headers, isDayOne).value ==> !isDayOne(headers[j])
  {
    if |headers| > 0 {
      var init := headers[..|headers| - 1];
      FirstIndexSpec(init, isDayOne);
      assert forall i :: 0 <= i < |init| ==> init[i] == headers[i];
    }
  }

  /**
   * The header loop: maps the columns and remembers the first day-one
   * header, with -1 standing for "not found yet" as in the source.
   */
  method MapHeaders(headers: seq<string>) returns (cols: map<Column, nat>, dayStart: nat)
    ensures cols == Columns(headers)
    ensures dayStart == DayStart(headers)
  {
    cols := map[];
    var found := -1;
    for idx := 0 to |headers|
      invariant cols == Columns(headers[..idx])
      invariant found == -1 <==> FirstDayOne(headers[..idx]).None?
      invariant found != -1 ==> FirstDayOne(headers[..idx]) == Some(found as nat)
    {
      assert headers[..idx + 1][..idx] == headers[..idx];
      var h := Strip(headers[idx]);
      var c := HeaderColumn(h);
      assert c == HeaderKind(headers[idx]);
      if c.Some? {
        cols := cols[c.value := idx];
      }
      if found == -1 {
        if IsDayOne(h) {
          found := idx;
        }
      }
    }
    assert headers[..|headers|] == headers;
    dayStart := if found == -1 then DefaultDayStart else found as nat;
  }

  /** The required columns that are not mapped, in the order the source lists them. */
  function MissingColumns(cols: map<Column, nat>): (missing: seq<string>)
    ensures missing == [] <==> BusinessName in cols && Status in cols && Product in cols && GuaranteeRank in cols
  {
    (if BusinessName in cols then [] else ["business_name"])
    + (if Status in cols then [] else ["status"])
    + (if Product in cols then [] else ["product"])
    + (if GuaranteeRank in cols then [] else ["guarantee_rank"])
  }

  // ---------------------------------------------------------------------
  // Rows
  // ---------------------------------------------------------------------

  /** The stripped cell at `idx`, or "" past the end of the row. */
  function Cell(row: seq<string>, idx: nat): string {
    if idx < |row| then Strip(row[idx]) else ""
  }

  /** `get_val`: the stripped cell of a mapped column, "" for an unmapped column. */
  function Field(row: seq<string>, cols: map<Column, nat>, c: Column): string {
    if c in cols then Cell(row, cols[c]) else ""
  }

  /** Everything one pass over a sheet shares across its rows. */
  datatype Context = Context(
    cols: map<Column, nat>,
    dayStart: nat,
    date: string,
    byPlace: map<string, RankItem>,
    byName: map<string, RankItem>)

  const ValidStatuses: seq<string> := ["진행중", "후불", "반불"]

  /** `int(re.sub(r"[^\d]", "", text))`: None when the text has no digit. */
  function GuaranteeOf(text: string): (r: Option<int>)
    ensures r.Some? ==> r.value >= 0
    ensures r.None? <==> DigitsOf(text) == ""
  {
    var d := DigitsOf(text);
    if d == "" then
      StripUnchanged(d);
      ParseInt(d)
    else
      ParseIntOfDigits(d);
      ParseInt(d)
  }

  /** `int(str(raw).replace("위", "").strip())`. */
  function RankOf(raw: string): Option<int> {
    ParseInt(RemoveChar(raw, '위'))
  }

  /** The stripped values `get_val` reads from one row. */
  datatype RowFields = RowFields(status: string, product: string, guarantee: string, name: string, keyword: string, url: string)

  function FieldsOf(row: seq<string>, cols: map<Column, nat>): RowFields {
    RowFields(Field(row, cols, Status), Field(row, cols, Product), Field(row, cols, GuaranteeRank),
      Field(row, cols, BusinessName), Field(row, cols, Keyword), Field(row, cols, Url))
  }

  /** The rank record of a row: by the place id in its URL, else by "name|keyword" when both are present. */
  function Lookup(f: RowFields, byPlace: map<string, RankItem>, byName: map<string, RankItem>): (r: Option<RankItem>)
    ensures r.Some? ==>
      || (exists id :: SlashDigits(f.url, 5) == Some(id) && id in byPlace && r.value == byPlace[id])
      || (f.name != "" && f.keyword != "" && f.name + "|" + f.keyword in byName && r.value == byName[f.name + "|" + f.keyword])
  {
    var viaUrl :=
      if f.url == "" then None
      else match SlashDigits(f.url, 5)
        case Some(id) => if id in byPlace then Some(byPlace[id]) else None
        case None => None;
    if viaUrl.Some? then viaUrl
    else if f.name != "" && f.keyword != "" && f.name + "|" + f.keyword in byName then Some(byName[f.name + "|" + f.keyword])
    else None
  }

  /** How far a row gets through the filters before the day-cell scan. */
  datatype Assessment = BadStatus | NotPlace | NoGuarantee | Unmatched | NoRank | AboveGuarantee | Eligible(rank: int)

  function AssessFields(f: RowFields, byPlace: map<string, RankItem>, byName: map<string, RankItem>): (a: Assessment)
    ensures a.Eligible? ==>
      && f.status in ValidStatuses
      && Contains(f.product, "플레이스")
      && exists g :: GuaranteeOf(f.guarantee) == Some(g) && 0 < g && a.rank <= g
  {
    if f.status !in ValidStatuses then BadStatus
    else if !Contains(f.product, "플레이스") then NotPlace
    else match GuaranteeOf(f.guarantee)
      case None => NoGuarantee
      case Some(g) =>
        if g == 0 then NoGuarantee
        else match Lookup(f, byPlace, byName)
          case None => Unmatched
          case Some(item) => match item.rank
            case None => NoRank
            case Some(raw) => match RankOf(raw)
              case None => NoRank
              case Some(r) => if r > g then AboveGuarantee else Eligible(r)
  }

  /** The filters and the match of one sheet row. */
  function Assess(row: seq<string>, ctx: Context): Assessment {
    AssessFields(FieldsOf(row, ctx.cols), ctx.byPlace, ctx.byName)
  }

  /** The text written into a day cell: the date, a newline, the rank and "등". */
  function WriteText(date: string, rank: int): (v: string)
    ensures |v| > |date| && StartsWith(v, date) && v[|v| - 1] == '등'
  {
    date + "\n" + IntToString(rank) + "등"
  }

  /** A date text that strip() leaves alone at its start. */
  predicate DateTextOk(date: string) {
    |date| > 0 && !IsSpace(date[0])
  }

  lemma SheetDateOk(d: Date)
    requires ValidDate(d)
    ensures DateTextOk(SheetDate(d))
  {
  }

  /** A written day cell reads back as non-empty and carrying its date. */
  lemma {:induction false} WriteTextReadsBack(date: string, rank: int)
    requires DateTextOk(date)
    ensures Strip(WriteText(date, rank)) == WriteText(date, rank)
    ensures Contains(WriteText(date, rank), date)
  {
    var v := WriteText(date, rank);
    StripUnchanged(v);
    assert IsAt(v, date, 0);
  }

  // ---------------------------------------------------------------------
  // Cell writes
  // ---------------------------------------------------------------------

  /** One `gspread.Cell(row, col, value)`, 1-based. */
  datatype CellWrite = CellWrite(row: nat, col: nat, value: string)

  /** Writing one cell of a row, padding a short row with empty cells. */
  function SetCell(row: seq<string>, idx: nat, v: string): (r: seq<string>)
    ensures |r| == if idx < |row| then |row| else idx + 1
    ensures r[idx] == v
    ensures forall k :: 0 <= k < |r| && k != idx ==> r[k] == (if k < |row| then row[k] else "")
  {
    if idx < |row| then row[idx := v] else row + seq(idx - |row|, _ => "") + [v]
  }

  /** Writing a cell changes only what that cell reads as. */
  lemma {:induction false} CellAfterSet(row: seq<string>, idx: nat, v: string, k: nat)
    ensures Cell(SetCell(row, idx, v), k) == if k == idx then Strip(v) else Cell(row, k)
  {
    if k != idx && k < |SetCell(row, idx, v)| && k >= |row| {
      StripUnchanged("");
    }
  }

  /** Writing the same value twice is writing it once. */
  lemma {:induction false} SetCellTwice(row: seq<string>, idx: nat, v: string)
    ensures SetCell(SetCell(row, idx, v), idx, v) == SetCell(row, idx, v)
  {
  }

  /** A write outside every mapped column leaves the filters and the match of the row unchanged. */
  lemma {:induction false} AssessAfterSet(row: seq<string>, ctx: Context, idx: nat, v: string)
    requires forall c :: c in ctx.cols ==> ctx.cols[c] != idx
    ensures Assess(SetCell(row, idx, v), ctx) == Assess(row, ctx)
  {
    var row' := SetCell(row, idx, v);
    forall c: Column
      ensures Field(row', ctx.cols, c) == Field(row, ctx.cols, c)
    {
      if c in ctx.cols {
        CellAfterSet(row, idx, v, ctx.cols[c]);
      }
    }
    assert FieldsOf(row', ctx.cols) == FieldsOf(row, ctx.cols);
  }

  /** Sending a batch of writes to a sheet (`update_cells`), in order. */
  function ApplyWrites(values: seq<seq<string>>, writes: seq<CellWrite>): (r: seq<seq<string>>)
    ensures |r| == |values|
  {
    if |writes| == 0 then values
    else
      var w := writes[|writes| - 1];
      var before := ApplyWrites(values, writes[..|writes| - 1]);
      if 1 <= w.row <= |before| && w.col >= 1 then before[w.row - 1 := SetCell(before[w.row - 1], w.col - 1, w.value)]
      else before
  }

  /**
   * Where the day-cell scan of a row ends: an empty cell to write to (its
   * offset in the window), the date already there, or a full window.
   */
  datatype Scan = EmptyAt(offset: nat) | Recorded | Full

  /** The stripped cells of a row from column `start` on, by offset. */
  function CellsFrom(row: seq<string>, start: nat): nat -> string {
    (j: nat) => Cell(row, start + j)
  }

  /** The cells from window offset `off` to the end of the 25-cell window. */
  function WindowFrom(cell: nat -> string, off: nat): (w: seq<string>)
    requires off <= MaxDailyCount
    ensures |w| == MaxDailyCount - off
    decreases MaxDailyCount - off
  {
    if off == MaxDailyCount then [] else [cell(off)] + WindowFrom(cell, off + 1)
  }

  /** The 25 stripped day cells of a row, from the first day column on. */
  function Window(row: seq<string>, start: nat): (w: seq<string>)
    ensures |w| == MaxDailyCount
  {
    WindowFrom(CellsFrom(row, start), 0)
  }

  lemma {:induction false} WindowFromCell(cell: nat -> string, off: nat, i: nat)
    requires off + i < MaxDailyCount
    ensures WindowFrom(cell, off)[i] == cell(off + i)
    decreases i
  {
    if i > 0 {
      WindowFromCell(cell, off + 1, i - 1);
    }
  }

  /** Window cell `j` is the stripped cell `start + j` of the row. */
  lemma WindowCell(row: seq<string>, start: nat, j: nat)
    requires j < MaxDailyCount
    ensures Window(row, start)[j] == Cell(row, start + j)
  {
    WindowFromCell(CellsFrom(row, start), 0, j);
  }

  /** Writing a day cell changes that cell of the window and no other. */
  lemma {:induction false} WindowAfterSet(row: seq<string>, start: nat, j: nat, v: string)
    requires j < MaxDailyCount
    ensures Window(SetCell(row, start + j, v), start) == Window(row, start)[j := Strip(v)]
  {
    var row' := SetCell(row, start + j, v);
    forall i | 0 <= i < MaxDailyCount
      ensures Window(row', start)[i] == Window(row, start)[j := Strip(v)][i]
    {
      WindowCell(row', start, i);
      WindowCell(row, start, i);
      CellAfterSet(row, start + j, v, start + i);
    }
  }

  /** Writing a cell outside the window leaves the window as it was. */
  lemma {:induction false} WindowOutside(row: seq<string>, start: nat, idx: nat, v: string)
    requires idx < start || start + MaxDailyCount <= idx
    ensures Window(SetCell(row, idx, v), start) == Window(row, start)
  {
    var row' := SetCell(row, idx, v);
    forall i | 0 <= i < MaxDailyCount
      ensures Window(row', start)[i] == Window(row, start)[i]
    {
      WindowCell(row', start, i);
      WindowCell(row, start, i);
      CellAfterSet(row, idx, v, start + i);
    }
  }

  /** The cell a row receives: 0-based column index and text. */
  datatype Placement = Placement(idx: nat, value: string)

  /** A row after its placement, if any, is written. */
  function AfterRow(row: seq<string>, p: Option<Placement>): seq<string> {
    match p
    case None => row
    case Some(pl) => SetCell(row, pl.idx, pl.value)
  }

  /**
   * The batch of writes the row loop collects: data row `i` (sheet row
   * `i + 3`, the first after the header row 2) contributes one write when
   * `place` gives it a cell.
   */
  function WritesOf(rows: seq<seq<string>>, place: seq<string> -> Option<Placement>): seq<CellWrite> {
    if |rows| == 0 then []
    else
      var before := WritesOf(rows[..|rows| - 1], place);
      match place(rows[|rows| - 1])
      case None => before
      case Some(p) => before + [CellWrite(|rows| + 2, p.idx + 1, p.value)]
  }

  /** The data rows once every placement is written. */
  function AfterRows(rows: seq<seq<string>>, place: seq<string> -> Option<Placement>): (r: seq<seq<string>>)
    ensures |r| == |rows|
  {
    if |rows| == 0 then []
    else AfterRows(rows[..|rows| - 1], place) + [AfterRow(rows[|rows| - 1], place(rows[|rows| - 1]))]
  }

  /** Every write targets a data row of the sheet, in a column that exists, with the placement of that row. */
  lemma {:induction false} WritesOfTargets(rows: seq<seq<string>>, place: seq<string> -> Option<Placement>, k: nat)
    requires k < |WritesOf(rows, place)|
    ensures var w := WritesOf(rows, place)[k];
      3 <= w.row <= |rows| + 2 && w.col >= 1
      && place(rows[w.row - 3]) == Some(Placement(w.col - 1, w.value))
  {
    var init := rows[..|rows| - 1];
    var before := WritesOf(init, place);
    if k < |before| {
      WritesOfTargets(init, place, k);
      var w := before[k];
      assert WritesOf(rows, place)[k] == w;
      assert init[w.row - 3] == rows[w.row - 3];
    }
  }

  /** A write collected before the last row is still there once the last row is read. */
  lemma WritesOfInit(rows: seq<seq<string>>, place: seq<string> -> Option<Placement>, k: nat)
    requires |rows| > 0 && k < |WritesOf(rows[..|rows| - 1], place)|
    ensures k < |WritesOf(rows, place)| && WritesOf(rows, place)[k] == WritesOf(rows[..|rows| - 1], place)[k]
  {
  }

  /** A write collected from the last row is that row's placement. */
  lemma WritesOfLast(rows: seq<seq<string>>, place: seq<string> -> Option<Placement>, k: nat) returns (p: Placement)
    requires |rows| > 0 && |WritesOf(rows[..|rows| - 1], place)| <= k < |WritesOf(rows, place)|
    ensures place(rows[|rows| - 1]) == Some(p)
    ensures WritesOf(rows, place)[k] == CellWrite(|rows| + 2, p.idx + 1, p.value)
  {
    p := place(rows[|rows| - 1]).value;
  }

  /** Row numbers of the batch strictly increase: no row is written twice. */
  lemma {:induction false} WritesOfIncreasing(rows: seq<seq<string>>, place: seq<string> -> Option<Placement>, k: nat, l: nat)
    requires k < l < |WritesOf(rows, place)|
    ensures WritesOf(rows, place)[k].row < WritesOf(rows, place)[l].row
  {
    var init := rows[..|rows| - 1];
    var before := WritesOf(init, place);
    var ws := WritesOf(rows, place);
    if l < |before| {
      WritesOfIncreasing(init, place, k, l);
      assert ws[k] == before[k] && ws[l] == before[l];
    } else {
      WritesOfTargets(init, place, k);
      assert ws[k] == before[k];
    }
  }

  /** Every row that has a placement is written. */
  lemma {:induction false} WritesOfComplete(rows: seq<seq<string>>, place: seq<string> -> Option<Placement>, i: nat)
    requires i < |rows| && place(rows[i]).Some?
    ensures exists k :: 0 <= k < |WritesOf(rows, place)| && WritesOf(rows, place)[k].row == i + 3
  {
    var init := rows[..|rows| - 1];
    var before := WritesOf(init, place);
    var ws := WritesOf(rows, place);
    if i < |init| {
      assert init[i] == rows[i];
      WritesOfComplete(init, place, i);
      var k :| 0 <= k < |before| && before[k].row == i + 3;
      assert ws[k] == before[k];
    } else {
      assert ws[|ws| - 1].row == i + 3;
    }
  }

  /** Replacing the element right after `head`. */
  lemma ReplaceAfter<T>(head: seq<T>, x: T, y: T, tail: seq<T>)
    ensures (head + [x] + tail)[|head| := y] == head + [y] + tail
  {
  }

  /** The first `n` data rows written, the rest untouched. */
  lemma {:induction false} ApplyWritesPrefix(values: seq<seq<string>>, place: seq<string> -> Option<Placement>, n: nat)
    requires |values| >= 2 && n <= |values| - 2
    ensures ApplyWrites(values, WritesOf(values[2..][..n], place))
      == values[..2] + AfterRows(values[2..][..n], place) + values[2 + n..]
  {
    if n == 0 {
      assert values == values[..2] + values[2..];
    } else {
      ApplyWritesPrefix(values, place, n - 1);
      ApplyWritesStep(values, place, n);
    }
  }

  /** A suffix starts with its first element. */
  lemma DropCons<T>(s: seq<T>, i: nat)
    requires i < |s|
    ensures s[i..] == [s[i]] + s[i + 1..]
  {
  }

  /** Regrouping an element between two joins. */
  lemma SnocMiddle<T>(a: seq<T>, b: seq<T>, x: T, c: seq<T>)
    ensures a + (b + [x]) + c == (a + b) + [x] + c
    ensures a + b + ([x] + c) == (a + b) + [x] + c
  {
  }

  /** Writing one more data row's placement rewrites that row only. */
  lemma ApplyWritesStep(values: seq<seq<string>>, place: seq<string> -> Option<Placement>, n: nat)
    requires |values| >= 2 && 0 < n <= |values| - 2
    requires ApplyWrites(values, WritesOf(values[2..][..n - 1], place))
      == values[..2] + AfterRows(values[2..][..n - 1], place) + values[2 + (n - 1)..]
    ensures ApplyWrites(values, WritesOf(values[2..][..n], place))
      == values[..2] + AfterRows(values[2..][..n], place) + values[2 + n..]
  {
    var rows := values[2..];
    var row := rows[n - 1];
    DropCons(values, n + 1);
    PrefixStep(rows, n, place);
    StepAbstract(values, WritesOf(rows[..n - 1], place), WritesOf(rows[..n], place),
      AfterRows(rows[..n - 1], place), AfterRows(rows[..n], place), row, values[2 + n..], n, place(row));
  }

  /** The step with the writes and rows of both prefixes given: one more row placed, or one more left as it is. */
  lemma StepAbstract(values: seq<seq<string>>, ws: seq<CellWrite>, ws': seq<CellWrite>, a: seq<seq<string>>, a': seq<seq<string>>,
                     row: seq<string>, tail: seq<seq<string>>, n: nat, p: Option<Placement>)
    requires |values| >= 2 && |a| + 1 == n
    requires ApplyWrites(values, ws) == values[..2] + a + ([row] + tail)
    requires p.None? ==> ws' == ws && a' == a + [row]
    requires p.Some? ==> ws' == ws + [CellWrite(n + 2, p.value.idx + 1, p.value.value)] && a' == a + [SetCell(row, p.value.idx, p.value.value)]
    ensures ApplyWrites(values, ws') == values[..2] + a' + tail
  {
    SnocMiddle(values[..2], a, row, tail);
    if p.Some? {
      ApplyLastWrite(values, ws, CellWrite(n + 2, p.value.idx + 1, p.value.value), values[..2] + a, row, tail);
      SnocMiddle(values[..2], a, SetCell(row, p.value.idx, p.value.value), tail);
    }
  }

  /** The writes and the rewritten rows of the first `n` data rows, from those of the first `n - 1`. */
  lemma PrefixStep(rows: seq<seq<string>>, n: nat, place: seq<string> -> Option<Placement>)
    requires 0 < n <= |rows|
    ensures WritesOf(rows[..n], place) ==
      match place(rows[n - 1])
      case None => WritesOf(rows[..n - 1], place)
      case Some(p) => WritesOf(rows[..n - 1], place) + [CellWrite(n + 2, p.idx + 1, p.value)]
    ensures AfterRows(rows[..n], place) == AfterRows(rows[..n - 1], place) + [AfterRow(rows[n - 1], place(rows[n - 1]))]
  {
    assert rows[..n][..n - 1] == rows[..n - 1];
  }

  /** One more write, to the row after `head`, rewrites that row only. */
  lemma ApplyLastWrite(values: seq<seq<string>>, ws: seq<CellWrite>, w: CellWrite, head: seq<seq<string>>, row: seq<string>, tail: seq<seq<string>>)
    requires ApplyWrites(values, ws) == head + [row] + tail
    requires w.row == |head| + 1 && w.col >= 1
    ensures ApplyWrites(values, ws + [w]) == head + [SetCell(row, w.col - 1, w.value)] + tail
  {
    assert (ws + [w])[..|ws|] == ws;
    ReplaceAfter(head, row, SetCell(row, w.col - 1, w.value), tail);
  }

  /** Sending the batch writes each placed row and nothing else: the header rows and unplaced rows stay as they were. */
  lemma {:induction false} ApplyWritesOf(values: seq<seq<string>>, place: seq<string> -> Option<Placement>)
    requires |values| >= 2
    ensures ApplyWrites(values, WritesOf(values[2..], place)) == values[..2] + AfterRows(values[2..], place)
  {
    ApplyWritesPrefix(values, place, |values| - 2);
    assert values[2..][..|values| - 2] == values[2..];
    assert values[2 + (|values| - 2)..] == [];
  }

  /** When writing a row's placement and placing it again writes nothing new, a second pass over the written rows leaves them as they are. */
  lemma {:induction false} AfterRowsStable(rows: seq<seq<string>>, place: seq<string> -> Option<Placement>)
    requires forall i :: 0 <= i < |rows| ==>
      var r' := AfterRow(rows[i], place(rows[i]));
      AfterRow(r', place(r')) == r'
    ensures AfterRows(AfterRows(rows, place), place) == AfterRows(rows, place)
  {
    if |rows| > 0 {
      var init := rows[..|rows| - 1];
      assert forall i :: 0 <= i < |init| ==> init[i] == rows[i];
      AfterRowsStable(init, place);
      var once := AfterRows(rows, place);
      assert once[..|once| - 1] == AfterRows(init, place);
    }
  }

  /** Two placement rules that agree on every row give the same batch. */
  lemma {:induction false} WritesOfAgree(rows: seq<seq<string>>, p1: seq<string> -> Option<Placement>, p2: seq<string> -> Option<Placement>)
    requires forall i :: 0 <= i < |rows| ==> p1(rows[i]) == p2(rows[i])
    ensures WritesOf(rows, p1) == WritesOf(rows, p2)
  {
    if |rows| > 0 {
      var init := rows[..|rows| - 1];
      assert forall i :: 0 <= i < |init| ==> init[i] == rows[i];
      WritesOfAgree(init, p1, p2);
    }
  }

  // ---------------------------------------------------------------------
  // The row loop
  // ---------------------------------------------------------------------

  /** What a row loop does with one data row. */
  datatype Outcome = FilterSkipped | Ignored | RankSkipped | AlreadyRecorded | Written(p: Placement)

  /** The counters and the batch after some data rows. */
  datatype Tally = Tally(matched: nat, skippedRank: nat, skippedFilter: nat, skippedExisting: nat, writes: seq<CellWrite>)

  /** One row's outcome added to the counters, the row being sheet row `rowNum`. */
  function Count(t: Tally, rowNum: nat, o: Outcome): Tally {
    match o
    case FilterSkipped => t.(skippedFilter := t.skippedFilter + 1)
    case Ignored => t
    case RankSkipped => t.(skippedRank := t.skippedRank + 1)
    case AlreadyRecorded => t.(skippedExisting := t.skippedExisting + 1)
    case Written(p) => t.(matched := t.matched + 1, writes := t.writes + [CellWrite(rowNum, p.idx + 1, p.value)])
  }

  /**
   * A row loop over the data rows that bumps one counter per outcome and
   * appends a write for every written row, data row `i` being sheet row
   * `i + 3`.
   */
  function TallyOf(rows: seq<seq<string>>, decide: seq<string> -> Outcome): Tally {
    if |rows| == 0 then Tally(0, 0, 0, 0, [])
    else Count(TallyOf(rows[..|rows| - 1], decide), |rows| + 2, decide(rows[|rows| - 1]))
  }

  /** The tally of one more row. */
  lemma TallyOfStep(rows: seq<seq<string>>, decide: seq<string> -> Outcome, i: nat)
    requires i < |rows|
    ensures TallyOf(rows[..i + 1], decide) == Count(TallyOf(rows[..i], decide), i + 3, decide(rows[i]))
  {
    assert rows[..i + 1][..i] == rows[..i];
  }

  /**
   * The row loop shared by both updaters: one outcome per data row, one
   * counter bumped per outcome, one write appended per written row.
   */
  method CountRows(rows: seq<seq<string>>, decide: seq<string> -> Outcome) returns (t: Tally)
    ensures t == TallyOf(rows, decide)
  {
    var matched, skippedRank, skippedFilter, skippedExisting := 0, 0, 0, 0;
    var updates: seq<CellWrite> := [];
    for i := 0 to |rows|
      invariant Tally(matched, skippedRank, skippedFilter, skippedExisting, updates) == TallyOf(rows[..i], decide)
    {
      TallyOfStep(rows, decide, i);
      match decide(rows[i]) {
        case FilterSkipped => skippedFilter := skippedFilter + 1;
        case RankSkipped => skippedRank := skippedRank + 1;
        case AlreadyRecorded => skippedExisting := skippedExisting + 1;
        case Written(p) =>
          updates := updates + [CellWrite(i + 3, p.idx + 1, p.value)];
          matched := matched + 1;
        case Ignored =>
      }
    }
    assert rows[..|rows|] == rows;
    t := Tally(matched, skippedRank, skippedFilter, skippedExisting, updates);
  }

  /** The cell an outcome writes, if any. */
  function Placed(o: Outcome): Option<Placement> {
    if o.Written? then Some(o.p) else None
  }

  /** The placement an outcome function gives a row. */
  function PlacementOf(decide: seq<string> -> Outcome): seq<string> -> Option<Placement> {
    row => Placed(decide(row))
  }

  /** A written row that, read again, gets no placement or the same one stays as written on a second pass. */
  lemma RewriteStable(row: seq<string>, decide: seq<string> -> Outcome)
    requires decide(row).Written? ==>
      var p := decide(row).p;
      var again := decide(SetCell(row, p.idx, p.value));
      !again.Written? || again.p == p
    ensures var place := PlacementOf(decide);
      var r' := AfterRow(row, place(row));
      AfterRow(r', place(r')) == r'
  {
    if decide(row).Written? {
      var p := decide(row).p;
      SetCellTwice(row, p.idx, p.value);
    }
  }

  /** `matched` counts the writes, the batch is the placements of the rows, and no row is counted twice. */
  lemma {:induction false} TallyOfSpec(rows: seq<seq<string>>, decide: seq<string> -> Outcome)
    ensures var t := TallyOf(rows, decide);
      && t.matched == |t.writes|
      && t.writes == WritesOf(rows, PlacementOf(decide))
      && t.matched + t.skippedRank + t.skippedFilter + t.skippedExisting <= |rows|
  {
    if |rows| > 0 {
      TallyOfSpec(rows[..|rows| - 1], decide);
    }
  }
}
