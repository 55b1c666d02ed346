/**
 * The grouping loops of the deadline reader: which rows become notices,
 * under which agency label, remaining-days value and task name, and the
 * nested `setdefault` dictionaries they are collected into; the older
 * two-level grouping; and the per-tab diagnosis report.
 *
 * Every sheet read is an input: the scanned candidate rows, row 1, all
 * values, and the result of the column batch read (`None` when it raised).
 */
module SheetGrouping {
  import opened Common
  import opened Dicts
  import opened SheetClient

  // ---------------------------------------------------------------------
  // The fields of one row
  // ---------------------------------------------------------------------

  /** `filter_mode`: "agency", "internal", or any other text. */
  datatype FilterMode = AgencyMode | InternalMode | OtherMode

  function ModeOf(text: string): FilterMode {
    if text == "agency" then AgencyMode else if text == "internal" then InternalMode else OtherMode
  }

  /** The seven values the loops read from one row, normalised as they normalise them. */
  datatype RowFields = RowFields(
    agency: string, checked: bool, internal: bool, remain: Option<int>,
    bizname: string, product: string, productName: string)

  /** `str(value or "").strip()`. */
  function TextOf(value: Option<string>): string {
    match value
    case Some(v) => Strip(v)
    case None => ""
  }

  function Field(s: Settings, rec: Dict<string, string>, id: KeyId): Option<string> {
    GetValueFlexible(rec, WantedOf(s, id))
  }

  /** The fields of a record on the full-scan path. */
  function RecordFields(s: Settings, rec: Dict<string, string>): RowFields {
    RowFields(
      TextOf(Field(s, rec, AgencyKey)), IsTruthy(Field(s, rec, CheckedKey)), IsTruthy(Field(s, rec, InternalKey)),
      ParseIntMaybe(Field(s, rec, RemainingKey)), TextOf(Field(s, rec, BiznameKey)),
      TextOf(Field(s, rec, ProductKey)), TextOf(Field(s, rec, ProductNameKey)))
  }

  // ---------------------------------------------------------------------
  // Which rows become notices, and where they are filed
  // ---------------------------------------------------------------------

  /** The mode filter: "internal" keeps only internal rows; "agency" and every other mode drop them. */
  predicate ModeKeeps(mode: FilterMode, internal: bool) {
    if mode == InternalMode then internal else !internal
  }

  /** The common filter: not yet notified, a remaining-days value among the selected ones, and a business name. */
  predicate Selected(mode: FilterMode, days: seq<int>, f: RowFields) {
    ModeKeeps(mode, f.internal) && !f.checked && f.remain.Some? && f.remain.value in days && f.bizname != ""
  }

  /** The tab is the 기타 (miscellaneous) tab, whitespace and case aside. */
  predicate IsMiscTab(tab: string) {
    CollapseSpaces(tab) == CollapseSpaces("기타")
  }

  /**
   * The task name: on the 기타 tab the product name, elsewhere the tab
   * followed by the product; the tab name itself when that value is empty.
   */
  function DisplayTask(tab: string, product: string, productName: string): (task: string)
    ensures IsMiscTab(tab) && productName != "" ==> task == productName
    ensures !IsMiscTab(tab) && product != "" ==> exists k :: StrippedAt(tab + " " + product, task, k)
    ensures (IsMiscTab(tab) && productName == "") || (!IsMiscTab(tab) && product == "") ==> task == tab
  {
    if IsMiscTab(tab) then (if productName != "" then productName else tab)
    else if product != "" then StripSpec(tab + " " + product); Strip(tab + " " + product)
    else tab
  }

  /** The agency label: as read in agency mode; in the other modes an empty agency reads 내부 진행. */
  function Label(mode: FilterMode, agency: string): string {
    if mode == AgencyMode || agency != "" then agency else "내부 진행"
  }

  /** One notice: the agency label, remaining days and task it is filed under, and the business it names. */
  datatype Entry = Entry(agency: string, day: int, task: string, name: string)

  /** The notice a row gives, if it passes the filters. */
  function EntryOf(mode: FilterMode, days: seq<int>, tab: string, f: RowFields): (e: Option<Entry>)
    ensures f.internal && mode != InternalMode ==> e.None?
    ensures !f.internal && mode == InternalMode ==> e.None?
    ensures f.checked || f.remain.None? || f.bizname == "" ==> e.None?
    ensures e.Some? <==> Selected(mode, days, f)
    ensures e.Some? ==> e.value.day in days && e.value.name == f.bizname != ""
    ensures e.Some? && mode == AgencyMode ==> e.value.agency == f.agency
    ensures e.Some? && mode != AgencyMode ==> e.value.agency != "" && (f.agency != "" ==> e.value.agency == f.agency)
  {
    if Selected(mode, days, f) then
      Some(Entry(Label(mode, f.agency), f.remain.value, DisplayTask(tab, f.product, f.productName), f.bizname))
    else None
  }

  // ---------------------------------------------------------------------
  // agency -> remaining days -> task -> names
  // ---------------------------------------------------------------------

  type TaskMap = Dict<string, seq<string>>
  type DayMap = Dict<int, TaskMap>
  type AgencyMap = Dict<string, DayMap>

  /** `name_list = by_task.setdefault(task, [])`, then the name unless it is listed already. */
  function AddToTask(tm: TaskMap, task: string, name: string): TaskMap {
    Set(tm, task, AddNew(GetOr(tm, task, []), name))
  }

  /** `by_day.setdefault(day, {})`, then the task step. */
  function AddToDay(dm: DayMap, day: int, task: string, name: string): DayMap {
    Set(dm, day, AddToTask(GetOr(dm, day, []), task, name))
  }

  /** `agency_map.setdefault(label, {})`, then the day step. */
  function AddEntry(m: AgencyMap, e: Entry): AgencyMap {
    Set(m, e.agency, AddToDay(GetOr(m, e.agency, []), e.day, e.task, e.name))
  }

  /** The nested dictionaries after filing the notices in order. */
  function Group(es: seq<Entry>): AgencyMap {
    Fold([], es, AddEntry)
  }

  /** The labels of the notices, in order. */
  function LabelsOf(es: seq<Entry>): seq<string> {
    if |es| == 0 then [] else LabelsOf(es[..|es| - 1]) + [es[|es| - 1].agency]
  }

  /** The days of the notices filed under `l`, in order. */
  function DaysOf(es: seq<Entry>, l: string): seq<int> {
    if |es| == 0 then []
    else DaysOf(es[..|es| - 1], l) + (if es[|es| - 1].agency == l then [es[|es| - 1].day] else [])
  }

  /** The tasks of the notices filed under `l` and `d`, in order. */
  function TasksOf(es: seq<Entry>, l: string, d: int): seq<string> {
    if |es| == 0 then []
    else
      var e := es[|es| - 1];
      TasksOf(es[..|es| - 1], l, d) + (if e.agency == l && e.day == d then [e.task] else [])
  }

  /** The names of the notices filed under `l`, `d` and `t`, in order. */
  function NamesOf(es: seq<Entry>, l: string, d: int, t: string): seq<string> {
    if |es| == 0 then []
    else
      var e := es[|es| - 1];
      NamesOf(es[..|es| - 1], l, d, t) + (if e.agency == l && e.day == d && e.task == t then [e.name] else [])
  }

  function DayMapAt(m: AgencyMap, l: string): DayMap {
    GetOr(m, l, [])
  }

  function TaskMapAt(m: AgencyMap, l: string, d: int): TaskMap {
    GetOr(DayMapAt(m, l), d, [])
  }

  function NamesAt(m: AgencyMap, l: string, d: int, t: string): seq<string> {
    GetOr(TaskMapAt(m, l, d), t, [])
  }

  /** Filing one notice adds its agency, if new, at the end. */
  lemma AddEntryAgencies(m: AgencyMap, e: Entry)
    ensures Keys(AddEntry(m, e)) == AddNew(Keys(m), e.agency)
  {
    SetKeys(m, e.agency, AddToDay(DayMapAt(m, e.agency), e.day, e.task, e.name));
  }

  /** Filing one notice adds its day, if new, under its agency and nowhere else. */
  lemma AddEntryDays(m: AgencyMap, e: Entry, l: string)
    ensures Keys(DayMapAt(AddEntry(m, e), l)) ==
      if l == e.agency then AddNew(Keys(DayMapAt(m, l)), e.day) else Keys(DayMapAt(m, l))
  {
    var dm := DayMapAt(m, e.agency);
    GetOrSet(m, e.agency, AddToDay(dm, e.day, e.task, e.name), l, []);
    SetKeys(dm, e.day, AddToTask(GetOr(dm, e.day, []), e.task, e.name));
  }

  /** Filing one notice adds its task, if new, under its agency and day and nowhere else. */
  lemma AddEntryTasks(m: AgencyMap, e: Entry, l: string, d: int)
    ensures Keys(TaskMapAt(AddEntry(m, e), l, d)) ==
      if l == e.agency && d == e.day then AddNew(Keys(TaskMapAt(m, l, d)), e.task) else Keys(TaskMapAt(m, l, d))
  {
    var dm := DayMapAt(m, e.agency);
    var tm := GetOr(dm, e.day, []);
    GetOrSet(m, e.agency, AddToDay(dm, e.day, e.task, e.name), l, []);
    GetOrSet(dm, e.day, AddToTask(tm, e.task, e.name), d, []);
    SetKeys(tm, e.task, AddNew(GetOr(tm, e.task, []), e.name));
  }

  /** Filing one notice adds its name, if new, to its own list and to no other. */
  lemma AddEntryNames(m: AgencyMap, e: Entry, l: string, d: int, t: string)
    ensures NamesAt(AddEntry(m, e), l, d, t) ==
      if l == e.agency && d == e.day && t == e.task then AddNew(NamesAt(m, l, d, t), e.name) else NamesAt(m, l, d, t)
  {
    var dm := DayMapAt(m, e.agency);
    var tm := GetOr(dm, e.day, []);
    GetOrSet(m, e.agency, AddToDay(dm, e.day, e.task, e.name), l, []);
    GetOrSet(dm, e.day, AddToTask(tm, e.task, e.name), d, []);
    GetOrSet(tm, e.task, AddNew(GetOr(tm, e.task, []), e.name), t, []);
  }

  /** The agencies of the grouped map appear once each, in the order first seen. */
  lemma {:induction false} GroupAgencies(es: seq<Entry>)
    ensures Keys(Group(es)) == Dedup(LabelsOf(es))
  {
    if |es| > 0 {
      var init := es[..|es| - 1];
      var e := es[|es| - 1];
      GroupAgencies(init);
      AddEntryAgencies(Group(init), e);
      DedupSnoc(LabelsOf(init), e.agency);
    }
  }

  /** The days under an agency appear once each, in the order first seen. */
  lemma {:induction false} GroupDays(es: seq<Entry>, l: string)
    ensures Keys(DayMapAt(Group(es), l)) == Dedup(DaysOf(es, l))
  {
    if |es| > 0 {
      var init := es[..|es| - 1];
      var e := es[|es| - 1];
      GroupDays(init, l);
      AddEntryDays(Group(init), e, l);
      if e.agency == l {
        DedupSnoc(DaysOf(init, l), e.day);
      } else {
        assert DaysOf(es, l) == DaysOf(init, l) + [];
        assert DaysOf(init, l) + [] == DaysOf(init, l);
      }
    }
  }

  /** The tasks under an agency and day appear once each, in the order first seen. */
  lemma {:induction false} GroupTasks(es: seq<Entry>, l: string, d: int)
    ensures Keys(TaskMapAt(Group(es), l, d)) == Dedup(TasksOf(es, l, d))
  {
    if |es| > 0 {
      var init := es[..|es| - 1];
      var e := es[|es| - 1];
      GroupTasks(init, l, d);
      AddEntryTasks(Group(init), e, l, d);
      if e.agency == l && e.day == d {
        DedupSnoc(TasksOf(init, l, d), e.task);
      } else {
        assert TasksOf(es, l, d) == TasksOf(init, l, d) + [];
        assert TasksOf(init, l, d) + [] == TasksOf(init, l, d);
      }
    }
  }

  /** A name list holds the names filed under its path, each once, in the order first seen. */
  lemma {:induction false} GroupNames(es: seq<Entry>, l: string, d: int, t: string)
    ensures NamesAt(Group(es), l, d, t) == Dedup(NamesOf(es, l, d, t))
  {
    if |es| > 0 {
      var init := es[..|es| - 1];
      var e := es[|es| - 1];
      GroupNames(init, l, d, t);
      AddEntryNames(Group(init), e, l, d, t);
      if e.agency == l && e.day == d && e.task == t {
        DedupSnoc(NamesOf(init, l, d, t), e.name);
      } else {
        assert NamesOf(es, l, d, t) == NamesOf(init, l, d, t) + [];
        assert NamesOf(init, l, d, t) + [] == NamesOf(init, l, d, t);
      }
    }
  }

  /** Every notice carries a selected day and a business name. */
  predicate AllSelected(es: seq<Entry>, days: seq<int>) {
    forall i :: 0 <= i < |es| ==> es[i].day in days && es[i].name != ""
  }

  lemma {:induction false} NamesOfSpec(es: seq<Entry>, l: string, d: int, t: string, days: seq<int>)
    requires AllSelected(es, days)
    ensures forall n :: n in NamesOf(es, l, d, t) ==> n != "" && d in days
  {
    if |es| > 0 {
      NamesOfSpec(es[..|es| - 1], l, d, t, days);
    }
  }

  /**
   * A name list never repeats a business, holds exactly the names filed
   * under its path, and (for selected rows) only non-empty names under a
   * selected day.
   */
  lemma NameListsSpec(es: seq<Entry>, l: string, d: int, t: string, days: seq<int>)
    requires AllSelected(es, days)
    ensures var names := NamesAt(Group(es), l, d, t);
      && Distinct(names)
      && (forall n :: n in names <==> n in NamesOf(es, l, d, t))
      && (forall n :: n in names ==> n != "" && d in days)
  {
    GroupNames(es, l, d, t);
    DedupSpec(NamesOf(es, l, d, t));
    NamesOfSpec(es, l, d, t, days);
  }

  // ---------------------------------------------------------------------
  // The full-scan path
  // ---------------------------------------------------------------------

  /** The notices of a tab's records, in row order. */
  function LegacyEntries(s: Settings, mode: FilterMode, days: seq<int>, tab: string, recs: seq<Dict<string, string>>): (es: seq<Entry>)
    ensures AllSelected(es, days)
  {
    if |recs| == 0 then []
    else
      var init := LegacyEntries(s, mode, days, tab, recs[..|recs| - 1]);
      var e := EntryOf(mode, days, tab, RecordFields(s, recs[|recs| - 1]));
      AppendSelected(init, e, days);
      if e.Some? then init + [e.value] else init
  }

  // ---------------------------------------------------------------------
  // The batch path: one column range per located key
  // ---------------------------------------------------------------------

  /** `_resolve_positions` for one column: the first header that matches it. */
  function Position(headers: seq<string>, w: Wanted): Option<nat> {
    if |headers| == 0 then None
    else match Position(headers[..|headers| - 1], w)
      case Some(i) => Some(i)
      case None => if Matches(headers[|headers| - 1], w) then Some(|headers| - 1) else None
  }

  /** A position is the first matching header; there is none exactly when no header matches. */
  lemma PositionSpec(headers: seq<string>, w: Wanted)
    ensures var r := Position(headers, w);
      && (r.None? <==> forall i :: 0 <= i < |headers| ==> !Matches(headers[i], w))
      && (r.Some? ==> r.value < |headers| && Matches(headers[r.value], w)
                      && forall i :: 0 <= i < r.value ==> !Matches(headers[i], w))
  {
    PositionNone(headers, w);
    PositionFirst(headers, w);
  }

  lemma {:induction false} PositionNone(headers: seq<string>, w: Wanted)
    ensures Position(headers, w).None? <==> forall i :: 0 <= i < |headers| ==> !Matches(headers[i], w)
  {
    if |headers| > 0 {
      var n := |headers| - 1;
      PositionNone(headers[..n], w);
      PositionSnoc(headers, n, w);
      assert headers[..n + 1] == headers;
      assert forall i :: 0 <= i < n ==> headers[..n][i] == headers[i];
    }
  }

  lemma {:induction false} PositionFirst(headers: seq<string>, w: Wanted)
    ensures var r := Position(headers, w);
      r.Some? ==> r.value < |headers| && Matches(headers[r.value], w)
                  && forall i :: 0 <= i < r.value ==> !Matches(headers[i], w)
  {
    if |headers| > 0 {
      var n := |headers| - 1;
      PositionFirst(headers[..n], w);
      PositionNone(headers[..n], w);
      PositionSnoc(headers, n, w);
      assert headers[..n + 1] == headers;
      assert forall i :: 0 <= i < n ==> headers[..n][i] == headers[i];
    }
  }

  /** Looking at one more header: a key already located stays, an unlocated key takes it if it matches. */
  lemma PositionSnoc(headers: seq<string>, idx: nat, w: Wanted)
    requires idx < |headers|
    ensures Position(headers[..idx + 1], w) ==
      if Position(headers[..idx], w).Some? then Position(headers[..idx], w)
      else if Matches(headers[idx], w) then Some(idx) else None
  {
    assert headers[..idx + 1][..idx] == headers[..idx];
  }

  /** The positions of the wanted columns, in order. */
  function PositionsOf(headers: seq<string>, req: seq<Wanted>): (pos: seq<Option<nat>>)
    ensures |pos| == |req|
  {
    seq(|req|, k requires 0 <= k < |req| => Position(headers, req[k]))
  }

  /** The positions of the seven keys, in key order. */
  function Positions(headers: seq<string>, s: Settings): (pos: seq<Option<nat>>)
    ensures |pos| == |KeyOrder|
  {
    PositionsOf(headers, Required(s))
  }

  /** The loop of `_resolve_positions`: each key takes the first header index that matches it. */
  method ResolvePositions(headers: seq<string>, req: seq<Wanted>) returns (pos: seq<Option<nat>>)
    ensures pos == PositionsOf(headers, req)
  {
    pos := seq(|req|, k => None);
    for idx := 0 to |headers|
      invariant |pos| == |req|
      invariant forall k :: 0 <= k < |req| ==> pos[k] == Position(headers[..idx], req[k])
    {
      for k := 0 to |req|
        invariant |pos| == |req|
        invariant forall k' :: 0 <= k' < k ==> pos[k'] == Position(headers[..idx + 1], req[k'])
        invariant forall k' :: k <= k' < |req| ==> pos[k'] == Position(headers[..idx], req[k'])
      {
        PositionSnoc(headers, idx, req[k]);
        if pos[k].None? && Matches(headers[idx], req[k]) {
          pos := pos[k := Some(idx)];
        }
      }
    }
    assert headers[..|headers|] == headers;
  }

  predicate AllNone(pos: seq<Option<nat>>) {
    forall k :: 0 <= k < |pos| ==> pos[k].None?
  }

  /** How many keys before `k` have a column. */
  function CountSome(pos: seq<Option<nat>>): nat {
    if |pos| == 0 then 0 else CountSome(pos[..|pos| - 1]) + (if pos[|pos| - 1].Some? then 1 else 0)
  }

  /** The range text of a column from the row after the header down: `f"{col}{start}:{col}"`. */
  function RangeText(pos: nat, headerRow: nat): string {
    ColLetter(pos) + NatToString(headerRow + 1) + ":" + ColLetter(pos)
  }

  /** The requested ranges, one per located key, in key order. */
  function Ranges(pos: seq<Option<nat>>, headerRow: nat): (r: seq<string>)
    ensures |r| == CountSome(pos)
  {
    if |pos| == 0 then []
    else Ranges(pos[..|pos| - 1], headerRow) + (match pos[|pos| - 1] case Some(p) => [RangeText(p, headerRow)] case None => [])
  }

  /** `columns_data[j][0]` when present, else []; each value stripped. */
  function ColumnOf(data: seq<seq<seq<string>>>, j: nat): seq<string> {
    if j < |data| && |data[j]| > 0 then StripAll(data[j][0]) else []
  }

  /** `key_to_values`, in key order: the j-th returned column goes to the j-th located key. */
  function KeyValues(pos: seq<Option<nat>>, data: seq<seq<seq<string>>>): (cols: seq<seq<string>>)
    ensures |cols| == |pos|
  {
    if |pos| == 0 then []
    else
      var init := KeyValues(pos[..|pos| - 1], data);
      init + [if pos[|pos| - 1].Some? then ColumnOf(data, CountSome(pos[..|pos| - 1])) else []]
  }

  /** Each located key reads the column of its own range, and a key without a column reads nothing. */
  lemma {:induction false} KeyValuesAligned(pos: seq<Option<nat>>, data: seq<seq<seq<string>>>, headerRow: nat, k: nat)
    requires k < |pos|
    ensures pos[k].None? ==> KeyValues(pos, data)[k] == []
    ensures pos[k].Some? ==>
      && CountSome(pos[..k]) < |Ranges(pos, headerRow)|
      && Ranges(pos, headerRow)[CountSome(pos[..k])] == RangeText(pos[k].value, headerRow)
      && KeyValues(pos, data)[k] == ColumnOf(data, CountSome(pos[..k]))
  {
    var n := |pos| - 1;
    var init := pos[..n];
    if k < n {
      KeyValuesAligned(init, data, headerRow, k);
      assert init[..k] == pos[..k];
      CountSomeMono(pos);
    } else {
      assert init == pos[..k];
    }
  }

  lemma CountSomeMono(pos: seq<Option<nat>>)
    requires |pos| > 0
    ensures CountSome(pos[..|pos| - 1]) <= CountSome(pos)
  {
  }

  /** The longest column. */
  function MaxLen(cols: seq<seq<string>>): (n: nat)
    ensures forall k :: 0 <= k < |cols| ==> |cols[k]| <= n
  {
    if |cols| == 0 then 0
    else
      var m := MaxLen(cols[..|cols| - 1]);
      var l := |cols[|cols| - 1]|;
      if l > m then l else m
  }

  function CellAt(col: seq<string>, i: nat): string {
    if i < |col| then col[i] else ""
  }

  /** The fields of row `i` on the batch path, columns in key order. */
  function BatchFields(cols: seq<seq<string>>, i: nat): RowFields
    requires |cols| == |KeyOrder|
  {
    RowFields(
      Strip(CellAt(cols[0], i)), IsTruthy(Some(CellAt(cols[3], i))), IsTruthy(Some(CellAt(cols[1], i))),
      ParseIntMaybe(Some(CellAt(cols[2], i))), Strip(CellAt(cols[4], i)),
      Strip(CellAt(cols[5], i)), Strip(CellAt(cols[6], i)))
  }

  /** The notices of the first `n` batch rows, in row order. */
  function BatchEntries(mode: FilterMode, days: seq<int>, tab: string, cols: seq<seq<string>>, n: nat): (es: seq<Entry>)
    requires |cols| == |KeyOrder|
    ensures AllSelected(es, days)
  {
    if n == 0 then []
    else
      var init := BatchEntries(mode, days, tab, cols, n - 1);
      var e := EntryOf(mode, days, tab, BatchFields(cols, n - 1));
      AppendSelected(init, e, days);
      if e.Some? then init + [e.value] else init
  }

  /** Appending a kept row, or nothing, keeps every row selected. */
  lemma AppendSelected(es: seq<Entry>, e: Option<Entry>, days: seq<int>)
    requires AllSelected(es, days) && (e.Some? ==> e.value.day in days && e.value.name != "")
    ensures AllSelected(if e.Some? then es + [e.value] else es, days)
  {
  }

  /** A batch read that returned nothing gives no rows. */
  lemma NoDataNoRows(pos: seq<Option<nat>>)
    ensures MaxLen(KeyValues(pos, [])) == 0
  {
    var cols := KeyValues(pos, []);
    NoDataColumns(pos);
    MaxLenEmpty(cols);
  }

  lemma {:induction false} NoDataColumns(pos: seq<Option<nat>>)
    ensures forall k :: 0 <= k < |pos| ==> KeyValues(pos, [])[k] == []
  {
    if |pos| > 0 {
      NoDataColumns(pos[..|pos| - 1]);
    }
  }

  lemma {:induction false} MaxLenEmpty(cols: seq<seq<string>>)
    requires forall k :: 0 <= k < |cols| ==> cols[k] == []
    ensures MaxLen(cols) == 0
  {
    if |cols| > 0 {
      MaxLenEmpty(cols[..|cols| - 1]);
    }
  }

  // ---------------------------------------------------------------------
  // One tab, and the whole spreadsheet
  // ---------------------------------------------------------------------

  /**
   * The reads of one tab: its title, the scanned top rows, row 1, all
   * values, and the columns the batch read returned (`None` when it raised).
   */
  datatype Sheet = Sheet(
    title: string, candidates: seq<seq<string>>, firstRow: seq<string>,
    values: seq<seq<string>>, batch: Option<seq<seq<seq<string>>>>)

  /** The path a tab takes. */
  datatype Path = FullScan | Skip | Batch(data: seq<seq<seq<string>>>)

  /**
   * Batch reads off: full scan. No key located: full scan if the fallback
   * is on, else the tab is skipped. A batch read that raised: full scan if
   * the fallback is on, else the batch loop over no columns.
   */
  function PathOf(s: Settings, pos: seq<Option<nat>>, batch: Option<seq<seq<seq<string>>>>): (p: Path)
    ensures !s.batchGet ==> p == FullScan
    ensures s.batchGet && AllNone(pos) ==> p == (if s.batchGetFallback then FullScan else Skip)
    ensures s.batchGet && !AllNone(pos) && batch.Some? ==> p == Batch(batch.value)
    ensures s.batchGet && !AllNone(pos) && batch.None? ==> p == (if s.batchGetFallback then FullScan else Batch([]))
  {
    if !s.batchGet then FullScan
    else if AllNone(pos) then (if s.batchGetFallback then FullScan else Skip)
    else match batch
      case Some(data) => Batch(data)
      case None => if s.batchGetFallback then FullScan else Batch([])
  }

  /** The notices of one tab. */
  function SheetEntries(s: Settings, mode: FilterMode, days: seq<int>, sh: Sheet): (es: seq<Entry>)
    ensures AllSelected(es, days)
  {
    var tab := Strip(sh.title);
    var (headerRow, headers) := HeaderRow(sh.candidates, sh.firstRow, Required(s));
    var pos := Positions(headers, s);
    match PathOf(s, pos, sh.batch)
    case FullScan => LegacyEntries(s, mode, days, tab, Records(sh.values, headerRow, headers))
    case Skip => []
    case Batch(data) =>
      var cols := KeyValues(pos, data);
      BatchEntries(mode, days, tab, cols, MaxLen(cols))
  }

  /** The items of each tab, tab by tab. */
  function ConcatMap<S, E>(xs: seq<S>, f: S -> seq<E>): seq<E> {
    if |xs| == 0 then [] else ConcatMap(xs[..|xs| - 1], f) + f(xs[|xs| - 1])
  }

  lemma ConcatMapSnoc<S, E>(xs: seq<S>, f: S -> seq<E>, i: nat)
    requires i < |xs|
    ensures ConcatMap(xs[..i + 1], f) == ConcatMap(xs[..i], f) + f(xs[i])
  {
    assert xs[..i + 1][..i] == xs[..i];
  }

  /** The notices of all tabs, tab by tab. */
  function AllEntries(s: Settings, mode: FilterMode, days: seq<int>, sheets: seq<Sheet>): seq<Entry> {
    ConcatMap(sheets, sh => SheetEntries(s, mode, days, sh))
  }

  lemma {:induction false} ConcatSelected<S>(xs: seq<S>, f: S -> seq<Entry>, days: seq<int>)
    requires forall x :: AllSelected(f(x), days)
    ensures AllSelected(ConcatMap(xs, f), days)
  {
    if |xs| > 0 {
      ConcatSelected(xs[..|xs| - 1], f, days);
    }
  }

  /** Every notice of the spreadsheet carries a selected day and a business name. */
  lemma AllEntriesSelected(s: Settings, mode: FilterMode, days: seq<int>, sheets: seq<Sheet>)
    ensures AllSelected(AllEntries(s, mode, days, sheets), days)
  {
    ConcatSelected(sheets, sh => SheetEntries(s, mode, days, sh), days);
  }

  /** The tab loop: each tab's notices filed, row by row, into one shared map. */
  method FileTabs<S>(sheets: seq<S>, entriesOf: S -> seq<Entry>) returns (m: AgencyMap)
    ensures m == Group(ConcatMap(sheets, entriesOf))
  {
    m := [];
    for i := 0 to |sheets|
      invariant m == Group(ConcatMap(sheets[..i], entriesOf))
    {
      ConcatMapSnoc(sheets, entriesOf, i);
      FoldAppend([], ConcatMap(sheets[..i], entriesOf), entriesOf(sheets[i]), AddEntry);
      m := FoldLoop(m, entriesOf(sheets[i]), AddEntry);
    }
    assert sheets[..|sheets|] == sheets;
  }

  /** `fetch_grouped_messages_by_date`. */
  method FetchGroupedByDate(s: Settings, mode: FilterMode, days: seq<int>, sheets: seq<Sheet>) returns (m: AgencyMap)
    ensures m == Group(AllEntries(s, mode, days, sheets))
  {
    m := FileTabs(sheets, sh => SheetEntries(s, mode, days, sh));
  }

  // ---------------------------------------------------------------------
  // fetch_grouped_messages: agency -> tab -> names
  // ---------------------------------------------------------------------

  /** A notice of the older grouping: agency, tab title and business. */
  datatype Notice = Notice(agency: string, task: string, name: string)

  /**
   * The older filter: not notified, not internal, a selected remaining-days
   * value and a business name; an empty agency reads 미지정 대행사.
   */
  function NoticeOf(s: Settings, days: seq<int>, title: string, rec: Dict<string, string>): (n: Option<Notice>)
    ensures var f := RecordFields(s, rec);
      && (n.Some? <==> !f.checked && !f.internal && f.remain.Some? && f.remain.value in days && f.bizname != "")
      && (n.Some? ==> n.value.agency != "" && n.value.task == title && n.value.name == f.bizname)
  {
    var f := RecordFields(s, rec);
    if f.checked || f.internal || f.remain.None? || f.remain.value !in days || f.bizname == "" then None
    else Some(Notice(if f.agency != "" then f.agency else "미지정 대행사", title, f.bizname))
  }

  type AgencyTasks = Dict<string, TaskMap>

  function AddNotice(m: AgencyTasks, n: Notice): AgencyTasks {
    Set(m, n.agency, AddToTask(GetOr(m, n.agency, []), n.task, n.name))
  }

  function GroupNotices(ns: seq<Notice>): AgencyTasks {
    Fold([], ns, AddNotice)
  }

  function NoticeNames(ns: seq<Notice>, a: string, t: string): seq<string> {
    if |ns| == 0 then []
    else
      var n := ns[|ns| - 1];
      NoticeNames(ns[..|ns| - 1], a, t) + (if n.agency == a && n.task == t then [n.name] else [])
  }

  function AgenciesOf(ns: seq<Notice>): seq<string> {
    if |ns| == 0 then [] else AgenciesOf(ns[..|ns| - 1]) + [ns[|ns| - 1].agency]
  }

  /** Filing one notice adds its agency, if new, at the end. */
  lemma AddNoticeAgencies(m: AgencyTasks, n: Notice)
    ensures Keys(AddNotice(m, n)) == AddNew(Keys(m), n.agency)
  {
    SetKeys(m, n.agency, AddToTask(GetOr(m, n.agency, []), n.task, n.name));
  }

  /** Filing one notice adds its name, if new, to its own list and to no other. */
  lemma AddNoticeNames(m: AgencyTasks, n: Notice, a: string, t: string)
    ensures GetOr(GetOr(AddNotice(m, n), a, []), t, []) ==
      if a == n.agency && t == n.task then AddNew(GetOr(GetOr(m, a, []), t, []), n.name) else GetOr(GetOr(m, a, []), t, [])
  {
    var tm := GetOr(m, n.agency, []);
    GetOrSet(m, n.agency, AddToTask(tm, n.task, n.name), a, []);
    GetOrSet(tm, n.task, AddNew(GetOr(tm, n.task, []), n.name), t, []);
  }

  /** Agencies appear once each, in the order first seen. */
  lemma {:induction false} GroupNoticesAgencies(ns: seq<Notice>)
    ensures Keys(GroupNotices(ns)) == Dedup(AgenciesOf(ns))
  {
    if |ns| > 0 {
      var init := ns[..|ns| - 1];
      var n := ns[|ns| - 1];
      GroupNoticesAgencies(init);
      AddNoticeAgencies(GroupNotices(init), n);
      DedupSnoc(AgenciesOf(init), n.agency);
    }
  }

  /** Each tab's name list holds the names filed there, each once, in the order first seen. */
  lemma {:induction false} GroupNoticesNames(ns: seq<Notice>, a: string, t: string)
    ensures GetOr(GetOr(GroupNotices(ns), a, []), t, []) == Dedup(NoticeNames(ns, a, t))
  {
    if |ns| > 0 {
      var init := ns[..|ns| - 1];
      var n := ns[|ns| - 1];
      GroupNoticesNames(init, a, t);
      AddNoticeNames(GroupNotices(init), n, a, t);
      if n.agency == a && n.task == t {
        DedupSnoc(NoticeNames(init, a, t), n.name);
      } else {
        assert NoticeNames(ns, a, t) == NoticeNames(init, a, t) + [];
        assert NoticeNames(init, a, t) + [] == NoticeNames(init, a, t);
      }
    }
  }

  /** The notices of a tab's records, in row order. */
  function TabNotices(s: Settings, days: seq<int>, title: string, recs: seq<Dict<string, string>>): seq<Notice> {
    if |recs| == 0 then []
    else
      var init := TabNotices(s, days, title, recs[..|recs| - 1]);
      match NoticeOf(s, days, title, recs[|recs| - 1])
      case Some(n) => init + [n]
      case None => init
  }

  function SheetRecords(s: Settings, sh: Sheet): seq<Dict<string, string>> {
    var (headerRow, headers) := HeaderRow(sh.candidates, sh.firstRow, Required(s));
    Records(sh.values, headerRow, headers)
  }

  function TabNoticesOf(s: Settings, days: seq<int>, sh: Sheet): seq<Notice> {
    TabNotices(s, days, sh.title, SheetRecords(s, sh))
  }

  function AllNotices(s: Settings, days: seq<int>, sheets: seq<Sheet>): seq<Notice> {
    ConcatMap(sheets, sh => TabNoticesOf(s, days, sh))
  }

  /** The tab loop of `fetch_grouped_messages`: each tab's notices filed, row by row, into one shared map. */
  method FileNotices<S>(sheets: seq<S>, noticesOf: S -> seq<Notice>) returns (m: AgencyTasks)
    ensures m == GroupNotices(ConcatMap(sheets, noticesOf))
  {
    m := [];
    for i := 0 to |sheets|
      invariant m == GroupNotices(ConcatMap(sheets[..i], noticesOf))
    {
      ConcatMapSnoc(sheets, noticesOf, i);
      FoldAppend([], ConcatMap(sheets[..i], noticesOf), noticesOf(sheets[i]), AddNotice);
      m := FoldLoop(m, noticesOf(sheets[i]), AddNotice);
    }
    assert sheets[..|sheets|] == sheets;
  }

  /** `fetch_grouped_messages`. */
  method FetchGroupedMessages(s: Settings, days: seq<int>, sheets: seq<Sheet>) returns (m: AgencyTasks)
    ensures m == GroupNotices(AllNotices(s, days, sheets))
  {
    m := FileNotices(sheets, sh => TabNoticesOf(s, days, sh));
  }

  // ---------------------------------------------------------------------
  // diagnose_matches
  // ---------------------------------------------------------------------

  /** Why a row was left out, tested in this order. */
  datatype Reason = CheckedRow | InternalRow | RemainParseFailed(raw: Option<string>) | RemainNotSelected(remain: int) | NoBizname

  function ReasonOf(s: Settings, days: seq<int>, rec: Dict<string, string>): Option<Reason> {
    var f := RecordFields(s, rec);
    if f.checked then Some(CheckedRow)
    else if f.internal then Some(InternalRow)
    else if f.remain.None? then Some(RemainParseFailed(Field(s, rec, RemainingKey)))
    else if f.remain.value !in days then Some(RemainNotSelected(f.remain.value))
    else if f.bizname == "" then Some(NoBizname)
    else None
  }

  /** The diagnosis excludes exactly the rows the older grouping drops. */
  lemma ReasonAgrees(s: Settings, days: seq<int>, title: string, rec: Dict<string, string>)
    ensures ReasonOf(s, days, rec).None? <==> NoticeOf(s, days, title, rec).Some?
  {
  }

  datatype Matched = Matched(agency: string, bizname: string, remain: int)
  datatype Excluded = Excluded(agency: string, bizname: string, remainRaw: Option<string>, reason: Reason)

  /** The matched and the excluded rows of a tab, each in row order. */
  function Classify(s: Settings, days: seq<int>, recs: seq<Dict<string, string>>): (r: (seq<Matched>, seq<Excluded>))
    ensures |r.0| + |r.1| == |recs|
  {
    if |recs| == 0 then ([], [])
    else
      var (ms, xs) := Classify(s, days, recs[..|recs| - 1]);
      var rec := recs[|recs| - 1];
      var f := RecordFields(s, rec);
      match ReasonOf(s, days, rec)
      case None => (ms + [Matched(f.agency, f.bizname, f.remain.value)], xs)
      case Some(why) => (ms, xs + [Excluded(f.agency, f.bizname, Field(s, rec, RemainingKey), why)])
  }

  /** The matched rows are the notices of the older grouping, one for one and in order. */
  lemma {:induction false} ClassifyMatched(s: Settings, days: seq<int>, title: string, recs: seq<Dict<string, string>>)
    ensures var ms := Classify(s, days, recs).0;
      var ns := TabNotices(s, days, title, recs);
      |ms| == |ns| && forall i :: 0 <= i < |ms| ==> ms[i].bizname == ns[i].name && ms[i].bizname != ""
  {
    if |recs| > 0 {
      ClassifyMatched(s, days, title, recs[..|recs| - 1]);
      ReasonAgrees(s, days, title, recs[|recs| - 1]);
    }
  }

  /** `xs[:limit]`. */
  function Prefix<T>(xs: seq<T>, limit: nat): (r: seq<T>)
    ensures |r| == if limit < |xs| then limit else |xs|
    ensures r <= xs
  {
    if limit < |xs| then xs[..limit] else xs
  }

  /** The report of one tab. */
  datatype TabReport = TabReport(headerRow: nat, matchedCount: nat, matchedSample: seq<Matched>, excludedSample: seq<Excluded>)

  function TabReportOf(s: Settings, days: seq<int>, sh: Sheet, limit: nat): (r: TabReport)
    ensures r.matchedCount + |Classify(s, days, SheetRecords(s, sh)).1| == |SheetRecords(s, sh)|
    ensures |r.matchedSample| <= limit && |r.excludedSample| <= limit
  {
    var (headerRow, headers) := HeaderRow(sh.candidates, sh.firstRow, Required(s));
    var (ms, xs) := Classify(s, days, Records(sh.values, headerRow, headers));
    TabReport(headerRow, |ms|, Prefix(ms, limit), Prefix(xs, limit))
  }

  /** `diagnose_matches`: one report per tab title, a later tab of the same title replacing an earlier one. */
  function Diagnose(s: Settings, days: seq<int>, sheets: seq<Sheet>, limit: nat): Dict<string, TabReport> {
    if |sheets| == 0 then []
    else
      var sh := sheets[|sheets| - 1];
      Set(Diagnose(s, days, sheets[..|sheets| - 1], limit), sh.title, TabReportOf(s, days, sh, limit))
  }

  function Titles(sheets: seq<Sheet>): seq<string> {
    if |sheets| == 0 then [] else Titles(sheets[..|sheets| - 1]) + [sheets[|sheets| - 1].title]
  }

  /** The report has one entry per distinct title, in first-seen order, holding the last tab of that title. */
  lemma DiagnoseSpec(s: Settings, days: seq<int>, sheets: seq<Sheet>, limit: nat, t: string)
    ensures Keys(Diagnose(s, days, sheets, limit)) == Dedup(Titles(sheets))
    ensures forall i :: 0 <= i < |sheets| && sheets[i].title == t && (forall j :: i < j < |sheets| ==> sheets[j].title != t) ==>
      Get(Diagnose(s, days, sheets, limit), t) == Some(TabReportOf(s, days, sheets[i], limit))
  {
    DiagnoseKeys(s, days, sheets, limit);
    forall i | 0 <= i < |sheets| && sheets[i].title == t && (forall j :: i < j < |sheets| ==> sheets[j].title != t)
      ensures Get(Diagnose(s, days, sheets, limit), t) == Some(TabReportOf(s, days, sheets[i], limit))
    {
      DiagnoseLast(s, days, sheets, limit, i);
    }
  }

  /** The report's titles are the distinct tab titles, in first-seen order. */
  lemma {:induction false} DiagnoseKeys(s: Settings, days: seq<int>, sheets: seq<Sheet>, limit: nat)
    ensures Keys(Diagnose(s, days, sheets, limit)) == Dedup(Titles(sheets))
  {
    if |sheets| > 0 {
      var init := sheets[..|sheets| - 1];
      var sh := sheets[|sheets| - 1];
      DiagnoseKeys(s, days, init, limit);
      SetKeys(Diagnose(s, days, init, limit), sh.title, TabReportOf(s, days, sh, limit));
      DedupSnoc(Titles(init), sh.title);
    }
  }

  /** A title's entry reports the last tab with that title. */
  lemma {:induction false} DiagnoseLast(s: Settings, days: seq<int>, sheets: seq<Sheet>, limit: nat, i: nat)
    requires i < |sheets| && forall j :: i < j < |sheets| ==> sheets[j].title != sheets[i].title
    ensures Get(Diagnose(s, days, sheets, limit), sheets[i].title) == Some(TabReportOf(s, days, sheets[i], limit))
  {
    var init := sheets[..|sheets| - 1];
    var sh := sheets[|sheets| - 1];
    GetSet(Diagnose(s, days, init, limit), sh.title, TabReportOf(s, days, sh, limit), sheets[i].title);
    if i < |sheets| - 1 {
      assert init[i] == sheets[i];
      DiagnoseLast(s, days, init, limit, i);
    }
  }
}
