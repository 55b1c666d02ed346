/**
 * The weekly summary of internal jobs: the internal rows of every tab
 * become records keyed by (agency, business); each business then gets
 * one section, for the third week before the start of its
 * latest-received job, listing per task the workloads of the records
 * running in that week.
 *
 * Dates are day numbers as `date.toordinal()` counts them; the dates a
 * row's date cells parse to are given with the row, and the date in a
 * tab's title is read from the title.
 */
module InternalWeekly {
  import opened Common
  import opened Dicts
  import opened Dates
  import Sorting
  import SheetClient
  import SheetGrouping
  import Worklog
  import opened InternalManager

  // ---------------------------------------------------------------------
  // Records
  // ---------------------------------------------------------------------

  /**
   * The cells of a sheet row the weekly summary reads, stripped where the
   * source strips them. `start` and `received` are what the date parser
   * made of the two date cells (the fields need not form a real date);
   * `item`, `categories` and `memo` are the 항목 cell, the cells of the
   * 구분 column spellings in the order they are tried, and the 내부 소통용
   * cell, each empty when absent.
   */
  datatype WeekRow = WeekRow(
    agency: string,
    internal: bool,
    bizname: string,
    product: string,
    productName: string,
    workload: string,
    start: Option<Date>,
    received: Option<Date>,
    remain: Option<int>,
    item: string,
    categories: seq<string>,
    memo: string)

  /** A tab: its title and its rows. */
  datatype WeekTab = WeekTab(title: string, rows: seq<WeekRow>)

  /** One record: start day, end day, received day, task and daily workload. */
  datatype Rec = Rec(start: int, end: int, received: int, task: string, wl: int)

  /** `(agency or "내부 진행", bizname)`. */
  type GroupKey = (string, string)

  /** `date(y, m, d)`: the day number of a real date of years 1 to 9999, none otherwise. */
  function DayOf(d: Option<Date>): (r: Option<int>)
    ensures r.Some? <==> d.Some? && ValidDate(d.value) && d.value.year <= 9999
    ensures r.Some? ==> r.value >= 1
  {
    match d
    case Some(x) => if ValidDate(x) && x.year <= 9999 then Some(ToOrdinal(x)) else None
    case None => None
  }

  /** `date.max.toordinal()`, the day number of 9999-12-31. */
  const MaxDay := 3652059

  /** `base + timedelta(days=n)`, falling back to `otherwise` where Python's date overflows. */
  function ShiftOr(base: int, n: int, otherwise: int): (r: int)
    ensures 1 <= base + n <= MaxDay ==> r == base + n
    ensures !(1 <= base + n <= MaxDay) ==> r == otherwise
  {
    if 1 <= base + n <= MaxDay then base + n else otherwise
  }

  // ---------------------------------------------------------------------
  // The date in a tab title: re.search(r"(\d{4})[-/.](\d{1,2})[-/.](\d{1,2})")
  // ---------------------------------------------------------------------

  /** One of the separators `[-/.]`. */
  predicate IsDateSep(c: char) {
    c == '-' || c == '/' || c == '.'
  }

  /**
   * The middle group `\d{1,2}` at `i` with the separator after it: two
   * digits when a separator follows them, else one digit when a separator
   * follows it, else no match (0).
   */
  function MiddleGroup(t: string, i: nat): (n: nat)
    requires i <= |t|
    ensures n <= 2 && (n > 0 ==> i + n < |t| && AllDigits(t[i..i + n]) && IsDateSep(t[i + n]))
  {
    if i + 2 < |t| && IsDigit(t[i]) && IsDigit(t[i + 1]) && IsDateSep(t[i + 2]) then 2
    else if i + 1 < |t| && IsDigit(t[i]) && IsDateSep(t[i + 1]) then 1
    else 0
  }

  /** The last group `\d{1,2}` at `i`, taken greedily: two digits when there are two, else one, else no match (0). */
  function LastGroup(t: string, i: nat): (n: nat)
    requires i <= |t|
    ensures n <= 2 && i + n <= |t| && AllDigits(t[i..i + n])
    ensures n == 0 <==> i == |t| || !IsDigit(t[i])
  {
    if i < |t| && IsDigit(t[i]) then (if i + 1 < |t| && IsDigit(t[i + 1]) then 2 else 1) else 0
  }

  /** The three groups of a match starting at `i`, read as integers, or none when the pattern does not match there. */
  function TitleMatchAt(t: string, i: nat): (r: Option<Date>)
    requires i <= |t|
  {
    if i + 5 <= |t| && AllDigits(t[i..i + 4]) && IsDateSep(t[i + 4]) then
      var m := MiddleGroup(t, i + 5);
      var k := i + 5 + m + 1;
      if m == 0 || LastGroup(t, k) == 0 then None
      else
        var l := LastGroup(t, k);
        Some(Date(NatOf(t[i..i + 4]), NatOf(t[i + 5..i + 5 + m]), NatOf(t[k..k + l])))
    else None
  }

  /** The leftmost match at or after `from`. */
  function TitleMatchFrom(t: string, from: nat): (r: Option<Date>)
    requires from <= |t|
    decreases |t| - from
  {
    if from == |t| then None
    else if TitleMatchAt(t, from).Some? then TitleMatchAt(t, from)
    else TitleMatchFrom(t, from + 1)
  }

  /** The search finds nothing exactly when no position matches, and otherwise the groups of the leftmost match. */
  lemma {:induction false} TitleMatchFromSpec(t: string, from: nat) returns (i: nat)
    requires from <= |t|
    ensures TitleMatchFrom(t, from).None? <==> forall j :: from <= j < |t| ==> TitleMatchAt(t, j).None?
    ensures TitleMatchFrom(t, from).Some? ==>
      from <= i < |t| && TitleMatchFrom(t, from) == TitleMatchAt(t, i)
      && forall j :: from <= j < i ==> TitleMatchAt(t, j).None?
    decreases |t| - from
  {
    i := from;
    if from < |t| {
      if TitleMatchAt(t, from).None? {
        assert TitleMatchFrom(t, from) == TitleMatchFrom(t, from + 1);
        i := TitleMatchFromSpec(t, from + 1);
      } else {
        assert TitleMatchFrom(t, from) == TitleMatchAt(t, from);
      }
    }
  }

  /**
   * `_parse_date_from_title_to_date`: the date the leftmost match names,
   * as a day number; none when nothing matches or the match is no real
   * date, since `date(y, m, d)` then raises and the search is not retried.
   */
  function TitleDay(title: string): Option<int> {
    DayOf(TitleMatchFrom(title, 0))
  }

  /** A title whose first digits begin an ISO date names that date, whatever follows it. */
  lemma TitleDayOfIso(pre: string, d: Date, post: string)
    requires ValidDate(d) && d.year <= 9999
    requires forall i :: 0 <= i < |pre| ==> !IsDigit(pre[i])
    ensures TitleDay(pre + Iso(d) + post) == Some(ToOrdinal(d))
  {
    var t := pre + Iso(d) + post;
    TitleMatchAtIso(pre, d, post);
    forall j | 0 <= j < |pre|
      ensures TitleMatchAt(t, j).None?
    {
      assert t[j] == pre[j];
      if j + 5 <= |t| {
        assert t[j..j + 4][0] == t[j];
      }
    }
    var _ := TitleMatchFromSpec(t, 0);
  }

  /** The pattern matches at the start of an ISO date and reads back its year, month and day. */
  lemma TitleMatchAtIso(pre: string, d: Date, post: string)
    requires ValidDate(d) && d.year <= 9999
    ensures TitleMatchAt(pre + Iso(d) + post, |pre|) == Some(d)
  {
    var t := pre + Iso(d) + post;
    var n := |pre|;
    var iso := Iso(d);
    assert t[n..n + 10] == iso;
    assert iso[..4] == Pad4(d.year) && iso[5..7] == Pad2(d.month) && iso[8..10] == Pad2(d.day);
    assert t[n..n + 4] == Pad4(d.year);
    assert t[n + 5..n + 7] == Pad2(d.month);
    assert t[n + 8..n + 10] == Pad2(d.day);
    assert MiddleGroup(t, n + 5) == 2;
    assert LastGroup(t, n + 8) == 2;
  }

  /** A title without a digit names no date. */
  lemma TitleDayNoDigits(title: string)
    requires forall i :: 0 <= i < |title| ==> !IsDigit(title[i])
    ensures TitleDay(title).None?
  {
    forall j | 0 <= j < |title|
      ensures TitleMatchAt(title, j).None?
    {
      if j + 5 <= |title| {
        assert title[j..j + 4][0] == title[j];
      }
    }
    var _ := TitleMatchFromSpec(title, 0);
  }

  /**
   * The start day: the start cell's date, else the received cell's date;
   * when that is no real date, the date in the (stripped) tab title.
   */
  function StartDay(row: WeekRow, tab: string): Option<int> {
    var parsed := if row.start.Some? then row.start else row.received;
    match DayOf(parsed)
    case Some(d) => Some(d)
    case None => TitleDay(tab)
  }

  /** The 영수증리뷰 (receipt review) tab, whitespace and case aside. */
  predicate IsReceiptTab(tab: string) {
    SheetClient.CollapseSpaces(tab) == SheetClient.CollapseSpaces("영수증리뷰")
  }

  /** The first of `cells` that is not blank, stripped. */
  function FirstNonBlank(cells: seq<string>): (r: Option<string>)
    ensures r.None? <==> forall i :: 0 <= i < |cells| ==> Strip(cells[i]) == ""
    ensures r.Some? ==> exists i :: (0 <= i < |cells| && r.value == Strip(cells[i]) != ""
      && forall j :: 0 <= j < i ==> Strip(cells[j]) == "")
  {
    match NonBlankFrom(cells, 0)
    case None => None
    case Some(i) => Some(Strip(cells[i]))
  }

  /** The index of the first non-blank cell at or after `k`. */
  function NonBlankFrom(cells: seq<string>, k: nat): (r: Option<nat>)
    requires k <= |cells|
    ensures r.None? <==> forall i :: k <= i < |cells| ==> Strip(cells[i]) == ""
    ensures r.Some? ==> (k <= r.value < |cells| && Strip(cells[r.value]) != ""
      && forall j :: k <= j < r.value ==> Strip(cells[j]) == "")
    decreases |cells| - k
  {
    if k == |cells| then None
    else if Strip(cells[k]) != "" then Some(k)
    else NonBlankFrom(cells, k + 1)
  }

  /** On the receipt tab: the 항목 cell, else the first non-blank 구분 cell, else the memo. */
  function ReceiptCategory(row: WeekRow): (r: string)
    ensures Strip(row.item) != "" ==> r == Strip(row.item)
    ensures Strip(row.item) == "" && FirstNonBlank(row.categories).Some? ==> r == FirstNonBlank(row.categories).value
    ensures Strip(row.item) == "" && FirstNonBlank(row.categories).None? ==> r == Strip(row.memo)
  {
    var cat := Strip(row.item);
    if cat != "" then cat
    else
      match FirstNonBlank(row.categories)
      case Some(c) => c
      case None => Strip(row.memo)
  }

  /**
   * The task shown for a row of tab `tab` (stripped): on the receipt tab
   * its category when there is one; otherwise the name the other views
   * use.
   */
  function WeeklyTask(tab: string, row: WeekRow): string {
    if IsReceiptTab(tab) then
      var cat := ReceiptCategory(row);
      if cat != "" then cat
      else if SheetGrouping.IsMiscTab(tab) then row.productName
      else SheetGrouping.DisplayTask(tab, row.product, row.productName)
    else SheetGrouping.DisplayTask(tab, row.product, row.productName)
  }

  /**
   * The record a row adds, and under which key: none for a row that is
   * not internal, names no business, has no start day or starts outside
   * every window. The end is `base + remain` when the remaining days are
   * given and that is a date, else the start; the received day defaults
   * to the start.
   */
  function RowRecord(base: int, windows: seq<Window>, tab: string, row: WeekRow)
    : (r: Option<(GroupKey, Rec)>)
    ensures r.Some? <==>
      (row.internal && row.bizname != "" && StartDay(row, tab).Some?
      && FirstWindow(windows, StartDay(row, tab).value).Some?)
    ensures r.Some? ==>
      var d := StartDay(row, tab).value;
      && r.value.0 == (AgencyLabel(row.agency), row.bizname)
      && r.value.1.start == d
      && r.value.1.end == (if row.remain.Some? then ShiftOr(base, row.remain.value, d) else d)
      && r.value.1.received == (if DayOf(row.received).Some? then DayOf(row.received).value else d)
  {
    if !row.internal || row.bizname == "" then None
    else
      match StartDay(row, tab)
      case None => None
      case Some(d) =>
        if FirstWindow(windows, d).None? then None
        else
          var received := match DayOf(row.received) case Some(x) => x case None => d;
          var end := match row.remain case Some(n) => ShiftOr(base, n, d) case None => d;
          Some(((AgencyLabel(row.agency), row.bizname), Rec(d, end, received, WeeklyTask(tab, row), WorkloadNum(row.workload))))
  }

  /** The records one tab adds, one slot per row. */
  function TabRecords(base: int, windows: seq<Window>, t: WeekTab): (rs: seq<Option<(GroupKey, Rec)>>)
    ensures |rs| == |t.rows|
    ensures forall i :: 0 <= i < |t.rows| ==> rs[i] == RowRecord(base, windows, Strip(t.title), t.rows[i])
  {
    seq(|t.rows|, i requires 0 <= i < |t.rows| => RowRecord(base, windows, Strip(t.title), t.rows[i]))
  }

  /** The records of every tab, in sheet order. */
  function AllRecords(base: int, windows: seq<Window>, tabs: seq<WeekTab>): seq<Option<(GroupKey, Rec)>> {
    if |tabs| == 0 then [] else AllRecords(base, windows, tabs[..|tabs| - 1]) + TabRecords(base, windows, tabs[|tabs| - 1])
  }

  /** `records_by_key.setdefault(key, []).append(rec)`. */
  function AddRecord(m: Dict<GroupKey, seq<Rec>>, e: Option<(GroupKey, Rec)>): Dict<GroupKey, seq<Rec>> {
    match e
    case None => m
    case Some(kr) => Set(m, kr.0, GetOr(m, kr.0, []) + [kr.1])
  }

  /** Reference definition: the records filed under `k`, in order. */
  function RecordsOf(es: seq<Option<(GroupKey, Rec)>>, k: GroupKey): seq<Rec> {
    if |es| == 0 then []
    else
      var last := es[|es| - 1];
      RecordsOf(es[..|es| - 1], k) + (if last.Some? && last.value.0 == k then [last.value.1] else [])
  }

  /**
   * A key is present iff some record was filed under it, and then it
   * holds exactly those records, in order.
   */
  lemma {:induction false} RecordsGet(es: seq<Option<(GroupKey, Rec)>>, k: GroupKey)
    ensures Get(Fold([], es, AddRecord), k) == if RecordsOf(es, k) == [] then None else Some(RecordsOf(es, k))
  {
    if |es| > 0 {
      var init, last := es[..|es| - 1], es[|es| - 1];
      var m := Fold([], init, AddRecord);
      assert Fold([], es, AddRecord) == AddRecord(m, last);
      RecordsGet(init, k);
      assert RecordsOf(es, k) == RecordsOf(init, k) + (if last.Some? && last.value.0 == k then [last.value.1] else []);
      match last
      case None =>
        assert AddRecord(m, last) == m;
        assert RecordsOf(es, k) == RecordsOf(init, k);
      case Some(kr) =>
        assert AddRecord(m, last) == Set(m, kr.0, GetOr(m, kr.0, []) + [kr.1]);
        GetSet(m, kr.0, GetOr(m, kr.0, []) + [kr.1], k);
        if kr.0 == k {
          assert GetOr(m, k, []) == RecordsOf(init, k);
          assert RecordsOf(es, k) == GetOr(m, k, []) + [kr.1];
          assert RecordsOf(es, k) != [];
          assert Get(Fold([], es, AddRecord), k) == Some(RecordsOf(es, k));
        } else {
          assert RecordsOf(es, k) == RecordsOf(init, k);
          assert Get(Fold([], es, AddRecord), k) == Get(m, k);
        }
    }
  }

  /** The body of the row loop: file the row's record, if it has one. */
  method FileRecord(m0: Dict<GroupKey, seq<Rec>>, base: int, windows: seq<Window>, tab: string, row: WeekRow)
    returns (m: Dict<GroupKey, seq<Rec>>)
    ensures m == AddRecord(m0, RowRecord(base, windows, tab, row))
  {
    m := m0;
    var r := RowRecord(base, windows, tab, row);
    if r.Some? {
      var key := r.value.0;
      var lst := GetOr(m, key, []);
      m := Set(m, key, lst + [r.value.1]);
    }
  }

  /** The row loop of one tab. */
  method CollectTab(m0: Dict<GroupKey, seq<Rec>>, base: int, windows: seq<Window>, t: WeekTab)
    returns (m: Dict<GroupKey, seq<Rec>>)
    ensures m == Fold(m0, TabRecords(base, windows, t), AddRecord)
  {
    ghost var rs := TabRecords(base, windows, t);
    m := m0;
    var tab := Strip(t.title);
    for i := 0 to |t.rows|
      invariant m == Fold(m0, rs[..i], AddRecord)
    {
      assert rs[..i + 1][..i] == rs[..i];
      m := FileRecord(m, base, windows, tab, t.rows[i]);
    }
    assert rs[..|t.rows|] == rs;
  }

  /** The tab loop: `records_by_key` after every row of every tab. */
  method CollectRecords(base: int, windows: seq<Window>, tabs: seq<WeekTab>) returns (m: Dict<GroupKey, seq<Rec>>)
    ensures m == Fold([], AllRecords(base, windows, tabs), AddRecord)
  {
    m := [];
    for t := 0 to |tabs|
      invariant m == Fold([], AllRecords(base, windows, tabs[..t]), AddRecord)
    {
      assert tabs[..t + 1][..t] == tabs[..t];
      FoldAppend([], AllRecords(base, windows, tabs[..t]), TabRecords(base, windows, tabs[t]), AddRecord);
      m := CollectTab(m, base, windows, tabs[t]);
    }
    assert tabs[..|tabs|] == tabs;
  }

  // ---------------------------------------------------------------------
  // The third week and its sums
  // ---------------------------------------------------------------------

  function ReceivedOf(r: Rec): int { r.received }

  predicate After(a: int, b: int) { a > b }

  lemma AfterOrder()
    ensures Sorting.StrictOrder(After) && Sorting.Total(After)
  {
  }

  /** The start of the first record received last (`sorted(..., reverse=True)[0]`). */
  function Anchor(recs: seq<Rec>): int
    requires |recs| > 0
  {
    Sorting.SortBy(recs, ReceivedOf, After)[0].start
  }

  /**
   * The anchor is the start of the earliest-listed record among those
   * with the latest received day.
   */
  lemma AnchorSpec(recs: seq<Rec>)
    requires |recs| > 0
    ensures exists m :: (0 <= m < |recs| && Anchor(recs) == recs[m].start
      && (forall j :: 0 <= j < |recs| ==> recs[j].received <= recs[m].received)
      && (forall j :: 0 <= j < m ==> recs[j].received < recs[m].received))
  {
    AfterOrder();
    Sorting.SortByHead(recs, ReceivedOf, After);
    var m := Sorting.FirstTop(recs, ReceivedOf, After);
    assert forall j :: 0 <= j < |recs| ==> !After(ReceivedOf(recs[j]), ReceivedOf(recs[m]));
  }

  /** `anchor - 20 ... anchor - 14`. */
  function Week3(anchor: int): (w: Window)
    ensures w == WindowAt(anchor, 2)
  {
    Window(anchor - 20, anchor - 14)
  }

  /** Day `d` lies in `w`. */
  predicate Covers(w: Window, d: int) {
    w.start <= d <= w.end
  }

  /** `not (end < w.start or start > w.end)`. */
  predicate Overlaps(r: Rec, w: Window) {
    !(r.end < w.start || r.start > w.end)
  }

  /** For a record that does not end before it starts, overlapping means sharing a day with the window. */
  lemma OverlapsSpec(r: Rec, w: Window)
    requires r.start <= r.end && w.start <= w.end
    ensures Overlaps(r, w) <==> exists d :: Covers(Window(r.start, r.end), d) && Covers(w, d)
  {
    if Overlaps(r, w) {
      var d := if r.start < w.start then w.start else r.start;
      assert Covers(Window(r.start, r.end), d) && Covers(w, d);
    }
  }

  /** The (task, workload) pairs of the records overlapping `w`, in order. */
  function OverlapEntries(recs: seq<Rec>, w: Window): seq<(string, int)> {
    if |recs| == 0 then []
    else
      var last := recs[|recs| - 1];
      OverlapEntries(recs[..|recs| - 1], w) + (if Overlaps(last, w) then [(last.task, last.wl)] else [])
  }

  /** A task is listed iff some record with that task overlaps the window. */
  lemma {:induction false} OverlapTasks(recs: seq<Rec>, w: Window, t: string)
    ensures t in Keys(OverlapEntries(recs, w)) <==> exists i :: 0 <= i < |recs| && Overlaps(recs[i], w) && recs[i].task == t
  {
    if |recs| > 0 {
      var init, last := recs[..|recs| - 1], recs[|recs| - 1];
      OverlapTasks(init, w, t);
      var es := OverlapEntries(recs, w);
      var ei := OverlapEntries(init, w);
      assert Keys(es) == Keys(ei) + (if Overlaps(last, w) then [last.task] else []);
      if exists i :: 0 <= i < |recs| && Overlaps(recs[i], w) && recs[i].task == t {
        var i :| 0 <= i < |recs| && Overlaps(recs[i], w) && recs[i].task == t;
        if i < |init| {
          assert init[i] == recs[i];
        }
      }
      if exists i :: 0 <= i < |init| && Overlaps(init[i], w) && init[i].task == t {
        var i :| 0 <= i < |init| && Overlaps(init[i], w) && init[i].task == t;
        assert recs[i] == init[i];
      }
    }
  }

  /**
   * `task_to_sum`: a task has a sum iff one of its records overlaps the
   * window, and the sum is their workloads added up.
   */
  lemma TaskSums(recs: seq<Rec>, w: Window, t: string)
    ensures Get(Worklog.Tally(OverlapEntries(recs, w)), t) ==
      if exists i :: 0 <= i < |recs| && Overlaps(recs[i], w) && recs[i].task == t
      then Some(Worklog.KeySum(OverlapEntries(recs, w), t))
      else None
  {
    Worklog.TallyGet(OverlapEntries(recs, w), t);
    OverlapTasks(recs, w, t);
  }

  /** The loop over a business's records, summing per task those in window `w`. */
  method SumWeek(recs: seq<Rec>, w: Window) returns (sums: Dict<string, int>)
    ensures sums == Worklog.Tally(OverlapEntries(recs, w))
  {
    sums := [];
    for i := 0 to |recs|
      invariant sums == Worklog.Tally(OverlapEntries(recs[..i], w))
    {
      assert recs[..i + 1][..i] == recs[..i];
      var r := recs[i];
      var es := OverlapEntries(recs[..i], w);
      if !(r.end < w.start || r.start > w.end) {
        assert OverlapEntries(recs[..i + 1], w) == es + [(r.task, r.wl)];
        assert (es + [(r.task, r.wl)])[..|es|] == es;
        sums := Set(sums, r.task, GetOr(sums, r.task, 0) + r.wl);
      } else {
        assert OverlapEntries(recs[..i + 1], w) == es;
      }
    }
    assert recs[..|recs|] == recs;
  }

  // ---------------------------------------------------------------------
  // Sections
  // ---------------------------------------------------------------------

  /** One business's output: its key, the section's label and lines, and the text. */
  datatype Group = Group(agency: string, bizname: string, caption: string, lines: seq<string>, text: string)

  function TaskOf(e: (string, int)): string { e.0 }

  /** `f"{t} : {int(v)}"`. */
  function Line(e: (string, int)): string {
    e.0 + " : " + IntToString(e.1)
  }

  /** The sums sorted by task name. */
  function SortedSums(sums: Dict<string, int>): seq<(string, int)> {
    Sorting.SortBy(sums, TaskOf, StrLess)
  }

  /** The lines are sorted by task and hold every sum once. */
  lemma SortedSumsSpec(sums: Dict<string, int>)
    ensures Sorting.SortedBy(SortedSums(sums), TaskOf, StrLess)
    ensures multiset(SortedSums(sums)) == multiset(sums)
  {
    Sorting.StrLessOrder();
    Sorting.SortBySorted(sums, TaskOf, StrLess);
  }

  function Lines(sums: Dict<string, int>): (ls: seq<string>)
    ensures |ls| == |sums|
  {
    var s := SortedSums(sums);
    seq(|s|, i requires 0 <= i < |s| => Line(s[i]))
  }

  /** `str.rstrip()`. */
  function RStrip(s: string): string {
    s[..|s| - Trail(s)]
  }

  /** `"\n".join([label, *lines, ""]).rstrip()`. */
  function SectionText(caption: string, lines: seq<string>): string {
    RStrip(Join([caption] + lines + [""], "\n"))
  }

  /** Joining one more empty part adds just the separator. */
  lemma {:induction false} JoinEmptyLast(parts: seq<string>, sep: string)
    requires |parts| > 0
    ensures Join(parts + [""], sep) == Join(parts, sep) + sep
  {
    if |parts| > 1 {
      assert (parts + [""])[1..] == parts[1..] + [""];
      JoinEmptyLast(parts[1..], sep);
    }
  }

  /** The text is the label and the lines, one per line, when the last of them does not end in whitespace. */
  lemma SectionTextSpec(caption: string, lines: seq<string>)
    requires var last := if |lines| > 0 then lines[|lines| - 1] else caption;
      |last| > 0 && !IsSpace(last[|last| - 1])
    ensures SectionText(caption, lines) == Join([caption] + lines, "\n")
  {
    var parts := [caption] + lines;
    JoinEmptyLast(parts, "\n");
    assert parts + [""] == [caption] + lines + [""];
    assert parts[|parts| - 1] == if |lines| > 0 then lines[|lines| - 1] else caption;
    JoinLast(parts, "\n");
    var j := Join(parts, "\n");
    var s := j + "\n";
    assert Trail(j) == 0;
    assert s[..|s| - 1] == j;
  }

  /** Joined text ends with the last character of the last part. */
  lemma {:induction false} JoinLast(parts: seq<string>, sep: string)
    requires |parts| > 0 && |parts[|parts| - 1]| > 0
    ensures var j := Join(parts, sep); var last := parts[|parts| - 1];
      |j| > 0 && j[|j| - 1] == last[|last| - 1]
  {
    if |parts| > 1 {
      JoinLast(parts[1..], sep);
      assert Join(parts, sep) == parts[0] + sep + Join(parts[1..], sep);
    }
  }

  /**
   * The section of one business: the third week before its anchor,
   * the sums of the tasks running in it, sorted, and the text; none for
   * a key without records.
   */
  function GroupOf(key: GroupKey, recs: seq<Rec>): (g: Option<Group>)
    ensures g.Some? <==> |recs| > 0
    ensures g.Some? ==>
      && (g.value.agency, g.value.bizname) == key
      && g.value.caption == Caption(WindowAt(Anchor(recs), 2))
  {
    if |recs| == 0 then None
    else
      var w := Week3(Anchor(recs));
      var lines := Lines(Worklog.Tally(OverlapEntries(recs, w)));
      Some(Group(key.0, key.1, Caption(w), lines, SectionText(Caption(w), lines)))
  }

  /** The body of the group loop for one business. */
  method SummarizeGroup(e: (GroupKey, seq<Rec>)) returns (g: Option<Group>)
    ensures g == SectionOf(e)
  {
    var (key, recs) := e;
    if |recs| == 0 {
      return None;
    }
    var recvSorted := Sorting.SortBy(recs, ReceivedOf, After);
    var anchor := recvSorted[0].start;
    var w3 := Window(anchor - 20, anchor - 14);
    var sums := SumWeek(recs, w3);
    var caption := Caption(w3);
    var lines := Lines(sums);
    var text := RStrip(Join([caption] + lines + [""], "\n"));
    assert w3 == Week3(Anchor(recs));
    g := Some(Group(key.0, key.1, caption, lines, text));
  }

  /** `(agency, bizname)` order: agency first, then business. */
  predicate PairLess(a: GroupKey, b: GroupKey) {
    StrLess(a.0, b.0) || (a.0 == b.0 && StrLess(a.1, b.1))
  }

  lemma PairLessStrict()
    ensures Sorting.StrictOrder(PairLess)
  {
    forall a: GroupKey ensures !PairLess(a, a) {
      StrLessIrreflexive(a.0);
      StrLessIrreflexive(a.1);
    }
    forall a: GroupKey, b: GroupKey, c: GroupKey | PairLess(a, b) && PairLess(b, c) ensures PairLess(a, c) {
      if StrLess(a.0, b.0) && StrLess(b.0, c.0) { StrLessTransitive(a.0, b.0, c.0); }
      if StrLess(a.1, b.1) && StrLess(b.1, c.1) { StrLessTransitive(a.1, b.1, c.1); }
    }
  }

  function KeyOfGroup(e: (GroupKey, seq<Rec>)): GroupKey { e.0 }

  /** The businesses in (agency, business) order. */
  function SortedGroups(m: Dict<GroupKey, seq<Rec>>): seq<(GroupKey, seq<Rec>)> {
    Sorting.SortBy(m, KeyOfGroup, PairLess)
  }

  /** The businesses come out in (agency, business) order, each once. */
  lemma SortedGroupsSpec(m: Dict<GroupKey, seq<Rec>>)
    ensures Sorting.SortedBy(SortedGroups(m), KeyOfGroup, PairLess)
    ensures multiset(SortedGroups(m)) == multiset(m)
  {
    PairLessStrict();
    Sorting.SortBySorted(m, KeyOfGroup, PairLess);
  }

  /** The values `f` gives for `es`, in order, skipping the missing ones. */
  function Present<A, B>(es: seq<A>, f: A -> Option<B>): (bs: seq<B>)
    ensures |bs| <= |es|
  {
    if |es| == 0 then []
    else Present(es[..|es| - 1], f) + (match f(es[|es| - 1]) case Some(b) => [b] case None => [])
  }

  /** When `f` gives a value for each of `es`, those are the values, one for each, in order. */
  lemma {:induction false} PresentAll<A, B>(es: seq<A>, f: A -> Option<B>)
    requires forall i :: 0 <= i < |es| ==> f(es[i]).Some?
    ensures |Present(es, f)| == |es|
    ensures forall i :: 0 <= i < |es| ==> Some(Present(es, f)[i]) == f(es[i])
  {
    if |es| > 0 {
      var init := es[..|es| - 1];
      PresentAll(init, f);
      forall i | 0 <= i < |es| ensures Some(Present(es, f)[i]) == f(es[i]) {
        if i < |init| {
          assert es[i] == init[i];
        }
      }
    }
  }

  /** The section of one business of the sorted list. */
  function SectionOf(e: (GroupKey, seq<Rec>)): Option<Group> {
    GroupOf(e.0, e.1)
  }

  /** The windows `_build_week_windows(base, weeks)` returns. */
  function Windows(base: int, weeks: int): (ws: seq<Window>)
    ensures |ws| == WeekCount(weeks)
    ensures forall i :: 0 <= i < |ws| ==> ws[i] == WindowAt(base, i)
  {
    seq(WeekCount(weeks), i requires 0 <= i < WeekCount(weeks) => WindowAt(base, i))
  }

  /** A record is kept iff its start day lies in the `weeks` weeks ending on `base`. */
  lemma RecordInWeeks(base: int, weeks: int, tab: string, row: WeekRow)
    ensures RowRecord(base, Windows(base, weeks), tab, row).Some? <==>
      (row.internal && row.bizname != "" && StartDay(row, tab).Some?
      && base - 7 * WeekCount(weeks) < StartDay(row, tab).value <= base)
  {
    if StartDay(row, tab).Some? {
      FirstWindowOfWeeks(Windows(base, weeks), base, StartDay(row, tab).value);
    }
  }

  /** `fetch_internal_weekly_summary(base, weeks)` on the given tabs. */
  function WeeklySummary(base: int, weeks: int, tabs: seq<WeekTab>): seq<Group> {
    Present(SortedGroups(Fold([], AllRecords(base, Windows(base, weeks), tabs), AddRecord)), SectionOf)
  }

  /** The group loop: one section per business with records, in the sorted order. */
  method EmitSections(sorted: seq<(GroupKey, seq<Rec>)>) returns (groups: seq<Group>)
    ensures groups == Present(sorted, SectionOf)
  {
    groups := [];
    for i := 0 to |sorted|
      invariant groups == Present(sorted[..i], SectionOf)
    {
      assert sorted[..i + 1][..i] == sorted[..i];
      var g := SummarizeGroup(sorted[i]);
      assert Present(sorted[..i + 1], SectionOf)
        == Present(sorted[..i], SectionOf) + (match g case Some(x) => [x] case None => []);
      if g.Some? {
        groups := groups + [g.value];
      }
    }
    assert sorted[..|sorted|] == sorted;
  }

  /** `fetch_internal_weekly_summary(base, weeks)`: collect the records, then one section per business. */
  method FetchWeeklySummary(base: int, weeks: int, tabs: seq<WeekTab>) returns (groups: seq<Group>)
    ensures groups == WeeklySummary(base, weeks, tabs)
  {
    var windows := BuildWeekWindows(base, weeks);
    assert windows == Windows(base, weeks);
    var byKey := CollectRecords(base, windows, tabs);
    groups := EmitSections(SortedGroups(byKey));
  }
}
