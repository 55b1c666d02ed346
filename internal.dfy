/**
 * The internal-jobs view: every internal row of the work sheets folded
 * into one item per (agency, tab, task, business) with its daily
 * workloads summed, and the helpers the weekly summary (module
 * `InternalWeekly`) shares: task names, units and 7-day windows.
 *
 * Sheet rows arrive as the values the header lookup returns for them
 * (already stripped where the source strips them); dates are day numbers
 * as `date.toordinal()` counts them.
 */
module InternalManager {
  import opened Common
  import opened Dicts
  import opened Dates
  import Sorting
  import SheetClient
  import SheetGrouping
  import Worklog

  // ---------------------------------------------------------------------
  // _build_task_display
  // ---------------------------------------------------------------------

  /**
   * `_build_task_display(tab, product, product_name)`: on the 기타 tab the
   * product name, elsewhere "tab product"; the tab itself whenever that
   * comes out blank.
   */
  function TaskDisplay(tabTitle: string, product: string, productName: string): string {
    var base := Strip(tabTitle);
    if SheetGrouping.IsMiscTab(base) then
      var s := Strip(if productName != "" then productName else base);
      if s != "" then s else base
    else
      var s := if product != "" then Strip(base + " " + product) else base;
      if s != "" then s else base
  }

  /** The 기타 tab shows the product name unless it is blank; a non-blank tab title never shows as blank. */
  lemma TaskDisplaySpec(tabTitle: string, product: string, productName: string)
    ensures var r := TaskDisplay(tabTitle, product, productName);
      && (SheetGrouping.IsMiscTab(Strip(tabTitle)) ==>
        r == (if Strip(productName) != "" then Strip(productName) else Strip(tabTitle)))
      && (!SheetGrouping.IsMiscTab(Strip(tabTitle)) && product == "" ==> r == Strip(tabTitle))
      && (Strip(tabTitle) != "" ==> r != "")
  {
    StripIdempotent(tabTitle);
  }

  /** On an ordinary tab, a stripped tab title and product are joined by one space. */
  lemma TaskDisplayJoined(tabTitle: string, product: string, productName: string)
    requires Strip(tabTitle) == tabTitle != "" && Strip(product) == product != ""
    requires !SheetGrouping.IsMiscTab(tabTitle)
    ensures TaskDisplay(tabTitle, product, productName) == tabTitle + " " + product
  {
    StripEnds(tabTitle);
    StripEnds(product);
    var s := tabTitle + " " + product;
    assert s[0] == tabTitle[0] && s[|s| - 1] == product[|product| - 1];
    StripUnchanged(s);
  }

  // ---------------------------------------------------------------------
  // _fmt_mmdd, _guess_unit_for_task
  // ---------------------------------------------------------------------

  /** `f"{d.month:02d}/{d.day:02d}"`: reading the two fields back gives the month and the day. */
  function FmtMmdd(d: Date): (r: string)
    requires ValidDate(d)
    ensures |r| == 5 && r[2] == '/'
    ensures AllDigits(r[..2]) && NatOf(r[..2]) == d.month
    ensures AllDigits(r[3..]) && NatOf(r[3..]) == d.day
  {
    var r := Pad2(d.month) + "/" + Pad2(d.day);
    assert r[..2] == Pad2(d.month) && r[3..] == Pad2(d.day);
    r
  }

  /** The month/day text of day number `n`; empty before 0001-01-01, where Python raises. */
  function DayText(n: int): string {
    if n >= 1 then FmtMmdd(FromOrdinal(n)) else ""
  }

  /** `f"{fmt(start)} ~ {fmt(end)}"`. */
  function RangeLabel(start: int, end: int): string {
    DayText(start) + " ~ " + DayText(end)
  }

  /** The task words that are counted in 타 rather than 건. */
  const UnitKeys: seq<string> := ["저장", "길찾기", "지도", "저트길", "클릭", "노출", "타"]

  /** The loop over the unit words: whether one of `keys` from position `from` on occurs in `s`. */
  predicate HasUnitKey(s: string, keys: seq<string>, from: nat)
    requires from <= |keys|
    decreases |keys| - from
  {
    from < |keys| && (Contains(s, SheetClient.CollapseSpaces(keys[from])) || HasUnitKey(s, keys, from + 1))
  }

  lemma {:induction false} HasUnitKeySpec(s: string, keys: seq<string>, from: nat)
    requires from <= |keys|
    ensures HasUnitKey(s, keys, from) <==> exists k :: from <= k < |keys| && Contains(s, SheetClient.CollapseSpaces(keys[k]))
    decreases |keys| - from
  {
    if from < |keys| {
      HasUnitKeySpec(s, keys, from + 1);
    }
  }

  /**
   * `_guess_unit_for_task(task)`: 건 for a receipt task, 타 when one of
   * the unit words occurs, 건 otherwise; spaces and case do not matter.
   */
  function GuessUnit(task: string): (r: string)
    ensures r == "건" || r == "타"
    ensures r == "타" <==>
      (!Contains(SheetClient.CollapseSpaces(task), "영수증")
      && exists k :: 0 <= k < |UnitKeys| && Contains(SheetClient.CollapseSpaces(task), SheetClient.CollapseSpaces(UnitKeys[k])))
  {
    UnitAmong(task, UnitKeys)
  }

  /** `GuessUnit` over any list of unit words. */
  function UnitAmong(task: string, keys: seq<string>): (r: string)
    ensures r == "건" || r == "타"
    ensures r == "타" <==>
      (!Contains(SheetClient.CollapseSpaces(task), "영수증")
      && exists k :: 0 <= k < |keys| && Contains(SheetClient.CollapseSpaces(task), SheetClient.CollapseSpaces(keys[k])))
  {
    var s := SheetClient.CollapseSpaces(task);
    HasUnitKeySpec(s, keys, 0);
    if Contains(s, "영수증") then "건"
    else if HasUnitKey(s, keys, 0) then "타"
    else "건"
  }

  /** Whitespace inside a task name does not change its unit. */
  lemma GuessUnitIgnoresSpace(a: string, c: char, b: string)
    requires IsSpace(c)
    ensures GuessUnit(a + [c] + b) == GuessUnit(a + b)
  {
    SheetClient.CollapseIgnoresSpace(a, c, b);
  }

  // ---------------------------------------------------------------------
  // _build_week_windows
  // ---------------------------------------------------------------------

  /** A 7-day window, both ends included; its label is `Caption` of it. */
  datatype Window = Window(start: int, end: int)

  /** `max(1, weeks)`. */
  function WeekCount(weeks: int): (n: nat)
    ensures n >= 1 && (weeks >= 1 ==> n == weeks)
  {
    if weeks < 1 then 1 else weeks
  }

  /** Reference definition: the `i`-th window counted back from `base`. */
  function WindowAt(base: int, i: nat): Window {
    Window(base - 7 * i - 6, base - 7 * i)
  }

  /** The window's label, "MM/DD ~ MM/DD". */
  function Caption(w: Window): string {
    RangeLabel(w.start, w.end)
  }

  /**
   * The windows are 7 days long, the first ends on `base` and each later
   * one ends the day before the previous one starts.
   */
  lemma WindowsChain(base: int, i: nat)
    ensures WindowAt(base, 0).end == base
    ensures WindowAt(base, i).start == WindowAt(base, i).end - 6
    ensures WindowAt(base, i + 1).end == WindowAt(base, i).start - 1
  {
  }

  /** `_build_week_windows(base, weeks)`. */
  method BuildWeekWindows(base: int, weeks: int) returns (windows: seq<Window>)
    ensures |windows| == WeekCount(weeks)
    ensures forall i :: 0 <= i < |windows| ==> windows[i] == WindowAt(base, i)
  {
    windows := [];
    var curEnd := base;
    for k := 0 to WeekCount(weeks)
      invariant |windows| == k && curEnd == base - 7 * k
      invariant forall i :: 0 <= i < k ==> windows[i] == WindowAt(base, i)
    {
      var start := curEnd - 6;
      windows := windows + [Window(start, curEnd)];
      curEnd := start - 1;
    }
  }

  /** The index of the first window holding day `d`. */
  function FirstWindow(windows: seq<Window>, d: int): (r: Option<nat>)
    ensures r.None? <==> forall i :: 0 <= i < |windows| ==> !(windows[i].start <= d <= windows[i].end)
    ensures r.Some? ==> r.value < |windows| && windows[r.value].start <= d <= windows[r.value].end
  {
    if |windows| == 0 then None
    else if windows[0].start <= d <= windows[0].end then Some(0)
    else
      match FirstWindow(windows[1..], d)
      case Some(i) => Some(i + 1)
      case None => None
  }

  /**
   * The windows tile the `n` weeks ending on `base` without gaps: day `d`
   * is in a window iff it lies in those weeks, and then in window
   * `(base - d) / 7`.
   */
  lemma FirstWindowOfWeeks(windows: seq<Window>, base: int, d: int)
    requires forall i :: 0 <= i < |windows| ==> windows[i] == WindowAt(base, i)
    ensures FirstWindow(windows, d).Some? <==> base - 7 * |windows| < d <= base
    ensures FirstWindow(windows, d).Some? ==> FirstWindow(windows, d).value == (base - d) / 7
  {
    if base - 7 * |windows| < d <= base {
      var i := (base - d) / 7;
      assert windows[i].start <= d <= windows[i].end;
    }
    match FirstWindow(windows, d)
    case Some(i) =>
      assert base - 7 * i - 6 <= d <= base - 7 * i;
    case None =>
  }

  // ---------------------------------------------------------------------
  // fetch_internal_items
  // ---------------------------------------------------------------------

  /** The cells of a sheet row the item list reads, each stripped as the source does. */
  datatype ItemRow = ItemRow(
    agency: string,
    checked: bool,
    internal: bool,
    remain: Option<int>,
    bizname: string,
    product: string,
    productName: string,
    workload: string)

  /** The aggregation key `(agency, tab_title, task_display, bizname)`. */
  datatype ItemKey = ItemKey(agency: string, tab: string, task: string, bizname: string)

  /** One aggregator entry. */
  datatype Entry = Entry(tab: string, agency: string, bizname: string, task: string, remain: Option<int>, sum: int, checked: bool)

  /** `agency or "내부 진행"`. */
  function AgencyLabel(agency: string): (r: string)
    ensures r != "" && (agency != "" ==> r == agency)
  {
    if agency != "" then agency else "내부 진행"
  }

  /** `_parse_int_maybe(workload) or 0`. */
  function WorkloadNum(workload: string): int {
    match SheetClient.ParseIntMaybe(Some(workload))
    case Some(n) => n
    case None => 0
  }

  /** Only internal rows that name a business are listed. */
  predicate Listed(row: ItemRow) {
    row.internal && row.bizname != ""
  }

  /** A row as the loop sees it: the stripped tab title and the task display computed for the row. */
  datatype Filed = Filed(tab: string, task: string, row: ItemRow)

  /** The rows of one tab, each filed under the stripped title and its task display. */
  function FiledRows(title: string, rows: seq<ItemRow>): (fs: seq<Filed>)
    ensures |fs| == |rows|
    ensures forall i :: 0 <= i < |rows| ==>
      fs[i] == Filed(Strip(title), TaskDisplay(Strip(title), rows[i].product, rows[i].productName), rows[i])
  {
    seq(|rows|, i requires 0 <= i < |rows| =>
      Filed(Strip(title), TaskDisplay(Strip(title), rows[i].product, rows[i].productName), rows[i]))
  }

  /** Every row of every tab, in sheet order. */
  function AllFiled(tabs: seq<(string, seq<ItemRow>)>): seq<Filed> {
    if |tabs| == 0 then [] else AllFiled(tabs[..|tabs| - 1]) + FiledRows(tabs[|tabs| - 1].0, tabs[|tabs| - 1].1)
  }

  /** The key a row is filed under, if it is listed at all. */
  function RowKey(f: Filed): Option<ItemKey> {
    if Listed(f.row) then Some(ItemKey(AgencyLabel(f.row.agency), f.tab, f.task, f.row.bizname)) else None
  }

  /** The entry a row opens for its key. */
  function Opened(f: Filed): Entry {
    Entry(f.tab, AgencyLabel(f.row.agency), f.row.bizname, f.task, f.row.remain, WorkloadNum(f.row.workload), f.row.checked)
  }

  /** A row's daily workload. */
  function RowWorkload(f: Filed): int {
    WorkloadNum(f.row.workload)
  }

  /** One step of the aggregation loop: open the key's entry, or add the workload to it. */
  function AddItem(agg: Dict<ItemKey, Entry>, f: Filed): Dict<ItemKey, Entry> {
    match RowKey(f)
    case None => agg
    case Some(key) => SetOrBump(agg, key, Opened(f), (e: Entry) => e.(sum := e.sum + RowWorkload(f)))
  }

  /** The aggregator after every row of every tab. */
  function Aggregated(tabs: seq<(string, seq<ItemRow>)>): Dict<ItemKey, Entry> {
    Fold([], AllFiled(tabs), AddItem)
  }

  /** Reference definition: the first row that `key` files under `k`. */
  function FirstWithKey<P, K(==)>(ps: seq<P>, key: P -> Option<K>, k: K): (r: Option<nat>)
    ensures r.None? <==> forall i :: 0 <= i < |ps| ==> key(ps[i]) != Some(k)
    ensures r.Some? ==>
      r.value < |ps| && key(ps[r.value]) == Some(k)
      && forall i :: 0 <= i < r.value ==> key(ps[i]) != Some(k)
  {
    if |ps| == 0 then None
    else
      match FirstWithKey(ps[..|ps| - 1], key, k)
      case Some(i) => Some(i)
      case None => if key(ps[|ps| - 1]) == Some(k) then Some(|ps| - 1) else None
  }

  /** Reference definition: the amounts of the rows that `key` files under `k`, added up. */
  function KeyTotal<P, K(==)>(ps: seq<P>, key: P -> Option<K>, amount: P -> int, k: K): int {
    if |ps| == 0 then 0
    else KeyTotal(ps[..|ps| - 1], key, amount, k) + (if key(ps[|ps| - 1]) == Some(k) then amount(ps[|ps| - 1]) else 0)
  }

  /**
   * A key has an entry iff some listed row has that key; the entry keeps
   * the fields of the first such row and holds the sum of their workloads.
   */
  lemma {:induction false} AggregatedGet(fs: seq<Filed>, k: ItemKey)
    ensures Get(Fold([], fs, AddItem), k) ==
      match FirstWithKey(fs, RowKey, k)
      case None => None
      case Some(i) => Some(Opened(fs[i]).(sum := KeyTotal(fs, RowKey, RowWorkload, k)))
  {
    AggregatedEntry(fs, k);
  }

  /** Reference definition: the entry the aggregator should hold for `k` after the rows `fs`. */
  function KeyEntry(fs: seq<Filed>, k: ItemKey): Option<Entry> {
    match FirstWithKey(fs, RowKey, k)
    case None => None
    case Some(i) => Some(Opened(fs[i]).(sum := KeyTotal(fs, RowKey, RowWorkload, k)))
  }

  lemma {:induction false} AggregatedEntry(fs: seq<Filed>, k: ItemKey)
    ensures Get(Fold([], fs, AddItem), k) == KeyEntry(fs, k)
  {
    if |fs| > 0 {
      AggregatedEntry(fs[..|fs| - 1], k);
      AggregatedStepLast(Fold([], fs[..|fs| - 1], AddItem), fs, k);
    }
  }

  /** `AggregatedStep` for the last row of `fs`. */
  lemma AggregatedStepLast(agg: Dict<ItemKey, Entry>, fs: seq<Filed>, k: ItemKey)
    requires |fs| > 0 && Get(agg, k) == KeyEntry(fs[..|fs| - 1], k)
    ensures Get(AddItem(agg, fs[|fs| - 1]), k) == KeyEntry(fs, k)
  {
    var init, f := fs[..|fs| - 1], fs[|fs| - 1];
    assert fs == init + [f];
    AggregatedStep(agg, init, f, k);
  }

  /** One row keeps the aggregator's entry for `k` equal to the reference entry. */
  lemma AggregatedStep(agg: Dict<ItemKey, Entry>, init: seq<Filed>, f: Filed, k: ItemKey)
    requires Get(agg, k) == KeyEntry(init, k)
    ensures Get(AddItem(agg, f), k) == KeyEntry(init + [f], k)
  {
    if RowKey(f) != Some(k) {
      AggregatedStepOther(agg, init, f, k);
    } else {
      AggregatedStepSame(agg, init, f, k);
    }
  }

  /** A row filed under another key leaves the entry of `k` as it was. */
  lemma AggregatedStepOther(agg: Dict<ItemKey, Entry>, init: seq<Filed>, f: Filed, k: ItemKey)
    requires RowKey(f) != Some(k) && Get(agg, k) == KeyEntry(init, k)
    ensures Get(AddItem(agg, f), k) == KeyEntry(init + [f], k)
  {
    FirstWithKeySnoc(init, f, RowKey, k);
    KeyTotalSnoc(init, f, RowKey, RowWorkload, k);
    AddItemGet(agg, f, k);
    if FirstWithKey(init, RowKey, k).Some? {
      var i := FirstWithKey(init, RowKey, k).value;
      assert (init + [f])[i] == init[i];
    }
  }

  /** A row filed under `k` opens its entry, or adds its workload to it. */
  lemma AggregatedStepSame(agg: Dict<ItemKey, Entry>, init: seq<Filed>, f: Filed, k: ItemKey)
    requires RowKey(f) == Some(k) && Get(agg, k) == KeyEntry(init, k)
    ensures Get(AddItem(agg, f), k) == KeyEntry(init + [f], k)
  {
    FirstWithKeySnoc(init, f, RowKey, k);
    KeyTotalSnoc(init, f, RowKey, RowWorkload, k);
    if FirstWithKey(init, RowKey, k).None? {
      AggregatedStepOpen(agg, init, f, k);
    } else {
      AggregatedStepBump(agg, init, f, k, FirstWithKey(init, RowKey, k).value);
    }
  }

  /** The first row filed under `k` opens its entry with its own workload. */
  lemma AggregatedStepOpen(agg: Dict<ItemKey, Entry>, init: seq<Filed>, f: Filed, k: ItemKey)
    requires RowKey(f) == Some(k) && FirstWithKey(init, RowKey, k).None? && Get(agg, k).None?
    requires FirstWithKey(init + [f], RowKey, k) == Some(|init|)
    requires KeyTotal(init + [f], RowKey, RowWorkload, k) == KeyTotal(init, RowKey, RowWorkload, k) + RowWorkload(f)
    ensures Get(AddItem(agg, f), k) == KeyEntry(init + [f], k)
  {
    KeyTotalAbsent(init, RowKey, RowWorkload, k);
    KeyEntryAt(init + [f], k, |init|, f, RowWorkload(f));
    assert Opened(f).(sum := RowWorkload(f)) == Opened(f);
    AddItemGet(agg, f, k);
  }

  /** A later row filed under `k` adds its workload to the entry the first one opened. */
  lemma AggregatedStepBump(agg: Dict<ItemKey, Entry>, init: seq<Filed>, f: Filed, k: ItemKey, i: nat)
    requires RowKey(f) == Some(k) && FirstWithKey(init, RowKey, k) == Some(i)
    requires Get(agg, k) == KeyEntry(init, k)
    requires FirstWithKey(init + [f], RowKey, k) == Some(i)
    requires KeyTotal(init + [f], RowKey, RowWorkload, k) == KeyTotal(init, RowKey, RowWorkload, k) + RowWorkload(f)
    ensures Get(AddItem(agg, f), k) == KeyEntry(init + [f], k)
  {
    var fs := init + [f];
    assert fs[i] == init[i];
    var total, w := KeyTotal(init, RowKey, RowWorkload, k), RowWorkload(f);
    KeyEntryAt(init, k, i, init[i], total);
    KeyEntryAt(fs, k, i, init[i], total + w);
    SumBumped(Opened(init[i]), total, w);
    BumpAbstract(agg, f, k, KeyEntry(init, k), KeyEntry(fs, k), Opened(init[i]), total, w);
  }

  /** The bump step with the entries before and after given as values. */
  lemma BumpAbstract(agg: Dict<ItemKey, Entry>, f: Filed, k: ItemKey, before: Option<Entry>, after: Option<Entry>, e: Entry, total: int, w: int)
    requires RowKey(f) == Some(k) && w == RowWorkload(f)
    requires Get(agg, k) == before && before == Some(e.(sum := total))
    requires after == Some(e.(sum := total + w))
    requires e.(sum := total).(sum := e.(sum := total).sum + w) == e.(sum := total + w)
    ensures Get(AddItem(agg, f), k) == after
  {
    AddItemBumps(agg, f, k, e.(sum := total));
  }

  /** Setting a sum and then adding to it is setting the total. */
  lemma SumBumped(e: Entry, total: int, w: int)
    ensures e.(sum := total).(sum := e.(sum := total).sum + w) == e.(sum := total + w)
  {
  }

  /** The entry for `k` when its first row is at `i`. */
  lemma KeyEntryAt(fs: seq<Filed>, k: ItemKey, i: nat, f: Filed, total: int)
    requires FirstWithKey(fs, RowKey, k) == Some(i) && i < |fs| && fs[i] == f
    requires KeyTotal(fs, RowKey, RowWorkload, k) == total
    ensures KeyEntry(fs, k) == Some(Opened(f).(sum := total))
  {
  }

  /** Appending a row leaves an earlier first match in place, and otherwise makes the row the first match when it has the key. */
  lemma FirstWithKeySnoc<P, K>(ps: seq<P>, p: P, key: P -> Option<K>, k: K)
    ensures FirstWithKey(ps + [p], key, k) ==
      if FirstWithKey(ps, key, k).Some? then FirstWithKey(ps, key, k)
      else if key(p) == Some(k) then Some(|ps|) else None
  {
    assert (ps + [p])[..|ps|] == ps;
  }

  /** Appending a row adds its amount to the total of its own key only. */
  lemma KeyTotalSnoc<P, K>(ps: seq<P>, p: P, key: P -> Option<K>, amount: P -> int, k: K)
    ensures KeyTotal(ps + [p], key, amount, k) ==
      KeyTotal(ps, key, amount, k) + (if key(p) == Some(k) then amount(p) else 0)
  {
    assert (ps + [p])[..|ps|] == ps;
  }

  /** Rows that no key files under `k` add nothing to its total. */
  lemma {:induction false} KeyTotalAbsent<P, K>(ps: seq<P>, key: P -> Option<K>, amount: P -> int, k: K)
    requires forall i :: 0 <= i < |ps| ==> key(ps[i]) != Some(k)
    ensures KeyTotal(ps, key, amount, k) == 0
  {
    if |ps| > 0 {
      KeyTotalAbsent(ps[..|ps| - 1], key, amount, k);
    }
  }

  /** What one step of the loop does to the entry of key `k`. */
  lemma AddItemGet(agg: Dict<ItemKey, Entry>, f: Filed, k: ItemKey)
    ensures Get(AddItem(agg, f), k) ==
      if RowKey(f) != Some(k) then Get(agg, k)
      else match Get(agg, k)
        case None => Some(Opened(f))
        case Some(e) => Some(e.(sum := e.sum + RowWorkload(f)))
  {
    match RowKey(f)
    case None =>
    case Some(key) => GetSetOrBump(agg, key, Opened(f), (e: Entry) => e.(sum := e.sum + RowWorkload(f)), k);
  }

  /** A row whose key already has an entry adds its workload to that entry. */
  lemma AddItemBumps(agg: Dict<ItemKey, Entry>, f: Filed, k: ItemKey, e: Entry)
    requires RowKey(f) == Some(k) && Get(agg, k) == Some(e)
    ensures Get(AddItem(agg, f), k) == Some(e.(sum := e.sum + RowWorkload(f)))
  {
    AddItemGet(agg, f, k);
  }

  /** One line of the item list. */
  datatype Item = Item(tab: string, agency: string, bizname: string, task: string, remain: Option<int>, dailyWorkload: Option<string>, checked: bool)

  /** The listed form of an entry: the workload sum as text when it is positive, otherwise none. */
  function ItemOf(e: Entry): (it: Item)
    ensures it.dailyWorkload.Some? <==> e.sum > 0
    ensures it.dailyWorkload.Some? ==> ParseInt(it.dailyWorkload.value) == Some(e.sum)
    ensures (it.tab, it.agency, it.bizname, it.task, it.remain, it.checked) == (e.tab, e.agency, e.bizname, e.task, e.remain, e.checked)
  {
    ParseIntToString(e.sum);
    Item(e.tab, e.agency, e.bizname, e.task, e.remain, if e.sum > 0 then Some(IntToString(e.sum)) else None, e.checked)
  }

  /** `(agency, task_display, bizname)`, the sort key of the list. */
  function SortKey(e: Entry): (string, string, string) {
    (e.agency, e.task, e.bizname)
  }

  /** Python's order on tuples of strings: field by field. */
  predicate TripleLess(a: (string, string, string), b: (string, string, string)) {
    StrLess(a.0, b.0) || (a.0 == b.0 && (StrLess(a.1, b.1) || (a.1 == b.1 && StrLess(a.2, b.2))))
  }

  lemma TripleLessStrict()
    ensures Sorting.StrictOrder(TripleLess)
  {
    forall a: (string, string, string) ensures !TripleLess(a, a) {
      StrLessIrreflexive(a.0);
      StrLessIrreflexive(a.1);
      StrLessIrreflexive(a.2);
    }
    forall a: (string, string, string), b: (string, string, string), c: (string, string, string)
      | TripleLess(a, b) && TripleLess(b, c)
      ensures TripleLess(a, c)
    {
      if StrLess(a.0, b.0) && StrLess(b.0, c.0) { StrLessTransitive(a.0, b.0, c.0); }
      if StrLess(a.1, b.1) && StrLess(b.1, c.1) { StrLessTransitive(a.1, b.1, c.1); }
      if StrLess(a.2, b.2) && StrLess(b.2, c.2) { StrLessTransitive(a.2, b.2, c.2); }
    }
  }

  function Values(agg: Dict<ItemKey, Entry>): (vs: seq<Entry>)
    ensures |vs| == |agg| && forall i :: 0 <= i < |agg| ==> vs[i] == agg[i].1
  {
    seq(|agg|, i requires 0 <= i < |agg| => agg[i].1)
  }

  /** The entries in the order of the list. */
  function SortedEntries(agg: Dict<ItemKey, Entry>): seq<Entry> {
    Sorting.SortBy(Values(agg), SortKey, TripleLess)
  }

  /** The list is ordered by agency, then task, then business, and holds every entry once. */
  lemma SortedEntriesSpec(agg: Dict<ItemKey, Entry>)
    ensures Sorting.SortedBy(SortedEntries(agg), SortKey, TripleLess)
    ensures multiset(SortedEntries(agg)) == multiset(Values(agg))
  {
    TripleLessStrict();
    Sorting.SortBySorted(Values(agg), SortKey, TripleLess);
  }

  /** `{"worksheets": ..., "items": ...}`. */
  datatype ItemStats = ItemStats(worksheets: nat, items: nat)

  /** A listed row opens its key's entry, or adds its workload to the entry already there. */
  lemma AddItemListed(agg: Dict<ItemKey, Entry>, f: Filed)
    requires Listed(f.row)
    ensures var key := ItemKey(AgencyLabel(f.row.agency), f.tab, f.task, f.row.bizname);
      AddItem(agg, f) ==
        match Get(agg, key)
        case None => Set(agg, key, Opened(f))
        case Some(e) => Set(agg, key, e.(sum := e.sum + WorkloadNum(f.row.workload)))
  {
    var key := ItemKey(AgencyLabel(f.row.agency), f.tab, f.task, f.row.bizname);
    assert RowKey(f) == Some(key);
    match Get(agg, key)
    case None =>
      assert AddItem(agg, f) == Set(agg, key, Opened(f));
    case Some(e) =>
      assert AddItem(agg, f) == Set(agg, key, e.(sum := e.sum + WorkloadNum(f.row.workload)));
  }

  /** The body of the row loop: skip the row, or open or update the entry of its key. */
  method FileItem(agg0: Dict<ItemKey, Entry>, tab: string, row: ItemRow) returns (agg: Dict<ItemKey, Entry>)
    ensures agg == AddItem(agg0, Filed(tab, TaskDisplay(tab, row.product, row.productName), row))
  {
    agg := agg0;
    if !row.internal || row.bizname == "" {
      return;
    }
    var task := TaskDisplay(tab, row.product, row.productName);
    var key := ItemKey(AgencyLabel(row.agency), tab, task, row.bizname);
    AddItemListed(agg0, Filed(tab, task, row));
    var entry := Get(agg, key);
    assert Opened(Filed(tab, task, row)) == Entry(tab, AgencyLabel(row.agency), row.bizname, task, row.remain, WorkloadNum(row.workload), row.checked);
    if entry.None? {
      agg := Set(agg, key, Entry(tab, AgencyLabel(row.agency), row.bizname, task, row.remain, WorkloadNum(row.workload), row.checked));
    } else {
      agg := Set(agg, key, entry.value.(sum := entry.value.sum + WorkloadNum(row.workload)));
    }
  }

  /** One more row files one more element at the end. */
  lemma FiledRowsSnoc(title: string, rows: seq<ItemRow>, i: nat)
    requires i < |rows|
    ensures FiledRows(title, rows[..i + 1]) ==
      FiledRows(title, rows[..i]) + [Filed(Strip(title), TaskDisplay(Strip(title), rows[i].product, rows[i].productName), rows[i])]
  {
  }

  /** The inner loop over one tab's rows. */
  method AggregateTab(agg0: Dict<ItemKey, Entry>, title: string, rows: seq<ItemRow>) returns (agg: Dict<ItemKey, Entry>)
    ensures agg == Fold(agg0, FiledRows(title, rows), AddItem)
  {
    agg := agg0;
    var tab := Strip(title);
    for i := 0 to |rows|
      invariant agg == Fold(agg0, FiledRows(title, rows[..i]), AddItem)
    {
      FiledRowsSnoc(title, rows, i);
      agg := FileItem(agg, tab, rows[i]);
    }
    assert rows[..|rows|] == rows;
  }

  /** The aggregation loop over every tab. */
  method AggregateItems(tabs: seq<(string, seq<ItemRow>)>) returns (agg: Dict<ItemKey, Entry>)
    ensures agg == Aggregated(tabs)
  {
    agg := [];
    for t := 0 to |tabs|
      invariant agg == Fold([], AllFiled(tabs[..t]), AddItem)
    {
      assert tabs[..t + 1][..t] == tabs[..t];
      FoldAppend([], AllFiled(tabs[..t]), FiledRows(tabs[t].0, tabs[t].1), AddItem);
      agg := AggregateTab(agg, tabs[t].0, tabs[t].1);
    }
    assert tabs[..|tabs|] == tabs;
  }

  /**
   * `fetch_internal_items()` on the given tabs: the entries, sorted by
   * agency, task and business, in their listed form, and the counts.
   */
  method FetchInternalItems(tabs: seq<(string, seq<ItemRow>)>) returns (items: seq<Item>, stats: ItemStats)
    ensures |items| == |Aggregated(tabs)|
    ensures forall i :: 0 <= i < |items| ==> items[i] == ItemOf(SortedEntries(Aggregated(tabs))[i])
    ensures stats == ItemStats(|tabs|, |items|)
  {
    var agg := AggregateItems(tabs);
    var sorted := SortedEntries(agg);
    items := [];
    for i := 0 to |sorted|
      invariant |items| == i
      invariant forall j :: 0 <= j < i ==> items[j] == ItemOf(sorted[j])
    {
      items := items + [ItemOf(sorted[i])];
    }
    stats := ItemStats(|tabs|, |items|);
  }
}
