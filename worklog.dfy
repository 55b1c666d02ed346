/**
 * The work-log cache: one normalised record per internal job row of every
 * tab of the deadline sheet, queried by business name, by place id (MID)
 * and by day. Days are day numbers; a stored date text that
 * `date.fromisoformat` rejects is kept as `Unreadable`.
 */
module Worklog {
  import opened Common
  import opened Dicts
  import SheetClient

  // ---------------------------------------------------------------------
  // extract_mid_from_url
  // ---------------------------------------------------------------------

  const PlaceHost: string := "place.naver.com/"

  /** Length of the run of characters other than '/' starting at `i`. */
  function SegmentRun(s: string, i: nat): (n: nat)
    requires i <= |s|
    ensures i + n <= |s|
    ensures i + n == |s| || s[i + n] == '/'
    decreases |s| - i
  {
    if i < |s| && s[i] != '/' then 1 + SegmentRun(s, i + 1) else 0
  }

  /** Where the digit group of `place\.naver\.com/[^/]+/(\d{5,})` would start, for a match at `i`. */
  function PlaceGroup(s: string, i: nat): (g: nat)
    requires IsAt(s, PlaceHost, i)
    ensures g <= |s| + 1
  {
    var j := i + |PlaceHost|;
    j + SegmentRun(s, j) + 1
  }

  /**
   * `place\.naver\.com/[^/]+/(\d{5,})` matches at `i`: the host, a non-empty
   * path segment without '/', a '/', then at least five digits.
   */
  predicate PlaceRunAt(s: string, i: nat) {
    IsAt(s, PlaceHost, i)
    && var j := i + |PlaceHost|;
    SegmentRun(s, j) >= 1 && PlaceGroup(s, i) <= |s| && DigitRun(s, PlaceGroup(s, i)) >= 5
  }

  /** The group of a match at `i`: the whole digit run after the segment. */
  function PlaceDigitsAt(s: string, i: nat): (r: string)
    requires PlaceRunAt(s, i)
    ensures |r| >= 5 && AllDigits(r)
  {
    var g := PlaceGroup(s, i);
    s[g..g + DigitRun(s, g)]
  }

  function PlaceRunFrom(s: string, from: nat): (r: Option<string>)
    requires from <= |s|
    ensures r.Some? ==> |r.value| >= 5 && AllDigits(r.value)
    decreases |s| - from
  {
    if from == |s| then None
    else if PlaceRunAt(s, from) then Some(PlaceDigitsAt(s, from))
    else PlaceRunFrom(s, from + 1)
  }

  /** The place pattern finds the leftmost position where it matches. */
  lemma {:induction false} PlaceRunFromSpec(s: string, from: nat)
    requires from <= |s|
    ensures PlaceRunFrom(s, from).None? <==> forall i :: from <= i < |s| ==> !PlaceRunAt(s, i)
    ensures PlaceRunFrom(s, from).Some? ==>
      exists i :: from <= i < |s| && PlaceRunAt(s, i)
        && (forall j :: from <= j < i ==> !PlaceRunAt(s, j))
        && PlaceRunFrom(s, from).value == PlaceDigitsAt(s, i)
    decreases |s| - from
  {
    if from < |s| && !PlaceRunAt(s, from) {
      PlaceRunFromSpec(s, from + 1);
      if PlaceRunFrom(s, from).Some? {
        var i :| from + 1 <= i < |s| && PlaceRunAt(s, i)
          && (forall j :: from + 1 <= j < i ==> !PlaceRunAt(s, j))
          && PlaceRunFrom(s, from + 1).value == PlaceDigitsAt(s, i);
        assert forall j :: from <= j < i ==> !PlaceRunAt(s, j);
      }
    }
  }



  /** A MID: at least five ASCII digits. */
  predicate IsMidText(s: string) {
    |s| >= 5 && AllDigits(s)
  }

  /**
   * `extract_mid_from_url`: nothing for an empty URL; else the place-page
   * pattern, else `/` followed by at least seven digits, else nothing.
   */
  function ExtractMid(url: string): (r: Option<string>)
    ensures url == "" ==> r.None?
    ensures r.Some? ==> IsMidText(r.value)
  {
    if url == "" then None
    else
      match PlaceRunFrom(url, 0)
      case Some(m) => Some(m)
      case None => SlashDigits(url, 7)
  }

  /**
   * A URL yields a MID exactly when one of the two patterns matches, and the
   * leftmost place-page match wins over any bare digit run.
   */
  lemma ExtractMidSpec(url: string)
    ensures ExtractMid(url).None? <==>
      url == "" || ((forall i :: 0 <= i < |url| ==> !PlaceRunAt(url, i)) && (forall i :: 0 <= i < |url| ==> !SlashRunAt(url, i, 7)))
    ensures forall i :: 0 <= i < |url| && PlaceRunAt(url, i) && (forall j :: 0 <= j < i ==> !PlaceRunAt(url, j)) ==>
      ExtractMid(url) == Some(PlaceDigitsAt(url, i))
  {
    PlaceRunFromSpec(url, 0);
    SlashDigitsSpec(url, 7);
    forall i | 0 <= i < |url| && PlaceRunAt(url, i) && (forall j :: 0 <= j < i ==> !PlaceRunAt(url, j))
      ensures ExtractMid(url) == Some(PlaceDigitsAt(url, i))
    {
      var k :| 0 <= k < |url| && PlaceRunAt(url, k)
        && (forall j :: 0 <= j < k ==> !PlaceRunAt(url, j))
        && PlaceRunFrom(url, 0).value == PlaceDigitsAt(url, k);
      assert k == i;
    }
  }

  /** On a place page five digits are enough. */
  lemma ExtractMidPlaceExample()
    ensures ExtractMid("place.naver.com/a/12345") == Some("12345")
  {
    var s := "place.naver.com/a/12345";
    assert IsAt(s, PlaceHost, 0);
    assert SegmentRun(s, 17) == 0;
    assert SegmentRun(s, 16) == 1;
    assert DigitRun(s, 18) == 5 by {
      assert DigitRun(s, 23) == 0;
    }
    assert PlaceRunAt(s, 0);
    assert s[18..23] == "12345";
  }

  // ---------------------------------------------------------------------
  // Cached records
  // ---------------------------------------------------------------------

  /** A stored date: absent or empty, a day number, or text that does not parse as an ISO date. */
  datatype DateText = NoDate | Day(n: int) | Unreadable(text: string)

  /** One cached work-log record; fields a stored record may lack are options. */
  datatype Record = Record(
    company: string,
    agency: string,
    businessName: Option<string>,
    mid: Option<string>,
    placeUrl: Option<string>,
    taskName: Option<string>,
    workload: Option<string>,
    startDate: DateText,
    endDate: DateText,
    sourceTab: string)

  /** Python truthiness of an optional text. */
  predicate Truthy(v: Option<string>) {
    v.Some? && v.value != ""
  }

  /**
   * The day test of `get_active_tasks_on_date` and `get_active_tasks_by_mid`:
   * a readable start must not lie after `day`, a readable end must not lie
   * before it, and a start that does not parse admits the record whatever
   * its end says.
   */
  predicate ActiveOn(r: Record, day: int) {
    match r.startDate
    case Unreadable(_) => true
    case Day(s) => s <= day && EndAdmits(r.endDate, day)
    case NoDate => EndAdmits(r.endDate, day)
  }

  predicate EndAdmits(e: DateText, day: int) {
    !e.Day? || day <= e.n
  }

  /** The days a record is active on form an interval: between two active days every day is active. */
  lemma ActiveOnInterval(r: Record, a: int, b: int, day: int)
    requires ActiveOn(r, a) && ActiveOn(r, b) && a <= day <= b
    ensures ActiveOn(r, day)
  {
  }

  /** With readable dates the record is active exactly on the inclusive range from start to end; a missing bound is open. */
  lemma ActiveOnWindow(r: Record, day: int)
    requires !r.startDate.Unreadable? && !r.endDate.Unreadable?
    ensures ActiveOn(r, day) <==>
      (r.startDate.Day? ==> r.startDate.n <= day) && (r.endDate.Day? ==> day <= r.endDate.n)
  {
  }

  /**
   * The range test of `get_worklog_by_business`: a record is dropped when its
   * readable start lies after `to` or its readable end lies before `from`.
   */
  predicate InRange(r: Record, from: Option<int>, to: Option<int>) {
    !(r.startDate.Day? && to.Some? && r.startDate.n > to.value)
    && !(r.endDate.Day? && from.Some? && r.endDate.n < from.value)
  }

  /**
   * A one-day range selects the same records as the day test, except that
   * the day test keeps a record with an unreadable start whatever its end.
   */
  lemma InRangeOneDay(r: Record, day: int)
    ensures !r.startDate.Unreadable? ==> (InRange(r, Some(day), Some(day)) <==> ActiveOn(r, day))
    ensures r.startDate.Unreadable? ==> (InRange(r, Some(day), Some(day)) ==> ActiveOn(r, day))
    ensures InRange(r, None, None)
  {
  }

  /** The three record queries of the cache. */
  datatype Query =
    | ByBusiness(name: string, from: Option<int>, to: Option<int>)
    | OnDate(name: string, day: int)
    | ByMid(mid: string, day: int)

  predicate Wanted(q: Query, r: Record) {
    match q
    case ByBusiness(name, from, to) => r.businessName == Some(name) && InRange(r, from, to)
    case OnDate(name, day) => r.businessName == Some(name) && ActiveOn(r, day)
    case ByMid(mid, day) => Truthy(r.mid) && r.mid == Some(mid) && ActiveOn(r, day)
  }

  /** The records a query keeps, in stored order. */
  function Select(records: seq<Record>, q: Query): (r: seq<Record>)
    ensures |r| <= |records|
  {
    if |records| == 0 then []
    else
      var last := records[|records| - 1];
      Select(records[..|records| - 1], q) + (if Wanted(q, last) then [last] else [])
  }

  /** A query keeps exactly the stored records it wants. */
  lemma {:induction false} SelectSpec(records: seq<Record>, q: Query)
    ensures forall x :: x in Select(records, q) <==> x in records && Wanted(q, x)
  {
    if |records| > 0 {
      var init := records[..|records| - 1];
      SelectSpec(init, q);
      assert records == init + [records[|records| - 1]];
    }
  }

  /** A query that wants no stored record keeps nothing. */
  lemma {:induction false} SelectNone(records: seq<Record>, q: Query)
    requires forall x :: x in records ==> !Wanted(q, x)
    ensures Select(records, q) == []
  {
    if |records| > 0 {
      assert records[|records| - 1] in records;
      SelectNone(records[..|records| - 1], q);
    }
  }

  /** A record with no MID, or an empty one, is never found by MID; in particular the empty MID finds nothing. */
  lemma ByMidNeedsMid(records: seq<Record>, day: int)
    ensures Select(records, ByMid("", day)) == []
  {
    SelectNone(records, ByMid("", day));
  }

  /**
   * `get_active_tasks_smart` for a given day: the MID result when a MID is
   * given and it finds something, else the business-name result when a name
   * is given, else nothing.
   */
  function Smart(records: seq<Record>, mid: Option<string>, name: Option<string>, day: int): (r: seq<Record>)
    ensures forall x :: x in r ==> x in records && ActiveOn(x, day)
  {
    SelectSpec(records, OnDate(if name.Some? then name.value else "", day));
    SelectSpec(records, ByMid(if mid.Some? then mid.value else "", day));
    var byMid := if Truthy(mid) then Select(records, ByMid(mid.value, day)) else [];
    if |byMid| > 0 then byMid
    else if Truthy(name) then Select(records, OnDate(name.value, day))
    else []
  }

  /** The MID lookup wins whenever some stored record matches it; otherwise the name lookup decides. */
  lemma SmartSpec(records: seq<Record>, mid: Option<string>, name: Option<string>, day: int)
    ensures (Truthy(mid) && exists x :: x in records && Wanted(ByMid(mid.value, day), x)) ==>
      Smart(records, mid, name, day) == Select(records, ByMid(mid.value, day))
    ensures (!Truthy(mid) || forall x :: x in records ==> !Wanted(ByMid(mid.value, day), x)) ==>
      Smart(records, mid, name, day) == if Truthy(name) then Select(records, OnDate(name.value, day)) else []
  {
    if Truthy(mid) {
      var byMid := Select(records, ByMid(mid.value, day));
      SelectSpec(records, ByMid(mid.value, day));
      if exists x :: x in records && Wanted(ByMid(mid.value, day), x) {
        var x :| x in records && Wanted(ByMid(mid.value, day), x);
        assert x in byMid;
      } else {
        SelectNone(records, ByMid(mid.value, day));
      }
    }
  }

  // ---------------------------------------------------------------------
  // get_task_totals_on_date
  // ---------------------------------------------------------------------

  /** `task.get("task_name", "Unknown")`. */
  function TaskKey(r: Record): string {
    match r.taskName
    case Some(n) => n
    case None => "Unknown"
  }

  /** `int(task.get("workload", 0) or 0)`, with 0 when `int` raises. */
  function WorkloadOf(r: Record): int {
    match r.workload
    case None => 0
    case Some(w) =>
      match ParseInt(w)
      case Some(n) => n
      case None => 0
  }

  /** What a task adds to the totals: its name and its workload. */
  function Entries(tasks: seq<Record>): (es: seq<(string, int)>)
    ensures |es| == |tasks|
    ensures forall i :: 0 <= i < |tasks| ==> es[i] == (TaskKey(tasks[i]), WorkloadOf(tasks[i]))
  {
    seq(|tasks|, i requires 0 <= i < |tasks| => (TaskKey(tasks[i]), WorkloadOf(tasks[i])))
  }

  /** The totals dict: one entry per name in first-seen order, each the running sum of its workloads. */
  function Tally(es: seq<(string, int)>): Dict<string, int> {
    if |es| == 0 then [] else Bump(Tally(es[..|es| - 1]), es[|es| - 1])
  }

  /** `totals[name] += workload`, or a new entry holding the workload. */
  function Bump(m: Dict<string, int>, e: (string, int)): Dict<string, int> {
    Set(m, e.0, GetOr(m, e.0, 0) + e.1)
  }

  /** The sum of the workloads filed under `k`. */
  function KeySum(es: seq<(string, int)>, k: string): int {
    if |es| == 0 then 0
    else KeySum(es[..|es| - 1], k) + (if es[|es| - 1].0 == k then es[|es| - 1].1 else 0)
  }

  /** The sum of a dict's values, or of all workloads. */
  function SumValues(d: Dict<string, int>): int {
    if |d| == 0 then 0 else SumValues(d[..|d| - 1]) + d[|d| - 1].1
  }

  lemma {:induction false} SumValuesUpdate(d: Dict<string, int>, i: nat, e: (string, int))
    requires i < |d|
    ensures SumValues(d[i := e]) == SumValues(d) - d[i].1 + e.1
  {
    var n := |d| - 1;
    if i < n {
      SumValuesUpdate(d[..n], i, e);
      assert d[i := e][..n] == d[..n][i := e];
    } else {
      assert d[i := e][..n] == d[..n];
    }
  }

  /** Adding `w` to the entry of `k` (new or not) adds `w` to the sum of the values. */
  lemma SumValuesBump(d: Dict<string, int>, k: string, w: int)
    ensures SumValues(Set(d, k, GetOr(d, k, 0) + w)) == SumValues(d) + w
  {
    match Find(Keys(d), k)
    case Some(i) =>
      SumValuesUpdate(d, i, (k, GetOr(d, k, 0) + w));
    case None =>
      var r := d + [(k, w)];
      assert r[..|r| - 1] == d;
  }

  lemma {:induction false} KeySumAbsent(es: seq<(string, int)>, k: string)
    requires k !in Keys(es)
    ensures KeySum(es, k) == 0
  {
    if |es| > 0 {
      assert Keys(es[..|es| - 1]) == Keys(es)[..|es| - 1];
      KeySumAbsent(es[..|es| - 1], k);
    }
  }

  /** Each name reads the sum of its workloads, and a name that never occurs is absent. */
  lemma {:induction false} TallyGet(es: seq<(string, int)>, k: string)
    ensures Get(Tally(es), k) == if k in Keys(es) then Some(KeySum(es, k)) else None
  {
    if |es| > 0 {
      var init, last := es[..|es| - 1], es[|es| - 1];
      TallyGet(init, k);
      assert Tally(es) == Bump(Tally(init), last);
      GetSet(Tally(init), last.0, GetOr(Tally(init), last.0, 0) + last.1, k);
      assert Keys(es) == Keys(init) + [last.0];
      if k !in Keys(init) {
        KeySumAbsent(init, k);
      }
    }
  }

  /** The values of the tally add up to the sum of all workloads. */
  lemma {:induction false} TallySum(es: seq<(string, int)>)
    ensures SumValues(Tally(es)) == SumValues(es)
  {
    if |es| > 0 {
      var init, last := es[..|es| - 1], es[|es| - 1];
      TallySum(init);
      assert Tally(es) == Bump(Tally(init), last);
      assert SumValues(es) == SumValues(init) + last.1;
      SumValuesBump(Tally(init), last.0, last.1);
    }
  }

  /** For tasks: each task name reads the sum of the workloads of the tasks with that name. */
  lemma TotalsGet(tasks: seq<Record>, k: string)
    ensures Get(Tally(Entries(tasks)), k) == if exists x :: x in tasks && TaskKey(x) == k then Some(KeySum(Entries(tasks), k)) else None
  {
    TallyGet(Entries(tasks), k);
    if exists x :: x in tasks && TaskKey(x) == k {
      var x :| x in tasks && TaskKey(x) == k;
      var i :| 0 <= i < |tasks| && tasks[i] == x;
      assert Keys(Entries(tasks))[i] == k;
    }
  }

  // ---------------------------------------------------------------------
  // Row normalisation of refresh_cache
  // ---------------------------------------------------------------------

  /** A sheet row as the refresh reads it: the internal flag and the raw cells, the candidate columns in the order they are tried. */
  datatype RowView = RowView(
    internal: bool,
    bizname: Option<string>,
    agency: Option<string>,
    workload: Option<string>,
    product: Option<string>,
    productName: Option<string>,
    remain: Option<string>,
    startValues: seq<Option<string>>,
    urlValues: seq<Option<string>>,
    midValues: seq<Option<string>>)

  /** `str(value or "").strip()`. */
  function CellText(v: Option<string>): string {
    match v
    case None => ""
    case Some(s) => Strip(s)
  }

  /** The misc tab's name. */
  const MiscTab: string := "기타"

  /** The task name: the product name on the misc tab when there is one, else "tab product" stripped, or the tab alone without a product. */
  function TaskName(tab: string, product: string, productName: string): string {
    if Lower(tab) == MiscTab && productName != "" then productName
    else if product != "" then Strip(tab + " " + product)
    else tab
  }

  /** For stripped parts the task name is the tab and the product joined by one space, or the product alone on an untitled tab. */
  lemma TaskNameJoined(tab: string, product: string, productName: string)
    requires Strip(tab) == tab && Strip(product) == product && product != ""
    requires !(Lower(tab) == MiscTab && productName != "")
    ensures TaskName(tab, product, productName) == if tab == "" then product else tab + " " + product
  {
    StripEnds(tab);
    StripEnds(product);
    var s := tab + " " + product;
    if tab == "" {
      assert s == [' '] + product;
      StripUnchanged(product);
      assert Lead(s) == 1 by {
        assert s[1..] == product;
      }
      assert s[1..] == product;
    } else {
      assert s[0] == tab[0] && s[|s| - 1] == product[|product| - 1];
      StripUnchanged(s);
    }
  }

  /** The first value of the candidate columns that is truthy. */
  function FirstTruthy(vals: seq<Option<string>>): (r: Option<string>)
    ensures r.Some? ==> Truthy(r) && r in vals
    ensures r.None? ==> forall v :: v in vals ==> !Truthy(v)
  {
    if |vals| == 0 then None
    else if Truthy(vals[0]) then vals[0]
    else FirstTruthy(vals[1..])
  }

  /** The work start: the first truthy candidate whose stripped text the external date parser accepts. */
  function StartDate(vals: seq<Option<string>>, parse: string -> Option<int>): (r: DateText)
    ensures !r.Unreadable?
    ensures r.Day? ==> exists v :: v in vals && Truthy(v) && parse(Strip(v.value)) == Some(r.n)
  {
    if |vals| == 0 then NoDate
    else if Truthy(vals[0]) && parse(Strip(vals[0].value)).Some? then Day(parse(Strip(vals[0].value)).value)
    else StartDate(vals[1..], parse)
  }

  /** The MID column fallback: the first truthy candidate whose stripped text is at least five digits. */
  function MidColumn(vals: seq<Option<string>>): (r: Option<string>)
    ensures r.Some? ==> IsMidText(r.value) && exists v :: v in vals && Truthy(v) && Strip(v.value) == r.value
    ensures r.None? ==> forall v :: v in vals && Truthy(v) ==> !IsMidText(Strip(v.value))
  {
    if |vals| == 0 then None
    else if Truthy(vals[0]) && IsMidText(Strip(vals[0].value)) then Some(Strip(vals[0].value))
    else MidColumn(vals[1..])
  }

  /** The place URL and the MID of a row: the first truthy URL cell decides the URL, and the MID columns are read only when it gives no MID. */
  function PlaceOf(row: RowView): (r: (Option<string>, Option<string>))
    ensures r.1.Some? ==> IsMidText(r.1.value)
    ensures FirstTruthy(row.urlValues).None? ==> r.0.None?
  {
    var url := FirstTruthy(row.urlValues);
    var urlMid := if url.Some? then ExtractMid(Strip(url.value)) else None;
    var placeUrl := if url.Some? then Some(Strip(url.value)) else None;
    if urlMid.Some? then (placeUrl, urlMid) else (placeUrl, MidColumn(row.midValues))
  }

  /**
   * One row of a tab as a record, or nothing for a row that is not internal
   * or has no business name.
   */
  function Normalise(row: RowView, tab: string, companies: Dict<string, string>, today: int, parse: string -> Option<int>): Option<Record> {
    var biz := CellText(row.bizname);
    if !row.internal || biz == "" then None
    else
      var remain := SheetClient.ParseIntMaybe(row.remain);
      var place := PlaceOf(row);
      Some(Record(
        GetOr(companies, biz, "기타"),
        CellText(row.agency),
        Some(biz),
        place.1,
        place.0,
        Some(TaskName(tab, CellText(row.product), CellText(row.productName))),
        Some(CellText(row.workload)),
        StartDate(row.startValues, parse),
        if remain.Some? then Day(today + remain.value) else NoDate,
        tab))
  }

  /**
   * What a refresh writes: a non-empty business name, a MID of at least five
   * digits when there is one, and dates that are either absent or readable.
   */
  predicate Fresh(r: Record) {
    Truthy(r.businessName)
    && (r.mid.Some? ==> IsMidText(r.mid.value))
    && !r.startDate.Unreadable? && !r.endDate.Unreadable?
  }

  /** A row becomes a record exactly when it is internal and names a business; the record is fresh, its end lies `remain` days after today, and its company comes from the guarantee mapping. */
  lemma NormaliseSpec(row: RowView, tab: string, companies: Dict<string, string>, today: int, parse: string -> Option<int>)
    ensures Normalise(row, tab, companies, today, parse).Some? <==> row.internal && CellText(row.bizname) != ""
    ensures Normalise(row, tab, companies, today, parse).Some? ==>
      var r := Normalise(row, tab, companies, today, parse).value;
      Fresh(r)
      && r.businessName == Some(CellText(row.bizname))
      && r.company == GetOr(companies, CellText(row.bizname), "기타")
      && (r.endDate.Day? <==> SheetClient.ParseIntMaybe(row.remain).Some?)
      && (r.endDate.Day? ==> r.endDate.n == today + SheetClient.ParseIntMaybe(row.remain).value)
  {
  }

  /** The records of one tab's rows, in row order. */
  function TabRecords(rows: seq<RowView>, tab: string, companies: Dict<string, string>, today: int, parse: string -> Option<int>): (r: seq<Record>)
    ensures |r| <= |rows|
  {
    if |rows| == 0 then []
    else
      var init := TabRecords(rows[..|rows| - 1], tab, companies, today, parse);
      match Normalise(rows[|rows| - 1], tab, companies, today, parse)
      case Some(x) => init + [x]
      case None => init
  }

  /** The records of every tab in tab order; a tab whose rows could not be read contributes nothing. */
  function Refreshed(tabs: seq<(string, Option<seq<RowView>>)>, companies: Dict<string, string>, today: int, parse: string -> Option<int>): seq<Record> {
    if |tabs| == 0 then []
    else
      var init := Refreshed(tabs[..|tabs| - 1], companies, today, parse);
      var (title, rows) := tabs[|tabs| - 1];
      if rows.Some? then init + TabRecords(rows.value, Strip(title), companies, today, parse) else init
  }

  lemma {:induction false} TabRecordsFresh(rows: seq<RowView>, tab: string, companies: Dict<string, string>, today: int, parse: string -> Option<int>)
    ensures forall x :: x in TabRecords(rows, tab, companies, today, parse) ==> Fresh(x)
  {
    if |rows| > 0 {
      TabRecordsFresh(rows[..|rows| - 1], tab, companies, today, parse);
      NormaliseSpec(rows[|rows| - 1], tab, companies, today, parse);
    }
  }

  /** Every record a refresh writes is fresh. */
  lemma {:induction false} RefreshedFresh(tabs: seq<(string, Option<seq<RowView>>)>, companies: Dict<string, string>, today: int, parse: string -> Option<int>)
    ensures forall x :: x in Refreshed(tabs, companies, today, parse) ==> Fresh(x)
  {
    if |tabs| > 0 {
      RefreshedFresh(tabs[..|tabs| - 1], companies, today, parse);
      var (title, rows) := tabs[|tabs| - 1];
      if rows.Some? {
        TabRecordsFresh(rows.value, Strip(title), companies, today, parse);
      }
    }
  }

  /** The cache lifetime in seconds (`CACHE_TTL_HOURS` hours). */
  const TtlSeconds: int := 24 * 3600

  // ---------------------------------------------------------------------
  // The cache object
  // ---------------------------------------------------------------------

  /** `WorklogCache.cache_data`: timestamps as seconds, and the records. */
  class WorklogCache {
    var updatedAt: Option<int>
    var expiresAt: Option<int>
    var records: seq<Record>

    /** The cache as `_load_cache` gives it when there is no readable file. */
    constructor ()
      ensures updatedAt == None && expiresAt == None && records == []
    {
      updatedAt := None;
      expiresAt := None;
      records := [];
    }

    /** The cache as `_load_cache` reads it from a file; an expiry that does not parse is `None`. */
    constructor Loaded(updatedAt: Option<int>, expiresAt: Option<int>, records: seq<Record>)
      ensures this.updatedAt == updatedAt && this.expiresAt == expiresAt && this.records == records
    {
      this.updatedAt := updatedAt;
      this.expiresAt := expiresAt;
      this.records := records;
    }

    /** `is_cache_valid`: both timestamps are recorded and `now` comes before the expiry. */
    predicate IsCacheValid(now: int)
      reads this
    {
      updatedAt.Some? && expiresAt.Some? && now < expiresAt.value
    }

    /** The loop shared by the three record queries: walk the records, keep the wanted ones. */
    method Lookup(q: Query) returns (results: seq<Record>)
      ensures results == Select(records, q)
    {
      results := [];
      for i := 0 to |records|
        invariant results == Select(records[..i], q)
      {
        assert records[..i + 1][..i] == records[..i];
        if Wanted(q, records[i]) {
          results := results + [records[i]];
        }
      }
      assert records[..|records|] == records;
    }

    /** `get_worklog_by_business`: the business's records, without those starting after `to` or ending before `from`. */
    method WorklogByBusiness(name: string, from: Option<int>, to: Option<int>) returns (results: seq<Record>)
      ensures forall x :: x in results <==> x in records && x.businessName == Some(name) && InRange(x, from, to)
      ensures results == Select(records, ByBusiness(name, from, to))
    {
      results := Lookup(ByBusiness(name, from, to));
      SelectSpec(records, ByBusiness(name, from, to));
    }

    /** `get_active_tasks_on_date`: the business's records active on `day`. */
    method ActiveTasksOnDate(name: string, day: int) returns (results: seq<Record>)
      ensures forall x :: x in results <==> x in records && x.businessName == Some(name) && ActiveOn(x, day)
      ensures results == Select(records, OnDate(name, day))
    {
      results := Lookup(OnDate(name, day));
      SelectSpec(records, OnDate(name, day));
    }

    /** `get_active_tasks_by_mid`: the records with this non-empty MID active on `day`. */
    method ActiveTasksByMid(mid: string, day: int) returns (results: seq<Record>)
      ensures forall x :: x in results <==> x in records && mid != "" && x.mid == Some(mid) && ActiveOn(x, day)
      ensures results == Select(records, ByMid(mid, day))
    {
      results := Lookup(ByMid(mid, day));
      SelectSpec(records, ByMid(mid, day));
    }

    /** `get_active_tasks_smart` with the day given. */
    method ActiveTasksSmart(mid: Option<string>, name: Option<string>, day: int) returns (results: seq<Record>)
      ensures results == Smart(records, mid, name, day)
    {
      if Truthy(mid) {
        results := ActiveTasksByMid(mid.value, day);
        if |results| > 0 {
          return;
        }
      }
      if Truthy(name) {
        results := ActiveTasksOnDate(name.value, day);
      } else {
        results := [];
      }
    }

    /** `get_task_totals_on_date`: the workloads of the business's tasks active on `day`, summed per task name. */
    method TaskTotalsOnDate(name: string, day: int) returns (totals: Dict<string, int>)
      ensures totals == Tally(Entries(Select(records, OnDate(name, day))))
      ensures SumValues(totals) == SumValues(Entries(Select(records, OnDate(name, day))))
    {
      var tasks := ActiveTasksOnDate(name, day);
      var es := Entries(tasks);
      totals := [];
      for i := 0 to |tasks|
        invariant totals == Tally(es[..i])
      {
        assert es[..i + 1][..i] == es[..i];
        totals := Bump(totals, (TaskKey(tasks[i]), WorkloadOf(tasks[i])));
      }
      assert es[..|tasks|] == es;
      TallySum(es);
    }

    /**
     * The record-building part of `refresh_cache`: every readable tab's rows
     * normalised in order, stamped with `now` and valid for the lifetime.
     */
    method RefreshCache(tabs: seq<(string, Option<seq<RowView>>)>, companies: Dict<string, string>, today: int, now: int, parse: string -> Option<int>)
      modifies this
      ensures records == Refreshed(tabs, companies, today, parse)
      ensures updatedAt == Some(now) && expiresAt == Some(now + TtlSeconds)
      ensures IsCacheValid(now) && forall x :: x in records ==> Fresh(x)
    {
      var all: seq<Record> := [];
      for t := 0 to |tabs|
        invariant all == Refreshed(tabs[..t], companies, today, parse)
      {
        assert tabs[..t + 1][..t] == tabs[..t];
        var (title, rows) := tabs[t];
        if rows.Some? {
          var recs := NormaliseTab(rows.value, Strip(title), companies, today, parse);
          all := all + recs;
        }
      }
      assert tabs[..|tabs|] == tabs;
      RefreshedFresh(tabs, companies, today, parse);
      records := all;
      updatedAt := Some(now);
      expiresAt := Some(now + TtlSeconds);
    }

    /** `clear_cache`: no records and no timestamps, so the cache is invalid at every moment. */
    method ClearCache()
      modifies this
      ensures updatedAt == None && expiresAt == None && records == []
      ensures forall now :: !IsCacheValid(now)
    {
      updatedAt := None;
      expiresAt := None;
      records := [];
    }
  }

  /** The row loop of one tab. */
  method NormaliseTab(rows: seq<RowView>, tab: string, companies: Dict<string, string>, today: int, parse: string -> Option<int>) returns (recs: seq<Record>)
    ensures recs == TabRecords(rows, tab, companies, today, parse)
  {
    recs := [];
    for i := 0 to |rows|
      invariant recs == TabRecords(rows[..i], tab, companies, today, parse)
    {
      assert rows[..i + 1][..i] == rows[..i];
      var r := Normalise(rows[i], tab, companies, today, parse);
      if r.Some? {
        recs := recs + [r.value];
      }
    }
    assert rows[..|rows|] == rows;
  }

  /** Among freshly refreshed records, the day test is exactly the inclusive window with open missing bounds. */
  lemma RefreshedActiveOn(tabs: seq<(string, Option<seq<RowView>>)>, companies: Dict<string, string>, today: int, parse: string -> Option<int>, x: Record, day: int)
    requires x in Refreshed(tabs, companies, today, parse)
    ensures ActiveOn(x, day) <==> (x.startDate.Day? ==> x.startDate.n <= day) && (x.endDate.Day? ==> day <= x.endDate.n)
  {
    RefreshedFresh(tabs, companies, today, parse);
    ActiveOnWindow(x, day);
  }
}
