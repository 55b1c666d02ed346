/**
 * The front page of the deadline notifier: the `days` query parameter,
 * the dated label of each selected day, and the copy-paste notice text
 * built for each agency from the grouped deadlines, with parenthesised
 * remarks dropped from task names.
 */
module App {
  import opened Common
  import opened Dicts
  import opened Dates
  import opened Sorting
  import opened SheetClient
  import opened SheetGrouping

  // ---------------------------------------------------------------------
  // _strip_parentheses
  // ---------------------------------------------------------------------

  /** The end of a `\s*\([^)]*\)` match at the start of `s`, if one starts there. */
  function ParenMatch(s: string): (r: Option<nat>)
    ensures r.Some? ==> 0 < r.value <= |s|
  {
    var j := Lead(s);
    if j < |s| && s[j] == '(' then
      match IndexOf(s[j + 1..], ')')
      case Some(k) => Some(j + 1 + k + 1)
      case None => None
    else None
  }

  /** `re.sub(r"\s*\([^)]*\)", "", s)`: the leftmost match removed, then the scan goes on after it. */
  function RemoveParens(s: string): (r: string)
    decreases |s|
  {
    if |s| == 0 then ""
    else match ParenMatch(s)
      case Some(e) => RemoveParens(s[e..])
      case None => [s[0]] + RemoveParens(s[1..])
  }

  /** `_strip_parentheses`: every parenthesised remark and the whitespace before it removed, then stripped. */
  function StripParentheses(text: string): string {
    if text == "" then text else Strip(RemoveParens(text))
  }

  /** No `(` comes before a `)`. */
  predicate NoGroup(s: string) {
    forall i, k :: 0 <= i < k < |s| && s[i] == '(' ==> s[k] != ')'
  }

  /** Removal only drops characters. */
  lemma {:induction false} RemoveParensKeeps(s: string)
    ensures forall c :: c in RemoveParens(s) ==> c in s
    decreases |s|
  {
    if |s| > 0 {
      match ParenMatch(s)
      case Some(e) =>
        RemoveParensKeeps(s[e..]);
      case None =>
        RemoveParensKeeps(s[1..]);
    }
  }

  /** After removal no parenthesised group is left. */
  lemma {:induction false} RemoveParensNoGroup(s: string)
    ensures NoGroup(RemoveParens(s))
    decreases |s|
  {
    if |s| > 0 {
      match ParenMatch(s)
      case Some(e) =>
        RemoveParensNoGroup(s[e..]);
      case None =>
        var rest := RemoveParens(s[1..]);
        RemoveParensNoGroup(s[1..]);
        if s[0] == '(' {
          assert Lead(s) == 0;
          assert ')' !in s[1..];
          RemoveParensKeeps(s[1..]);
        }
        var r := [s[0]] + rest;
        forall i, k | 0 <= i < k < |r| && r[i] == '('
          ensures r[k] != ')'
        {
          if i > 0 {
            assert r[i] == rest[i - 1] && r[k] == rest[k - 1];
          } else {
            assert r[k] in rest;
          }
        }
    }
  }

  /** Text without a `(` is left as it is. */
  lemma {:induction false} RemoveParensNoOpen(s: string)
    requires '(' !in s
    ensures RemoveParens(s) == s
    decreases |s|
  {
    if |s| > 0 {
      assert ParenMatch(s).None? by {
        var j := Lead(s);
        if j < |s| {
          assert s[j] in s;
        }
      }
      RemoveParensNoOpen(s[1..]);
      assert s == [s[0]] + s[1..];
    }
  }

  /**
   * A stripped task name keeps no parenthesised group, and a name without
   * `(` is only stripped.
   */
  lemma StripParenthesesSpec(text: string)
    ensures NoGroup(StripParentheses(text))
    ensures '(' !in text ==> StripParentheses(text) == Strip(text)
  {
    if text != "" {
      var r := RemoveParens(text);
      RemoveParensNoGroup(text);
      StripSpec(r);
      var a :| StrippedAt(r, Strip(r), a);
      var t := Strip(r);
      forall i, k | 0 <= i < k < |t| && t[i] == '('
        ensures t[k] != ')'
      {
        assert t[i] == r[a + i] && t[k] == r[a + k];
      }
      if '(' !in text {
        RemoveParensNoOpen(text);
      }
    } else {
      StripUnchanged(text);
    }
  }

  // ---------------------------------------------------------------------
  // _parse_days
  // ---------------------------------------------------------------------

  /** The integers among the stripped, non-empty pieces, in order; a piece `int()` rejects is skipped. */
  function KeepInts(parts: seq<string>): seq<int> {
    if |parts| == 0 then []
    else
      var p := Strip(parts[0]);
      (if p != "" && ParseInt(p).Some? then [ParseInt(p).value] else []) + KeepInts(parts[1..])
  }

  /** `_parse_days`: the comma-separated integers of the parameter. */
  function ParseDays(param: string): seq<int> {
    if param == "" then [] else KeepInts(Split(param, ','))
  }

  /** The loop of `_parse_days`: each piece in turn, appended when it reads as an integer. */
  method ParseDaysLoop(param: string) returns (selected: seq<int>)
    ensures selected == ParseDays(param)
  {
    selected := [];
    if param == "" {
      return;
    }
    var parts := Split(param, ',');
    assert parts[0..] == parts;
    for i := 0 to |parts|
      invariant selected + KeepInts(parts[i..]) == KeepInts(parts)
    {
      KeepIntsAt(parts, i);
      var before := selected;
      var p := Strip(parts[i]);
      if p != "" && ParseInt(p).Some? {
        selected := selected + [ParseInt(p).value];
      }
      assert selected == before + KeepOne(parts[i]);
      AppendStep(before, KeepOne(parts[i]), KeepInts(parts[i + 1..]), KeepInts(parts[i..]), KeepInts(parts));
    }
    assert parts[|parts|..] == [];
  }

  /** What one piece adds: its integer, when it is non-blank and reads as one. */
  function KeepOne(part: string): seq<int> {
    var p := Strip(part);
    if p != "" && ParseInt(p).Some? then [ParseInt(p).value] else []
  }

  lemma KeepIntsAt(parts: seq<string>, i: nat)
    requires i < |parts|
    ensures KeepInts(parts[i..]) == KeepOne(parts[i]) + KeepInts(parts[i + 1..])
  {
    assert parts[i..][1..] == parts[i + 1..];
  }

  function IntTexts(ds: seq<int>): (r: seq<string>)
    ensures |r| == |ds| && forall i :: 0 <= i < |ds| ==> r[i] == IntToString(ds[i])
  {
    seq(|ds|, i requires 0 <= i < |ds| => IntToString(ds[i]))
  }

  lemma NoCommaInInt(i: int)
    ensures ',' !in IntToString(i)
  {
    var r := IntToString(i);
    forall k | 0 <= k < |r|
      ensures r[k] != ','
    {
      if i < 0 && k > 0 {
        assert r[k] == NatToString(-i)[k - 1];
      }
    }
  }

  lemma {:induction false} KeepIntTexts(ds: seq<int>)
    ensures KeepInts(IntTexts(ds)) == ds
  {
    if |ds| > 0 {
      var ts := IntTexts(ds);
      assert ts[1..] == IntTexts(ds[1..]);
      KeepIntTexts(ds[1..]);
      IntToStringStripped(ds[0]);
      ParseIntToString(ds[0]);
      assert ds == [ds[0]] + ds[1..];
    }
  }

  /** The days written as `str(d)` joined by commas read back as the same days, in order. */
  lemma ParseDaysRoundTrip(ds: seq<int>)
    ensures ParseDays(Join(IntTexts(ds), ",")) == ds
  {
    var ts := IntTexts(ds);
    if |ds| > 0 {
      forall i | 0 <= i < |ts|
        ensures ',' !in ts[i]
      {
        NoCommaInInt(ds[i]);
      }
      SplitJoin(ts, ',');
      assert Join(ts, ",") != "" by {
        JoinNonEmpty(ts, ",");
      }
      KeepIntTexts(ds);
    }
  }

  lemma {:induction false} JoinNonEmpty(parts: seq<string>, sep: string)
    requires |parts| > 0 && parts[0] != ""
    ensures Join(parts, sep) != ""
  {
  }

  /** Every parsed day is the integer of one of the comma-separated pieces. */
  lemma {:induction false} KeepIntsFrom(parts: seq<string>)
    ensures forall x :: x in KeepInts(parts) ==> exists i :: 0 <= i < |parts| && ParseInt(Strip(parts[i])) == Some(x)
  {
    if |parts| > 0 {
      KeepIntsFrom(parts[1..]);
      forall x | x in KeepInts(parts)
        ensures exists i :: 0 <= i < |parts| && ParseInt(Strip(parts[i])) == Some(x)
      {
        if x !in KeepInts(parts[1..]) {
          assert ParseInt(Strip(parts[0])) == Some(x);
        } else {
          var i :| 0 <= i < |parts[1..]| && ParseInt(Strip(parts[1..][i])) == Some(x);
          assert parts[1..][i] == parts[i + 1];
        }
      }
    }
  }

  // ---------------------------------------------------------------------
  // Day labels
  // ---------------------------------------------------------------------

  /**
   * The base day as a proleptic Gregorian ordinal: the `base_date`
   * parameter when `date.fromisoformat` reads it, otherwise today, which
   * the caller passes in.
   */
  function BaseDay(param: string, today: int): (n: int)
    ensures n == today || n >= 1
  {
    var p := Strip(param);
    if p == "" then today
    else match FromIsoFormat(p)
      case Some(d) => ToOrdinal(d)
      case None => today
  }

  /** A base date written in ISO form is the day it names. */
  lemma BaseDayOfIso(d: Date, today: int)
    requires ValidDate(d) && d.year <= 9999
    ensures BaseDay(Iso(d), today) == ToOrdinal(d)
  {
    var s := Iso(d);
    assert !IsSpace(s[0]) && !IsSpace(s[|s| - 1]) by {
      ParseIsoOfIso(d);
      assert AllDigits(s[..4]);
      assert s[..4][0] == s[0];
    }
    StripUnchanged(s);
    FromIsoFormatOfIso(d);
  }

  /** A base date without zero padding is refused by `fromisoformat`, so today is used. */
  lemma BaseDayUnpadded(today: int)
    ensures BaseDay("2025-1-6", today) == today
  {
    var s := "2025-1-6";
    assert !IsSpace(s[0]) && !IsSpace(s[|s| - 1]);
    StripUnchanged(s);
  }

  /** The weekday names, Monday first. */
  const WeekdayNames: string := "월화수목금토일"

  /**
   * The label of a selected day: the ISO date `d` days after the base day
   * and its weekday, as in "2025-01-06(월)"; none when the date leaves the
   * range Python dates cover (the request then fails).
   */
  function DayLabel(base: int, d: int): (r: Option<string>)
    ensures r.Some? ==> |r.value| == 13 && r.value[10] == '(' && r.value[12] == ')'
  {
    var n := base + d;
    if n >= 1 && FromOrdinal(n).year <= 9999 then
      var iso := Iso(FromOrdinal(n));
      var w := Weekday(n);
      Some(iso + "(" + [WeekdayNames[w]] + ")")
    else None
  }

  /**
   * A label exists exactly for a day Python's dates cover; its first ten
   * characters read back as the date `base + d` and its bracketed name is
   * that day's weekday.
   */
  lemma DayLabelDate(base: int, d: int)
    ensures DayLabel(base, d).Some? <==> base + d >= 1 && FromOrdinal(base + d).year <= 9999
    ensures DayLabel(base, d).Some? ==>
      && FromIsoFormat(DayLabel(base, d).value[..10]) == Some(FromOrdinal(base + d))
      && DayLabel(base, d).value[11] == WeekdayNames[Weekday(base + d)]
  {
    if DayLabel(base, d).Some? {
      assert DayLabel(base, d).value[..10] == Iso(FromOrdinal(base + d));
      FromIsoFormatOfIso(FromOrdinal(base + d));
    }
  }

  /** `day_to_date_label`, built over the ordered days; none if some day's date is out of range. */
  function DayLabels(base: int, days: seq<int>): Option<Dict<int, string>> {
    LabelsBy(days, d => DayLabel(base, d))
  }

  /** The labels of the days in turn, each made by `labelOf`; none as soon as one has none. */
  function LabelsBy(days: seq<int>, labelOf: int -> Option<string>): Option<Dict<int, string>> {
    if |days| == 0 then Some([])
    else match LabelsBy(days[..|days| - 1], labelOf)
      case None => None
      case Some(m) =>
        match labelOf(days[|days| - 1])
        case None => None
        case Some(l) => Some(Set(m, days[|days| - 1], l))
  }

  /** The labels exist when every day has a date; each selected day then reads its own labelOf and no other day has one. */
  lemma DayLabelsSpec(base: int, days: seq<int>, d: int)
    ensures DayLabels(base, days).Some? <==> forall i :: 0 <= i < |days| ==> DayLabel(base, days[i]).Some?
    ensures DayLabels(base, days).Some? ==> Get(DayLabels(base, days).value, d) == if d in days then DayLabel(base, d) else None
  {
    var labelOf := d => DayLabel(base, d);
    LabelsBySome(days, labelOf);
    if DayLabels(base, days).Some? {
      LabelsByGet(days, labelOf, d);
    }
  }

  lemma {:induction false} LabelsBySome(days: seq<int>, labelOf: int -> Option<string>)
    ensures LabelsBy(days, labelOf).Some? <==> forall i :: 0 <= i < |days| ==> labelOf(days[i]).Some?
  {
    if |days| > 0 {
      var init := days[..|days| - 1];
      LabelsBySome(init, labelOf);
      assert forall i :: 0 <= i < |init| ==> init[i] == days[i];
    }
  }

  lemma {:induction false} LabelsByGet(days: seq<int>, labelOf: int -> Option<string>, d: int)
    requires LabelsBy(days, labelOf).Some?
    ensures Get(LabelsBy(days, labelOf).value, d) == if d in days then labelOf(d) else None
  {
    if |days| > 0 {
      var init := days[..|days| - 1];
      var x := days[|days| - 1];
      LabelsByGet(init, labelOf, d);
      assert days == init + [x];
      GetSet(LabelsBy(init, labelOf).value, x, labelOf(x).value, d);
    }
  }

  /** The label loop over the ordered days; it stops at the first day whose date is out of range. */
  method DayLabelsLoop(base: int, days: seq<int>) returns (r: Option<Dict<int, string>>)
    ensures r == DayLabels(base, days)
  {
    var labels: Dict<int, string> := [];
    for i := 0 to |days|
      invariant DayLabels(base, days[..i]) == Some(labels)
    {
      assert days[..i + 1][..i] == days[..i];
      var l := DayLabel(base, days[i]);
      if l.None? {
        DayLabelsSpec(base, days, 0);
        return None;
      }
      labels := Set(labels, days[i], l.value);
    }
    assert days[..|days|] == days;
    r := Some(labels);
  }

  // ---------------------------------------------------------------------
  // The notice text of one agency
  // ---------------------------------------------------------------------

  /** The lines of one day's tasks in dict order: `<task>` then each name stripped; a task without names is skipped. */
  function TaskLines(tm: TaskMap): seq<string> {
    if |tm| == 0 then []
    else
      var names := tm[0].1;
      (if |names| == 0 then [] else ["<" + StripParentheses(tm[0].0) + ">"] + StripAll(names)) + TaskLines(tm[1..])
  }

  /** The lines of the given days: each day's label (or `+d`), then its task lines. */
  function DayLines(dm: DayMap, labels: Dict<int, string>, ds: seq<int>): seq<string> {
    if |ds| == 0 then []
    else [GetOr(labels, ds[0], "+" + IntToString(ds[0]))] + TaskLines(GetOr(dm, ds[0], [])) + DayLines(dm, labels, ds[1..])
  }

  function Less(a: int, b: int): bool {
    a < b
  }

  function Id(d: int): int {
    d
  }

  /** `sorted(by_day.keys())`. */
  function Ascending(ds: seq<int>): seq<int> {
    SortBy(ds, Id, Less)
  }

  /** `sorted` keeps the days and puts them in increasing order. */
  lemma AscendingSpec(ds: seq<int>)
    ensures multiset(Ascending(ds)) == multiset(ds)
    ensures forall i, j :: 0 <= i < j < |Ascending(ds)| ==> Ascending(ds)[i] <= Ascending(ds)[j]
  {
    SortBySorted(ds, Id, Less);
  }

  /** `parts`: the lines of the agency's days in increasing order. */
  function MessageLines(dm: DayMap, labels: Dict<int, string>): seq<string> {
    DayLines(dm, labels, Ascending(Keys(dm)))
  }

  /** `"\n".join(parts).rstrip()` over the agency's days in increasing order. */
  function Message(dm: DayMap, labels: Dict<int, string>): string {
    var text := Join(MessageLines(dm, labels), "\n");
    text[..|text| - Trail(text)]
  }

  /** `agency_to_message[agency] = ...` for each agency of the grouping in turn, with `msg` making the text. */
  function MessagesBy(grouped: AgencyMap, msg: DayMap -> string): Dict<string, string> {
    if |grouped| == 0 then []
    else
      var last := grouped[|grouped| - 1];
      Set(MessagesBy(grouped[..|grouped| - 1], msg), last.0, msg(last.1))
  }

  /** `agency_to_message`. */
  function Messages(grouped: AgencyMap, labels: Dict<int, string>): Dict<string, string> {
    MessagesBy(grouped, dm => Message(dm, labels))
  }

  /** Each task with names gives its `<task>` line, followed by its names. */
  lemma {:induction false} TaskLinesListNames(tm: TaskMap, i: nat, n: string)
    requires i < |tm| && n in tm[i].1
    ensures "<" + StripParentheses(tm[i].0) + ">" in TaskLines(tm)
    ensures Strip(n) in TaskLines(tm)
  {
    if i == 0 {
      var k :| 0 <= k < |tm[0].1| && tm[0].1[k] == n;
      assert StripAll(tm[0].1)[k] == Strip(n);
    } else {
      TaskLinesListNames(tm[1..], i - 1, n);
      assert tm[1..][i - 1] == tm[i];
    }
  }

  /** Each day of the agency gives its label line and the lines of its tasks. */
  lemma {:induction false} DayLinesListDays(dm: DayMap, labels: Dict<int, string>, ds: seq<int>, d: int, line: string)
    requires d in ds && line in TaskLines(GetOr(dm, d, []))
    ensures GetOr(labels, d, "+" + IntToString(d)) in DayLines(dm, labels, ds)
    ensures line in DayLines(dm, labels, ds)
  {
    if ds[0] != d {
      DayLinesListDays(dm, labels, ds[1..], d, line);
    }
  }

  /**
   * Every name filed for an agency appears as a line of its message,
   * together with the `<task>` line of its task and the label of its day.
   */
  lemma MessageListsName(dm: DayMap, labels: Dict<int, string>, d: int, i: nat, n: string)
    requires d in Keys(dm) && i < |GetOr(dm, d, [])| && n in GetOr(dm, d, [])[i].1
    ensures GetOr(labels, d, "+" + IntToString(d)) in MessageLines(dm, labels)
    ensures "<" + StripParentheses(GetOr(dm, d, [])[i].0) + ">" in MessageLines(dm, labels)
    ensures Strip(n) in MessageLines(dm, labels)
  {
    var tm := GetOr(dm, d, []);
    TaskLinesListNames(tm, i, n);
    assert d in multiset(Keys(dm));
    assert d in Ascending(Keys(dm)) by {
      AscendingSpec(Keys(dm));
    }
    DayLinesListDays(dm, labels, Ascending(Keys(dm)), d, Strip(n));
    DayLinesListDays(dm, labels, Ascending(Keys(dm)), d, "<" + StripParentheses(tm[i].0) + ">");
  }

  /** One entry per agency of the grouping, in its order, each holding the text made from that agency's days. */
  lemma {:induction false} MessagesBySpec(grouped: AgencyMap, msg: DayMap -> string)
    requires Distinct(Keys(grouped))
    ensures var ms := MessagesBy(grouped, msg);
      |ms| == |grouped| && forall i :: 0 <= i < |ms| ==> ms[i] == (grouped[i].0, msg(grouped[i].1))
  {
    if |grouped| > 0 {
      var init := grouped[..|grouped| - 1];
      var last := grouped[|grouped| - 1];
      assert Keys(init) == Keys(grouped)[..|grouped| - 1];
      DistinctInit(Keys(grouped));
      MessagesBySpec(init, msg);
      var ms := MessagesBy(init, msg);
      assert Keys(ms) == Keys(init);
      SetNew(ms, last.0, msg(last.1));
    }
  }

  /** The messages are the agencies of the grouping in order, each with its own message. */
  lemma MessagesSpec(grouped: AgencyMap, labels: Dict<int, string>)
    requires Distinct(Keys(grouped))
    ensures var ms := Messages(grouped, labels);
      |ms| == |grouped| && forall i :: 0 <= i < |ms| ==> ms[i] == (grouped[i].0, Message(grouped[i].1, labels))
  {
    MessagesBySpec(grouped, dm => Message(dm, labels));
  }

  /** The name loop of one task: each name stripped, in order. */
  method EmitNames(parts0: seq<string>, names: seq<string>) returns (parts: seq<string>)
    ensures parts == parts0 + StripAll(names)
  {
    parts := parts0;
    for k := 0 to |names|
      invariant parts == parts0 + StripAll(names[..k])
    {
      assert StripAll(names[..k + 1]) == StripAll(names[..k]) + [Strip(names[k])];
      parts := parts + [Strip(names[k])];
    }
    assert names[..|names|] == names;
  }

  /** The lines one task adds: none without names, else `<task>` and the names. */
  function TaskBlock(t: (string, seq<string>)): seq<string> {
    if |t.1| == 0 then [] else ["<" + StripParentheses(t.0) + ">"] + StripAll(t.1)
  }

  lemma TaskLinesAt(tm: TaskMap, j: nat)
    requires j < |tm|
    ensures TaskLines(tm[j..]) == TaskBlock(tm[j]) + TaskLines(tm[j + 1..])
  {
    assert tm[j..][1..] == tm[j + 1..];
  }

  /** Appending a block and then the rest is appending the whole. */
  lemma AppendStep<T>(parts: seq<T>, block: seq<T>, rest: seq<T>, whole: seq<T>, total: seq<T>)
    requires parts + whole == total && whole == block + rest
    ensures (parts + block) + rest == total
  {
  }

  /** One pass of the task loop. */
  method EmitTask(parts0: seq<string>, t: (string, seq<string>)) returns (parts: seq<string>)
    ensures parts == parts0 + TaskBlock(t)
  {
    parts := parts0;
    if |t.1| != 0 {
      parts := parts + ["<" + StripParentheses(t.0) + ">"];
      parts := EmitNames(parts, t.1);
    }
  }

  /** The task loop of one day: a task without names is skipped, any other gives `<task>` and its names. */
  method EmitTasks(parts0: seq<string>, tm: TaskMap) returns (parts: seq<string>)
    ensures parts == parts0 + TaskLines(tm)
  {
    parts := parts0;
    assert tm[0..] == tm;
    for j := 0 to |tm|
      invariant parts + TaskLines(tm[j..]) == parts0 + TaskLines(tm)
    {
      TaskLinesAt(tm, j);
      var before := parts;
      parts := EmitTask(parts, tm[j]);
      AppendStep(before, TaskBlock(tm[j]), TaskLines(tm[j + 1..]), TaskLines(tm[j..]), parts0 + TaskLines(tm));
    }
    assert tm[|tm|..] == [];
  }

  /** The lines one day adds: its label, or `+d` without one, then its tasks. */
  function DayBlock(dm: DayMap, labels: Dict<int, string>, d: int): seq<string> {
    [GetOr(labels, d, "+" + IntToString(d))] + TaskLines(GetOr(dm, d, []))
  }

  lemma DayLinesAt(dm: DayMap, labels: Dict<int, string>, ds: seq<int>, i: nat)
    requires i < |ds|
    ensures DayLines(dm, labels, ds[i..]) == DayBlock(dm, labels, ds[i]) + DayLines(dm, labels, ds[i + 1..])
  {
    assert ds[i..][1..] == ds[i + 1..];
  }

  /** One pass of the day loop. */
  method EmitDay(parts0: seq<string>, dm: DayMap, labels: Dict<int, string>, d: int) returns (parts: seq<string>)
    ensures parts == parts0 + DayBlock(dm, labels, d)
  {
    parts := parts0 + [GetOr(labels, d, "+" + IntToString(d))];
    parts := EmitTasks(parts, GetOr(dm, d, []));
  }

  /** The day loop of one agency. */
  method EmitDays(parts0: seq<string>, dm: DayMap, labels: Dict<int, string>, ds: seq<int>) returns (parts: seq<string>)
    ensures parts == parts0 + DayLines(dm, labels, ds)
  {
    parts := parts0;
    assert ds[0..] == ds;
    for i := 0 to |ds|
      invariant parts + DayLines(dm, labels, ds[i..]) == parts0 + DayLines(dm, labels, ds)
    {
      DayLinesAt(dm, labels, ds, i);
      var before := parts;
      parts := EmitDay(parts, dm, labels, ds[i]);
      AppendStep(before, DayBlock(dm, labels, ds[i]), DayLines(dm, labels, ds[i + 1..]), DayLines(dm, labels, ds[i..]), parts0 + DayLines(dm, labels, ds));
    }
    assert ds[|ds|..] == [];
  }

  /** The body of the agency loop: the lines of the days in increasing order, joined and stripped at the right. */
  method MessageLoop(dm: DayMap, labels: Dict<int, string>) returns (text: string)
    ensures text == Message(dm, labels)
  {
    var parts := EmitDays([], dm, labels, Ascending(Keys(dm)));
    assert parts == MessageLines(dm, labels);
    var joined := Join(parts, "\n");
    text := joined[..|joined| - Trail(joined)];
  }

  /** The agency loop: each agency's message stored under its name in turn. */
  method MessagesLoop(grouped: AgencyMap, labels: Dict<int, string>) returns (m: Dict<string, string>)
    ensures m == Messages(grouped, labels)
  {
    m := [];
    for i := 0 to |grouped|
      invariant m == Messages(grouped[..i], labels)
    {
      assert grouped[..i + 1][..i] == grouped[..i];
      var text := MessageLoop(grouped[i].1, labels);
      m := Set(m, grouped[i].0, text);
    }
    assert grouped[..|grouped|] == grouped;
  }

  // ---------------------------------------------------------------------
  // The page
  // ---------------------------------------------------------------------

  /** What the deadline fetch gave: the grouping, or the text of the exception it raised. */
  datatype Fetched = Grouped(grouped: AgencyMap) | Failed(message: string)

  datatype Page = Page(
    orderedDays: seq<int>,
    labels: Dict<int, string>,
    grouped: AgencyMap,
    messages: Dict<string, string>,
    error: Option<string>)

  /**
   * `index`: nothing is fetched unless the form was submitted; then the
   * days are parsed and sorted, each gets its dated label, and each agency
   * of the grouping its message. A failed fetch leaves an empty grouping and
   * the error text. None when a day's date is out of range, where the
   * request fails.
   */
  function Index(submitted: bool, daysParam: string, baseParam: string, today: int, fetched: Fetched): (r: Option<Page>)
    ensures !submitted ==> r == Some(Page([], [], [], [], None))
  {
    if !submitted then Some(Page([], [], [], [], None))
    else
      var days := Ascending(ParseDays(Strip(daysParam)));
      match DayLabels(BaseDay(baseParam, today), days)
      case None => None
      case Some(labels) =>
        var (grouped, error) := match fetched
          case Grouped(g) => (g, None)
          case Failed(e) => ([], Some(e));
        Some(Page(days, labels, grouped, Messages(grouped, labels), error))
  }

  /**
   * A submitted page lists the parsed days in increasing order, labels
   * exactly those days, and holds one message per agency of a successful
   * fetch (none after a failed one, which reports its error).
   */
  lemma IndexSpec(daysParam: string, baseParam: string, today: int, fetched: Fetched, d: int)
    requires fetched.Grouped? ==> Distinct(Keys(fetched.grouped))
    ensures var r := Index(true, daysParam, baseParam, today, fetched);
      r.Some? ==>
        && multiset(r.value.orderedDays) == multiset(ParseDays(Strip(daysParam)))
        && (forall i, j :: 0 <= i < j < |r.value.orderedDays| ==> r.value.orderedDays[i] <= r.value.orderedDays[j])
        && Get(r.value.labels, d) == (if d in r.value.orderedDays then DayLabel(BaseDay(baseParam, today), d) else None)
        && (fetched.Failed? ==> r.value.messages == [] && r.value.error == Some(fetched.message))
        && (fetched.Grouped? ==> r.value.error == None && Keys(r.value.messages) == Keys(fetched.grouped))
  {
    var days := Ascending(ParseDays(Strip(daysParam)));
    AscendingSpec(ParseDays(Strip(daysParam)));
    DayLabelsSpec(BaseDay(baseParam, today), days, d);
    if fetched.Grouped? && DayLabels(BaseDay(baseParam, today), days).Some? {
      MessagesSpec(fetched.grouped, DayLabels(BaseDay(baseParam, today), days).value);
    }
  }
}
