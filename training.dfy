/**
 * The training-set builder: joins the rank snapshots of each business
 * with the work-log cache into one training row per business and day,
 * measures the N2 score change from the guarantee start day, and counts
 * how the score moved under each task and task combination. Days are day
 * numbers; scores are reals, used only in comparisons and differences.
 */
module Training {
  import opened Common
  import opened Dicts
  import opened Dates
  import Sorting
  import Worklog

  // ---------------------------------------------------------------------
  // generate_tasks_hash
  // ---------------------------------------------------------------------

  function Id(s: string): string { s }

  predicate Less(a: string, b: string) { StrLess(a, b) }

  lemma LessStrict()
    ensures Sorting.StrictOrder(Less)
  {
    forall a: string
      ensures !Less(a, a)
    {
      StrLessIrreflexive(a);
    }
    forall a: string, b: string, c: string | Less(a, b) && Less(b, c)
      ensures Less(a, c)
    {
      StrLessTransitive(a, b, c);
    }
  }

  /** `sorted(set(tasks))`. */
  function SortedSet(tasks: seq<string>): (r: seq<string>)
  {
    Sorting.SortBy(Dedup(tasks), Id, Less)
  }

  /** `"|".join(sorted(set(tasks)))`, the text that is hashed. */
  function Canonical(tasks: seq<string>): string {
    Join(SortedSet(tasks), "|")
  }

  /** `s[:n]`. */
  function Prefix(s: string, n: nat): (r: string)
    ensures |r| == if |s| < n then |s| else n
  {
    if |s| < n then s else s[..n]
  }

  /**
   * `sha1(canonical).hexdigest()[:12]`; the SHA-1 hex digest is the
   * parameter `sha1Hex`, 40 characters long.
   */
  function TasksHash(tasks: seq<string>, sha1Hex: string -> string): (r: string)
    ensures |sha1Hex(Canonical(tasks))| == 40 ==> |r| == 12 && r == sha1Hex(Canonical(tasks))[..12]
  {
    Prefix(sha1Hex(Canonical(tasks)), 12)
  }

  /** `sorted(set(tasks))` has exactly the tasks, each once, in ascending order. */
  lemma SortedSetSpec(tasks: seq<string>)
    ensures Distinct(SortedSet(tasks))
    ensures forall t :: t in SortedSet(tasks) <==> t in tasks
    ensures forall i, j :: 0 <= i < j < |SortedSet(tasks)| ==> StrLess(SortedSet(tasks)[i], SortedSet(tasks)[j])
  {
    var d := Dedup(tasks);
    var r := SortedSet(tasks);
    DedupSpec(tasks);
    LessStrict();
    Sorting.SortBySorted(d, Id, Less);
    assert multiset(r) == multiset(d);
    forall t
      ensures t in r <==> t in tasks
    {
      assert t in r <==> t in multiset(r);
      assert t in d <==> t in multiset(d);
    }
    DistinctSameCount(d, r);
    forall i, j | 0 <= i < j < |r|
      ensures StrLess(r[i], r[j])
    {
      assert !Less(Id(r[j]), Id(r[i]));
      StrLessTotal(r[i], r[j]);
    }
  }

  /** A permutation of a sequence without repeats has none. */
  lemma DistinctSameCount(d: seq<string>, r: seq<string>)
    requires Distinct(d) && multiset(r) == multiset(d)
    ensures Distinct(r)
  {
    forall i, j | 0 <= i < j < |r|
      ensures r[i] != r[j]
    {
      if r[i] == r[j] {
        var x := r[i];
        assert multiset{x, x} <= multiset(r) by {
          assert r == r[..i] + [x] + r[i + 1..j] + [x] + r[j + 1..];
        }
        DistinctCount(d, x);
      }
    }
  }

  /** In a sequence without repeats every element occurs once. */
  lemma {:induction false} DistinctCount(d: seq<string>, x: string)
    requires Distinct(d)
    ensures multiset(d)[x] == if x in d then 1 else 0
  {
    if |d| > 0 {
      var init := d[..|d| - 1];
      DistinctInit(d);
      DistinctCount(init, x);
      assert d == init + [d[|d| - 1]];
    }
  }

  /** Two sequences without repeats holding the same elements are permutations of each other. */
  lemma DistinctSameMultiset(a: seq<string>, b: seq<string>)
    requires Distinct(a) && Distinct(b)
    requires forall x :: x in a <==> x in b
    ensures multiset(a) == multiset(b)
  {
    forall x
      ensures multiset(a)[x] == multiset(b)[x]
    {
      DistinctCount(a, x);
      DistinctCount(b, x);
    }
  }

  /** No element of a sorted sequence comes before its head. */
  lemma SortedHeadMin(b: seq<string>, x: string)
    requires Sorting.SortedBy(b, Id, Less) && x in b
    ensures !StrLess(x, b[0])
  {
    var j :| 0 <= j < |b| && b[j] == x;
    if j == 0 {
      StrLessIrreflexive(x);
    } else {
      assert !Less(Id(b[j]), Id(b[0]));
    }
  }

  /** The tail of a sorted sequence is sorted. */
  lemma SortedTail(a: seq<string>)
    requires |a| > 0 && Sorting.SortedBy(a, Id, Less)
    ensures Sorting.SortedBy(a[1..], Id, Less)
  {
    forall i, j | 0 <= i < j < |a[1..]|
      ensures !Less(Id(a[1..][j]), Id(a[1..][i]))
    {
      assert a[1..][j] == a[j + 1] && a[1..][i] == a[i + 1];
    }
  }

  /** A sorted permutation is unique: sorting cannot depend on the input order. */
  lemma {:induction false} SortedUnique(a: seq<string>, b: seq<string>)
    requires Sorting.SortedBy(a, Id, Less) && Sorting.SortedBy(b, Id, Less)
    requires multiset(a) == multiset(b)
    ensures a == b
    decreases |a|
  {
    if |a| == 0 {
      assert |multiset(b)| == 0;
    } else {
      assert |b| == |multiset(b)| == |a|;
      assert a[0] in multiset(b) && b[0] in multiset(a);
      SortedHeadMin(b, a[0]);
      SortedHeadMin(a, b[0]);
      StrLessTotal(a[0], b[0]);
      assert a[0] == b[0];
      assert a == [a[0]] + a[1..] && b == [b[0]] + b[1..];
      assert multiset(a[1..]) == multiset(a) - multiset{a[0]};
      assert multiset(b[1..]) == multiset(b) - multiset{b[0]};
      SortedTail(a);
      SortedTail(b);
      SortedUnique(a[1..], b[1..]);
    }
  }

  /** `sorted(set(tasks))` depends only on which tasks occur, not on their order or repeats. */
  lemma SortedSetOrderFree(a: seq<string>, b: seq<string>)
    requires forall t :: t in a <==> t in b
    ensures SortedSet(a) == SortedSet(b)
  {
    DedupSpec(a);
    DedupSpec(b);
    DistinctSameMultiset(Dedup(a), Dedup(b));
    LessStrict();
    Sorting.SortBySorted(Dedup(a), Id, Less);
    Sorting.SortBySorted(Dedup(b), Id, Less);
    SortedUnique(SortedSet(a), SortedSet(b));
  }

  /** The task hash depends only on the set of task names. */
  lemma TasksHashOrderFree(a: seq<string>, b: seq<string>, sha1Hex: string -> string)
    requires forall t :: t in a <==> t in b
    ensures TasksHash(a, sha1Hex) == TasksHash(b, sha1Hex)
  {
    SortedSetOrderFree(a, b);
  }

  /** The two orderings of the builder's own test give the same hash. */
  lemma TasksHashTestOrder(sha1Hex: string -> string)
    ensures TasksHash(["저장", "영수증B", "트래픽"], sha1Hex) == TasksHash(["트래픽", "저장", "영수증B"], sha1Hex)
  {
    var a := ["저장", "영수증B", "트래픽"];
    var b := ["트래픽", "저장", "영수증B"];
    forall t
      ensures t in a <==> t in b
    {
    }
    TasksHashOrderFree(a, b, sha1Hex);
  }

  // ---------------------------------------------------------------------
  // get_n2_at_day, calculate_n2_delta
  // ---------------------------------------------------------------------

  /**
   * One rank snapshot as the builder reads it; a missing `date` reads as "".
   * `n2Cell` is the `n2_score` entry of the history item: the sheet cell's
   * text, absent when the row stops before that column. `n2` is the score
   * that text holds as a number, the value the builder means to subtract.
   */
  datatype Snapshot = Snapshot(
    clientName: Option<string>,
    businessName: Option<string>,
    date: string,
    n2Cell: Option<string>,
    n2: Option<real>,
    blogReviews: Option<int>,
    visitorReviews: Option<int>)

  /** The snapshot's date text is the ISO form of day `n`. */
  predicate DatedOn(s: Snapshot, n: int) {
    IsoOfDay(n) == Some(s.date)
  }

  /** The first position from `from` on whose date text is `iso`. */
  function FirstDatedFrom(snaps: seq<Snapshot>, iso: Option<string>, from: nat): (r: Option<nat>)
    requires from <= |snaps|
    ensures r.None? ==> forall i :: from <= i < |snaps| ==> iso != Some(snaps[i].date)
    ensures r.Some? ==>
      from <= r.value < |snaps| && iso == Some(snaps[r.value].date)
      && forall i :: from <= i < r.value ==> iso != Some(snaps[i].date)
    decreases |snaps| - from
  {
    if from == |snaps| then None
    else if iso == Some(snaps[from].date) then Some(from)
    else FirstDatedFrom(snaps, iso, from + 1)
  }

  /**
   * `get_n2_at_day(snapshots, start, day)`, as the position of the snapshot
   * it returns: the first one dated `day - 1` days after the start day.
   */
  function SnapshotAt(snaps: seq<Snapshot>, start: int, day: int): (r: Option<nat>)
    ensures r.None? <==> forall i :: 0 <= i < |snaps| ==> !DatedOn(snaps[i], start + day - 1)
    ensures r.Some? ==>
      r.value < |snaps| && DatedOn(snaps[r.value], start + day - 1)
      && forall i :: 0 <= i < r.value ==> !DatedOn(snaps[i], start + day - 1)
  {
    FirstDatedFrom(snaps, IsoOfDay(start + day - 1), 0)
  }

  /** The N2 score of that snapshot, if there is one and it has a score. */
  function N2At(snaps: seq<Snapshot>, start: int, day: int): Option<real> {
    match SnapshotAt(snaps, start, day)
    case Some(i) => snaps[i].n2
    case None => None
  }

  /** The end days tried, in order of preference. */
  const FallbackDays: seq<int> := [3, 4, 2, 5]

  /** The first of the fallback days from position `from` on that `score` gives a value for. */
  function FirstScoredFrom(score: int -> Option<real>, from: nat): (r: Option<nat>)
    requires from <= |FallbackDays|
    ensures r.None? ==> forall k :: from <= k < |FallbackDays| ==> score(FallbackDays[k]).None?
    ensures r.Some? ==>
      from <= r.value < |FallbackDays| && score(FallbackDays[r.value]).Some?
      && forall k :: from <= k < r.value ==> score(FallbackDays[k]).None?
    decreases |FallbackDays| - from
  {
    if from == |FallbackDays| then None
    else if score(FallbackDays[from]).Some? then Some(from)
    else FirstScoredFrom(score, from + 1)
  }

  /** `(delta, day_used, start_n2, end_n2)`. */
  datatype Delta = Delta(delta: Option<real>, dayUsed: int, startN2: Option<real>, endN2: Option<real>)

  const NoDelta: Delta := Delta(None, 0, None, None)

  /**
   * `calculate_n2_delta(snapshots, start)`: the start score is the day-1
   * score; the end score is the first of days 3, 4, 2 and 5 that has one.
   */
  function N2Delta(snaps: seq<Snapshot>, start: int): (r: Delta)
    ensures r.startN2 == N2At(snaps, start, 1)
    ensures r.delta.Some? <==>
      (N2At(snaps, start, 1).Some? && exists k :: 0 <= k < |FallbackDays| && N2At(snaps, start, FallbackDays[k]).Some?)
    ensures r.delta.Some? ==>
      (r.dayUsed in FallbackDays && r.endN2 == N2At(snaps, start, r.dayUsed)
      && r.endN2.Some? && r.delta.value == r.endN2.value - r.startN2.value)
    ensures r.delta.None? ==> r.dayUsed == 0 && r.endN2.None?
  {
    match N2At(snaps, start, 1)
    case None => NoDelta
    case Some(s) =>
      match FirstScoredFrom(d => N2At(snaps, start, d), 0)
      case None => Delta(None, 0, Some(s), None)
      case Some(k) =>
        var e := N2At(snaps, start, FallbackDays[k]).value;
        Delta(Some(e - s), FallbackDays[k], Some(s), Some(e))
  }

  /** Day 3 is preferred, then day 4, then day 2, then day 5. */
  lemma N2DeltaPreference(snaps: seq<Snapshot>, start: int)
    requires N2At(snaps, start, 1).Some?
    ensures N2At(snaps, start, 3).Some? ==> N2Delta(snaps, start).dayUsed == 3
    ensures N2At(snaps, start, 3).None? && N2At(snaps, start, 4).Some? ==> N2Delta(snaps, start).dayUsed == 4
    ensures (N2At(snaps, start, 3).None? && N2At(snaps, start, 4).None? && N2At(snaps, start, 2).Some?)
      ==> N2Delta(snaps, start).dayUsed == 2
    ensures (N2At(snaps, start, 3).None? && N2At(snaps, start, 4).None? && N2At(snaps, start, 2).None?
      && N2At(snaps, start, 5).Some?) ==> N2Delta(snaps, start).dayUsed == 5
  {
    var r := FirstScoredFrom(d => N2At(snaps, start, d), 0);
    if r.Some? {
      assert r.value == 0 || N2At(snaps, start, FallbackDays[0]).None?;
      assert r.value <= 1 || N2At(snaps, start, FallbackDays[1]).None?;
      assert r.value <= 2 || N2At(snaps, start, FallbackDays[2]).None?;
    }
  }

  // ---------------------------------------------------------------------
  // Trend of a score change
  // ---------------------------------------------------------------------

  datatype Trend = Up | Down | Stable

  /** Above `eps` is up, below `-eps` is down, anything between is stable. */
  function TrendOf(delta: real, eps: real): (t: Trend)
    ensures t == Up <==> delta > eps
    ensures t == Down <==> delta <= eps && delta < -eps
  {
    if delta > eps then Up else if delta < -eps then Down else Stable
  }

  /** The band a recipe row's change falls in. */
  const RecipeEps: real := 0.005

  // ---------------------------------------------------------------------
  // build_training_rows
  // ---------------------------------------------------------------------

  /** The two fields of a guarantee item the builder reads. */
  datatype GuaranteeRef = GuaranteeRef(businessName: Option<string>, startDate: Option<string>)

  /** Position of the item `{item["business_name"]: item for item in items}` keeps for `biz`: the last of that name. */
  function LastNamed(gs: seq<GuaranteeRef>, biz: string): (r: Option<nat>)
    ensures r.None? ==> forall i :: 0 <= i < |gs| ==> gs[i].businessName != Some(biz)
    ensures r.Some? ==>
      r.value < |gs| && gs[r.value].businessName == Some(biz)
      && forall i :: r.value < i < |gs| ==> gs[i].businessName != Some(biz)
  {
    if |gs| == 0 then None
    else if gs[|gs| - 1].businessName == Some(biz) then Some(|gs| - 1)
    else LastNamed(gs[..|gs| - 1], biz)
  }

  /** The guarantee start day of `biz`: none when there is no item, no text, or text `fromisoformat` rejects. */
  function StartDay(gs: seq<GuaranteeRef>, biz: string): Option<int> {
    match LastNamed(gs, biz)
    case None => None
    case Some(i) =>
      match gs[i].startDate
      case None => None
      case Some(t) =>
        if t == "" then None
        else
          match FromIsoFormat(t)
          case Some(d) => Some(ToOrdinal(d))
          case None => None
  }

  /** `snap.get("client_name") or snap.get("business_name")`, when that is non-empty. */
  function OwnerOf(s: Snapshot): (r: Option<string>)
    ensures r.Some? ==> r.value != ""
  {
    if Worklog.Truthy(s.clientName) then s.clientName
    else if Worklog.Truthy(s.businessName) then s.businessName
    else None
  }

  /** The keys of `snapshots_by_biz`: every owner, in the order first seen. */
  function Owners(snaps: seq<Snapshot>): seq<string> {
    if |snaps| == 0 then []
    else
      var init := Owners(snaps[..|snaps| - 1]);
      match OwnerOf(snaps[|snaps| - 1])
      case Some(b) => AddNew(init, b)
      case None => init
  }

  /** `snapshots_by_biz[biz]`: the owner's snapshots in input order. */
  function Group(snaps: seq<Snapshot>, biz: string): seq<Snapshot> {
    Sorting.Select(snaps, OwnerOf, Some(biz))
  }

  /** Each owner is listed once, and exactly the owners of snapshots are listed. */
  lemma {:induction false} OwnersSpec(snaps: seq<Snapshot>)
    ensures Distinct(Owners(snaps))
    ensures forall b :: b in Owners(snaps) <==> exists i :: 0 <= i < |snaps| && OwnerOf(snaps[i]) == Some(b)
  {
    if |snaps| > 0 {
      var init := snaps[..|snaps| - 1];
      OwnersSpec(init);
      match OwnerOf(snaps[|snaps| - 1])
      case Some(b) =>
        AddNewSpec(Owners(init), b);
      case None =>
    }
  }

  /** One more snapshot joins its owner's group at the end. */
  lemma GroupSnoc(snaps: seq<Snapshot>, i: nat, b: string)
    requires i < |snaps|
    ensures Group(snaps[..i + 1], b) == Group(snaps[..i], b) + (if OwnerOf(snaps[i]) == Some(b) then [snaps[i]] else [])
  {
    assert snaps[..i + 1] == snaps[..i] + [snaps[i]];
    Sorting.SelectAppend(snaps[..i], [snaps[i]], OwnerOf, Some(b));
    assert [snaps[i]][1..] == [];
  }

  /** Someone who owns no snapshot has an empty group. */
  lemma GroupAbsent(snaps: seq<Snapshot>, b: string)
    requires b !in Owners(snaps)
    ensures Group(snaps, b) == []
  {
    OwnersSpec(snaps);
    Sorting.SelectNone(snaps, OwnerOf, Some(b));
  }

  /** A snapshot is in its owner's group. */
  lemma {:induction false} GroupHas(snaps: seq<Snapshot>, i: nat)
    requires i < |snaps| && OwnerOf(snaps[i]).Some?
    ensures snaps[i] in Group(snaps, OwnerOf(snaps[i]).value)
  {
    if i > 0 {
      GroupHas(snaps[1..], i - 1);
    }
  }

  /** `groups` is `snapshots_by_biz` after the snapshots `p`. */
  ghost predicate GroupedAs(groups: Dict<string, seq<Snapshot>>, p: seq<Snapshot>) {
    Keys(groups) == Owners(p) && forall k :: 0 <= k < |groups| ==> groups[k].1 == Group(p, groups[k].0)
  }

  /** `snapshots_by_biz[biz].append(snap)` keeps the grouping exact. */
  lemma GroupAppend(groups: Dict<string, seq<Snapshot>>, snaps: seq<Snapshot>, i: nat, b: string)
    requires i < |snaps| && OwnerOf(snaps[i]) == Some(b) && GroupedAs(groups, snaps[..i])
    ensures GroupedAs(Set(groups, b, GetOr(groups, b, []) + [snaps[i]]), snaps[..i + 1])
  {
    var p := snaps[..i];
    assert snaps[..i + 1][..i] == p;
    OwnersSpec(p);
    SetKeys(groups, b, GetOr(groups, b, []) + [snaps[i]]);
    forall c {
      GroupSnoc(snaps, i, c);
    }
    match Find(Keys(groups), b)
    case Some(at) =>
    case None =>
      GroupAbsent(p, b);
  }

  /** A snapshot without an owner changes no group. */
  lemma GroupSkip(groups: Dict<string, seq<Snapshot>>, snaps: seq<Snapshot>, i: nat)
    requires i < |snaps| && OwnerOf(snaps[i]).None? && GroupedAs(groups, snaps[..i])
    ensures GroupedAs(groups, snaps[..i + 1])
  {
    assert snaps[..i + 1][..i] == snaps[..i];
    forall c {
      GroupSnoc(snaps, i, c);
    }
  }

  /** The grouping loop: `snapshots_by_biz[biz].append(snap)` for every owned snapshot. */
  method GroupByOwner(snaps: seq<Snapshot>) returns (groups: Dict<string, seq<Snapshot>>)
    ensures Keys(groups) == Owners(snaps)
    ensures forall k :: 0 <= k < |groups| ==> groups[k].1 == Group(snaps, groups[k].0)
  {
    groups := [];
    for i := 0 to |snaps|
      invariant GroupedAs(groups, snaps[..i])
    {
      var s := snaps[i];
      match OwnerOf(s) {
        case Some(b) =>
          GroupAppend(groups, snaps, i, b);
          groups := Set(groups, b, GetOr(groups, b, []) + [s]);
        case None =>
          GroupSkip(groups, snaps, i);
      }
    }
    assert snaps[..|snaps|] == snaps;
  }

  /** One training row; the copied snapshot fields other than the N2 score are not modelled. */
  datatype TrainingRow = TrainingRow(
    date: string,
    business: string,
    n2: Option<real>,
    tasks: seq<string>,
    tasksHash: string,
    taskTotals: Dict<string, int>,
    tasksCount: nat,
    delta: Delta)

  /** What the builder reads besides the snapshots: guarantee items, the cached work log and the hash. */
  datatype Sources = Sources(guarantees: seq<GuaranteeRef>, worklog: seq<Worklog.Record>, sha1Hex: string -> string)

  function DateOf(s: Snapshot): string { s.date }

  /** `biz_snapshots.sort(key=lambda x: x.get("date", ""))`. */
  function ByDate(group: seq<Snapshot>): seq<Snapshot> {
    Sorting.SortBy(group, DateOf, Less)
  }

  /** The delta every row of a business carries: none without a readable guarantee start. */
  function BizDelta(sorted: seq<Snapshot>, start: Option<int>): Delta {
    match start
    case Some(st) => N2Delta(sorted, st)
    case None => NoDelta
  }

  /** `[t.get("task_name", "") for t in active_tasks if t.get("task_name")]`. */
  function TaskNames(active: seq<Worklog.Record>): (r: seq<string>)
    ensures forall t :: t in r ==> t != ""
  {
    if |active| == 0 then []
    else
      var last := active[|active| - 1];
      TaskNames(active[..|active| - 1]) + (if Worklog.Truthy(last.taskName) then [last.taskName.value] else [])
  }

  /** A snapshot with a date `fromisoformat` accepts. */
  predicate Usable(s: Snapshot) {
    s.date != "" && FromIsoFormat(s.date).Some?
  }

  /** `f"{biz_name}|{snap_date_str}"`. */
  function RowKey(biz: string, date: string): string {
    biz + "|" + date
  }

  function RowKeys(rows: seq<TrainingRow>): (ks: seq<string>)
    ensures |ks| == |rows| && forall i :: 0 <= i < |rows| ==> ks[i] == RowKey(rows[i].business, rows[i].date)
  {
    seq(|rows|, i requires 0 <= i < |rows| => RowKey(rows[i].business, rows[i].date))
  }

  lemma RowKeysSnoc(rows: seq<TrainingRow>, row: TrainingRow)
    ensures RowKeys(rows + [row]) == RowKeys(rows) + [RowKey(row.business, row.date)]
  {
  }

  /** The work-log records of `biz` active on the snapshot's day. */
  function ActiveFor(biz: string, date: string, src: Sources): seq<Worklog.Record>
    requires FromIsoFormat(date).Some?
  {
    Worklog.Select(src.worklog, Worklog.OnDate(biz, ToOrdinal(FromIsoFormat(date).value)))
  }

  /** The row built for one snapshot. */
  function MakeRow(biz: string, s: Snapshot, delta: Delta, src: Sources): TrainingRow
    requires Usable(s)
  {
    var active := ActiveFor(biz, s.date, src);
    var names := TaskNames(active);
    TrainingRow(s.date, biz, s.n2, names, if |names| == 0 then "" else TasksHash(names, src.sha1Hex),
      Worklog.Tally(Worklog.Entries(active)), |names|, delta)
  }

  /** One step of the inner loop: skip a dateless, unreadable or already seen snapshot, else add its row. */
  function Emit(rows: seq<TrainingRow>, biz: string, s: Snapshot, delta: Delta, src: Sources): seq<TrainingRow> {
    if !Usable(s) || RowKey(biz, s.date) in RowKeys(rows) then rows
    else rows + [MakeRow(biz, s, delta, src)]
  }

  function EmitGroup(rows: seq<TrainingRow>, biz: string, sorted: seq<Snapshot>, delta: Delta, src: Sources): seq<TrainingRow> {
    if |sorted| == 0 then rows
    else Emit(EmitGroup(rows, biz, sorted[..|sorted| - 1], delta, src), biz, sorted[|sorted| - 1], delta, src)
  }

  function EmitOwners(snaps: seq<Snapshot>, owners: seq<string>, src: Sources): seq<TrainingRow> {
    if |owners| == 0 then []
    else
      var biz := owners[|owners| - 1];
      var sorted := ByDate(Group(snaps, biz));
      EmitGroup(EmitOwners(snaps, owners[..|owners| - 1], src), biz, sorted, BizDelta(sorted, StartDay(src.guarantees, biz)), src)
  }

  lemma EmitOwnersSnoc(snaps: seq<Snapshot>, owners: seq<string>, g: nat, src: Sources)
    requires g < |owners|
    ensures EmitOwners(snaps, owners[..g + 1], src)
      == EmitGroup(EmitOwners(snaps, owners[..g], src), owners[g], ByDate(Group(snaps, owners[g])),
          BizDelta(ByDate(Group(snaps, owners[g])), StartDay(src.guarantees, owners[g])), src)
  {
    assert owners[..g + 1][..g] == owners[..g];
  }

  /** The rows `build_training_rows` returns when nothing raises. */
  function TrainingRows(snaps: seq<Snapshot>, src: Sources): seq<TrainingRow> {
    EmitOwners(snaps, Owners(snaps), src)
  }

  /** What every row promises: a readable date, the day's named tasks, their count and hash, and its business's delta. */
  predicate RowOk(r: TrainingRow, snaps: seq<Snapshot>, src: Sources) {
    r.business in Owners(snaps)
    && FromIsoFormat(r.date).Some?
    && r.tasks == TaskNames(ActiveFor(r.business, r.date, src))
    && r.tasksCount == |r.tasks|
    && (r.tasks == [] ==> r.tasksHash == "")
    && (r.tasks != [] ==> r.tasksHash == TasksHash(r.tasks, src.sha1Hex))
    && r.delta == BizDelta(ByDate(Group(snaps, r.business)), StartDay(src.guarantees, r.business))
  }

  predicate RowsOk(rows: seq<TrainingRow>, snaps: seq<Snapshot>, src: Sources) {
    Distinct(RowKeys(rows)) && forall r :: r in rows ==> RowOk(r, snaps, src)
  }

  /** A business's inner loop keeps the rows so far, keeps the invariant, and covers every usable snapshot. */
  lemma {:induction false} EmitGroupSpec(rows: seq<TrainingRow>, biz: string, sorted: seq<Snapshot>, snaps: seq<Snapshot>, src: Sources)
    requires biz in Owners(snaps) && RowsOk(rows, snaps, src)
    ensures var out := EmitGroup(rows, biz, sorted, BizDelta(ByDate(Group(snaps, biz)), StartDay(src.guarantees, biz)), src);
      RowsOk(out, snaps, src) && |rows| <= |out| && out[..|rows|] == rows
      && forall s :: s in sorted && Usable(s) ==> RowKey(biz, s.date) in RowKeys(out)
  {
    var delta := BizDelta(ByDate(Group(snaps, biz)), StartDay(src.guarantees, biz));
    if |sorted| > 0 {
      var init := sorted[..|sorted| - 1];
      var s := sorted[|sorted| - 1];
      EmitGroupSpec(rows, biz, init, snaps, src);
      var mid := EmitGroup(rows, biz, init, delta, src);
      EmitSpec(mid, biz, s, snaps, src);
      var out := Emit(mid, biz, s, delta, src);
      assert out[..|rows|] == mid[..|rows|];
      assert sorted == init + [s];
    }
  }

  /** One step of a business's loop keeps the rows so far, keeps the invariant, and covers the snapshot when usable. */
  lemma EmitSpec(rows: seq<TrainingRow>, biz: string, s: Snapshot, snaps: seq<Snapshot>, src: Sources)
    requires biz in Owners(snaps) && RowsOk(rows, snaps, src)
    ensures var out := Emit(rows, biz, s, BizDelta(ByDate(Group(snaps, biz)), StartDay(src.guarantees, biz)), src);
      RowsOk(out, snaps, src) && |rows| <= |out| && out[..|rows|] == rows
      && (forall k :: k in RowKeys(rows) ==> k in RowKeys(out))
      && (Usable(s) ==> RowKey(biz, s.date) in RowKeys(out))
  {
    var delta := BizDelta(ByDate(Group(snaps, biz)), StartDay(src.guarantees, biz));
    if Usable(s) && RowKey(biz, s.date) !in RowKeys(rows) {
      var row := MakeRow(biz, s, delta, src);
      RowKeysSnoc(rows, row);
      assert (rows + [row])[..|rows|] == rows;
    }
  }

  lemma {:induction false} EmitOwnersSpec(snaps: seq<Snapshot>, owners: seq<string>, src: Sources)
    requires forall b :: b in owners ==> b in Owners(snaps)
    ensures RowsOk(EmitOwners(snaps, owners, src), snaps, src)
    ensures forall b, s :: b in owners && s in ByDate(Group(snaps, b)) && Usable(s) ==>
      RowKey(b, s.date) in RowKeys(EmitOwners(snaps, owners, src))
  {
    if |owners| > 0 {
      var init := owners[..|owners| - 1];
      var biz := owners[|owners| - 1];
      assert owners == init + [biz];
      EmitOwnersSpec(snaps, init, src);
      var before := EmitOwners(snaps, init, src);
      var sorted := ByDate(Group(snaps, biz));
      EmitGroupSpec(before, biz, sorted, snaps, src);
      var out := EmitGroup(before, biz, sorted, BizDelta(sorted, StartDay(src.guarantees, biz)), src);
      assert EmitOwners(snaps, owners, src) == out;
      CoverAcross(snaps, init, biz, before, out);
    }
  }

  /** Coverage of the earlier businesses survives one more business's loop, which covers its own snapshots. */
  lemma CoverAcross(snaps: seq<Snapshot>, init: seq<string>, biz: string, before: seq<TrainingRow>, out: seq<TrainingRow>)
    requires |before| <= |out| && out[..|before|] == before
    requires forall b, s :: b in init && s in ByDate(Group(snaps, b)) && Usable(s) ==> RowKey(b, s.date) in RowKeys(before)
    requires forall s :: s in ByDate(Group(snaps, biz)) && Usable(s) ==> RowKey(biz, s.date) in RowKeys(out)
    ensures forall b, s :: b in init + [biz] && s in ByDate(Group(snaps, b)) && Usable(s) ==> RowKey(b, s.date) in RowKeys(out)
  {
    forall b, s | b in init + [biz] && s in ByDate(Group(snaps, b)) && Usable(s)
      ensures RowKey(b, s.date) in RowKeys(out)
    {
      if b != biz {
        assert b in init;
        RowKeysPrefix(before, out, RowKey(b, s.date));
      }
    }
  }

  /** A key of some rows is still a key once more rows follow them. */
  lemma RowKeysPrefix(before: seq<TrainingRow>, out: seq<TrainingRow>, key: string)
    requires |before| <= |out| && out[..|before|] == before
    requires key in RowKeys(before)
    ensures key in RowKeys(out)
  {
    var k :| 0 <= k < |before| && RowKeys(before)[k] == key;
    assert out[k] == before[k];
  }

  /**
   * `build_training_rows`: at most one row per business and date, each
   * row as `RowOk` describes, and a row for every snapshot that has an
   * owner and a readable date.
   */
  lemma TrainingRowsSpec(snaps: seq<Snapshot>, src: Sources)
    ensures var rows := TrainingRows(snaps, src);
      (forall i, j :: 0 <= i < j < |rows| ==> (rows[i].business, rows[i].date) != (rows[j].business, rows[j].date))
      && (forall r :: r in rows ==> RowOk(r, snaps, src))
      && forall i :: 0 <= i < |snaps| && OwnerOf(snaps[i]).Some? && Usable(snaps[i]) ==>
        RowKey(OwnerOf(snaps[i]).value, snaps[i].date) in RowKeys(rows)
  {
    var rows := TrainingRows(snaps, src);
    EmitOwnersSpec(snaps, Owners(snaps), src);
    forall i, j | 0 <= i < j < |rows|
      ensures (rows[i].business, rows[i].date) != (rows[j].business, rows[j].date)
    {
      assert RowKeys(rows)[i] != RowKeys(rows)[j];
    }
    forall i | 0 <= i < |snaps| && OwnerOf(snaps[i]).Some? && Usable(snaps[i])
      ensures RowKey(OwnerOf(snaps[i]).value, snaps[i].date) in RowKeys(rows)
    {
      var b := OwnerOf(snaps[i]).value;
      OwnersSpec(snaps);
      GroupHas(snaps, i);
      assert snaps[i] in multiset(ByDate(Group(snaps, b)));
    }
  }

  // ---------------------------------------------------------------------
  // build_training_rows as written, on the sheet's text
  // ---------------------------------------------------------------------

  /** The `n2_score` entry of the snapshot `get_n2_at_day` returns, or none. */
  function N2CellAt(snaps: seq<Snapshot>, start: int, day: int): Option<string> {
    match SnapshotAt(snaps, start, day)
    case Some(i) => snaps[i].n2Cell
    case None => None
  }

  /**
   * `calculate_n2_delta` as written raises `TypeError`: the day-1 entry
   * and the entry of one of days 3, 4, 2 and 5 are present, so both pass
   * `is not None` (an empty cell too), and `end_n2 - start_n2` subtracts
   * two strings.
   */
  predicate N2DeltaRaises(snaps: seq<Snapshot>, start: int) {
    N2CellAt(snaps, start, 1).Some?
    && exists k :: 0 <= k < |FallbackDays| && N2CellAt(snaps, start, FallbackDays[k]).Some?
  }

  /**
   * The business `biz` makes the row loop raise: it has a readable
   * guarantee start and a snapshot with a readable date, whose row
   * computes the delta over the business's sorted snapshots.
   */
  predicate RaisesFor(snaps: seq<Snapshot>, src: Sources, biz: string) {
    StartDay(src.guarantees, biz).Some?
    && (exists i :: 0 <= i < |snaps| && OwnerOf(snaps[i]) == Some(biz) && Usable(snaps[i]))
    && N2DeltaRaises(ByDate(Group(snaps, biz)), StartDay(src.guarantees, biz).value)
  }

  /**
   * `build_training_rows` as written: the first business whose delta
   * raises sends the run to the blanket `except`, which returns [];
   * otherwise the rows are those of `TrainingRows`.
   */
  function TrainingRowsAsWritten(snaps: seq<Snapshot>, src: Sources): (r: seq<TrainingRow>)
    ensures (exists b :: b in Owners(snaps) && RaisesFor(snaps, src, b)) ==> r == []
    ensures (forall b :: b in Owners(snaps) ==> !RaisesFor(snaps, src, b)) ==> r == TrainingRows(snaps, src)
  {
    if exists b :: b in Owners(snaps) && RaisesFor(snaps, src, b) then [] else TrainingRows(snaps, src)
  }

  /**
   * Whenever a business with a readable start has a day-1 score and a
   * score on day 3, 4, 2 or 5, the builder as written returns no row,
   * while `TrainingRows` returns one for each of its dated snapshots.
   */
  lemma AsWrittenDropsRows(snaps: seq<Snapshot>, src: Sources, i: nat)
    requires i < |snaps| && OwnerOf(snaps[i]).Some? && Usable(snaps[i])
    requires RaisesFor(snaps, src, OwnerOf(snaps[i]).value)
    ensures TrainingRowsAsWritten(snaps, src) == []
    ensures RowKey(OwnerOf(snaps[i]).value, snaps[i].date) in RowKeys(TrainingRows(snaps, src))
    ensures TrainingRows(snaps, src) != []
  {
    var b := OwnerOf(snaps[i]).value;
    OwnersSpec(snaps);
    assert b in Owners(snaps);
    TrainingRowsSpec(snaps, src);
  }

  /**
   * When every present cell holds a number and every score comes from a
   * present cell, the builder as written raises exactly when the intended
   * delta exists.
   */
  lemma RaisesIffDelta(snaps: seq<Snapshot>, start: int)
    requires forall i :: 0 <= i < |snaps| ==> (snaps[i].n2Cell.Some? <==> snaps[i].n2.Some?)
    ensures N2DeltaRaises(snaps, start) <==> N2Delta(snaps, start).delta.Some?
  {
    forall day
      ensures N2CellAt(snaps, start, day).Some? <==> N2At(snaps, start, day).Some?
    {
    }
  }

  // ---------------------------------------------------------------------
  // build_recipe_stats
  // ---------------------------------------------------------------------

  /** The counters of one task or task combination. */
  datatype Stat = Stat(deltas: seq<real>, count: nat, up: nat, down: nat, stable: nat)

  const Zero: Stat := Stat([], 0, 0, 0, 0)

  /** Records one more row's delta and its trend. */
  function Tick(st: Stat, t: Trend, x: real): Stat {
    Stat(st.deltas + [x], st.count + 1,
      st.up + (if t == Up then 1 else 0),
      st.down + (if t == Down then 1 else 0),
      st.stable + (if t == Stable then 1 else 0))
  }

  /** `stats[k]["deltas"].append(delta); stats[k]["count"] += 1; stats[k][trend] += 1` on a defaultdict. */
  function BumpKey(d: Dict<string, Stat>, k: string, t: Trend, x: real): Dict<string, Stat> {
    Set(d, k, Tick(GetOr(d, k, Zero), t, x))
  }

  function BumpKeys(d: Dict<string, Stat>, ks: seq<string>, t: Trend, x: real): Dict<string, Stat> {
    if |ks| == 0 then d else BumpKey(BumpKeys(d, ks[..|ks| - 1], t, x), ks[|ks| - 1], t, x)
  }

  lemma {:induction false} BumpKeysAppend(d: Dict<string, Stat>, a: seq<string>, b: seq<string>, t: Trend, x: real)
    ensures BumpKeys(d, a + b, t, x) == BumpKeys(BumpKeys(d, a, t, x), b, t, x)
  {
    if |b| == 0 {
      assert a + b == a;
    } else {
      BumpKeysAppend(d, a, b[..|b| - 1], t, x);
      assert (a + b)[..|a + b| - 1] == a + b[..|b| - 1];
    }
  }

  /** Counters whose count is the number of deltas and of trends recorded. */
  predicate Balanced(st: Stat) {
    st.count == |st.deltas| == st.up + st.down + st.stable
  }

  /** Every counter in the dict is balanced and has seen at least one row. */
  predicate AllBalanced(d: Dict<string, Stat>) {
    forall i :: 0 <= i < |d| ==> Balanced(d[i].1) && d[i].1.count > 0
  }

  lemma {:induction false} BumpKeysBalanced(d: Dict<string, Stat>, ks: seq<string>, t: Trend, x: real)
    requires AllBalanced(d)
    ensures AllBalanced(BumpKeys(d, ks, t, x))
  {
    if |ks| > 0 {
      var m := BumpKeys(d, ks[..|ks| - 1], t, x);
      BumpKeysBalanced(d, ks[..|ks| - 1], t, x);
      var k := ks[|ks| - 1];
      match Find(Keys(m), k)
      case Some(i) =>
      case None =>
    }
  }

  /** Bumping keys adds to each key's count the number of times it is bumped. */
  lemma {:induction false} BumpKeysCount(d: Dict<string, Stat>, ks: seq<string>, t: Trend, x: real, k: string)
    ensures GetOr(BumpKeys(d, ks, t, x), k, Zero).count == GetOr(d, k, Zero).count + multiset(ks)[k]
  {
    if |ks| > 0 {
      var init := ks[..|ks| - 1];
      BumpKeysCount(d, init, t, x, k);
      GetOrSet(BumpKeys(d, init, t, x), ks[|ks| - 1], Tick(GetOr(BumpKeys(d, init, t, x), ks[|ks| - 1], Zero), t, x), k, Zero);
      assert ks == init + [ks[|ks| - 1]];
    }
  }

  /** `f"{a}+{b}"`. */
  function PairKey(a: string, b: string): string {
    a + "+" + b
  }

  /** The keys the inner pair loop makes for position `i`: `ts[i]` with each later task. */
  function RowPairs(ts: seq<string>, i: nat): (r: seq<string>)
    requires i < |ts|
    ensures |r| == |ts| - i - 1 && forall k :: 0 <= k < |r| ==> r[k] == PairKey(ts[i], ts[i + 1 + k])
  {
    seq(|ts| - i - 1, k requires 0 <= k < |ts| - i - 1 => PairKey(ts[i], ts[i + 1 + k]))
  }

  /** The pair keys made for the positions before `i`, in loop order. */
  function PairsBefore(ts: seq<string>, i: nat): seq<string>
    requires i <= |ts|
  {
    if i == 0 then [] else PairsBefore(ts, i - 1) + RowPairs(ts, i - 1)
  }

  /** All the combination keys of one row: every pair when there are two or more tasks, then the full set. */
  function ComboKeys(ts: seq<string>): seq<string> {
    (if |ts| >= 2 then PairsBefore(ts, |ts|) else []) + (if |ts| > 0 then [Join(ts, "+")] else [])
  }

  /** There are `i(2n - i - 1)/2` pair keys before position `i` of `n` tasks. */
  lemma {:induction false} PairsBeforeCount(ts: seq<string>, i: nat)
    requires i <= |ts|
    ensures 2 * |PairsBefore(ts, i)| == i * (2 * |ts| - i - 1)
  {
    if i > 0 {
      PairsBeforeCount(ts, i - 1);
      var n := |ts|;
      var before := |PairsBefore(ts, i - 1)|;
      assert |PairsBefore(ts, i)| == before + (n - i);
      assert 2 * before == (i - 1) * (2 * n - i);
      Distribute(i, 2 * n - i);
    }
  }

  /** `(i - 1) * m + (m - i)` regrouped as `i * (m - 1)`. */
  lemma Distribute(i: int, m: int)
    ensures (i - 1) * m + (m - i) == i * (m - 1)
  {
  }

  /** Every pair `ts[a]+ts[b]` with `a < b` and `a < i` is made before position `i`. */
  lemma PairsBeforeComplete(ts: seq<string>, i: nat)
    requires i <= |ts|
    ensures forall a, b :: 0 <= a < b < |ts| && a < i ==> PairKey(ts[a], ts[b]) in PairsBefore(ts, i)
  {
    forall a, b | 0 <= a < b < |ts| && a < i
      ensures PairKey(ts[a], ts[b]) in PairsBefore(ts, i)
    {
      PairMade(ts, i, a, b);
    }
  }

  /** The pair `ts[a]+ts[b]` is made at position `a`, hence before every later position. */
  lemma {:induction false} PairMade(ts: seq<string>, i: nat, a: nat, b: nat)
    requires i <= |ts| && a < b < |ts| && a < i
    ensures PairKey(ts[a], ts[b]) in PairsBefore(ts, i)
    decreases i
  {
    var p := PairsBefore(ts, i - 1);
    var r := RowPairs(ts, i - 1);
    assert PairsBefore(ts, i) == p + r;
    if a == i - 1 {
      assert r[b - i] == PairKey(ts[a], ts[b]);
      assert r[b - i] == (p + r)[|p| + b - i];
    } else {
      PairMade(ts, i - 1, a, b);
      var k :| 0 <= k < |p| && p[k] == PairKey(ts[a], ts[b]);
      assert (p + r)[k] == p[k];
    }
  }

  /** Nothing but such pairs is made. */
  lemma {:induction false} PairsBeforeSound(ts: seq<string>, i: nat)
    requires i <= |ts|
    ensures forall key :: key in PairsBefore(ts, i) ==> exists a, b :: 0 <= a < b < |ts| && a < i && key == PairKey(ts[a], ts[b])
  {
    if i > 0 {
      PairsBeforeSound(ts, i - 1);
      var r := RowPairs(ts, i - 1);
      forall key | key in PairsBefore(ts, i)
        ensures exists a, b :: 0 <= a < b < |ts| && a < i && key == PairKey(ts[a], ts[b])
      {
        if key in r {
          var k :| 0 <= k < |r| && r[k] == key;
          assert key == PairKey(ts[i - 1], ts[i + k]);
        }
      }
    }
  }

  /** A row with `m` distinct tasks makes `m(m-1)/2` pair keys and one full key. */
  lemma ComboCount(ts: seq<string>)
    requires |ts| > 0
    ensures 2 * |ComboKeys(ts)| == |ts| * (|ts| - 1) + 2
  {
    PairsBeforeCount(ts, |ts|);
  }

  /** With exactly two tasks the pair key is the full key, so that key is counted twice per row. */
  lemma TwoTasksCountedTwice(a: string, b: string)
    ensures ComboKeys([a, b]) == [PairKey(a, b), PairKey(a, b)]
    ensures multiset(ComboKeys([a, b]))[PairKey(a, b)] == 2
  {
    var ts := [a, b];
    assert RowPairs(ts, 0) == [PairKey(a, b)];
    assert RowPairs(ts, 1) == [];
    assert PairsBefore(ts, 1) == [] + RowPairs(ts, 0);
    assert PairsBefore(ts, 2) == PairsBefore(ts, 1) + RowPairs(ts, 1);
    assert Join(ts, "+") == PairKey(a, b) by {
      assert ts[1..] == [b];
    }
  }

  /** A row counts when it has a delta and at least one task. */
  predicate Qualifies(r: TrainingRow) {
    r.delta.delta.Some? && r.tasks != []
  }

  /** What one row adds to the single-task and combination counters. */
  function RecipeStep(acc: (Dict<string, Stat>, Dict<string, Stat>), r: TrainingRow): (Dict<string, Stat>, Dict<string, Stat>) {
    if !Qualifies(r) then acc
    else
      var x := r.delta.delta.value;
      var t := TrendOf(x, RecipeEps);
      (BumpKeys(acc.0, r.tasks, t, x), BumpKeys(acc.1, ComboKeys(SortedSet(r.tasks)), t, x))
  }

  /** `(single_task_stats, combo_stats)` after the counting loop over `rows`. */
  function Counts(rows: seq<TrainingRow>): (Dict<string, Stat>, Dict<string, Stat>) {
    if |rows| == 0 then ([], []) else RecipeStep(Counts(rows[..|rows| - 1]), rows[|rows| - 1])
  }

  /** The rows that count, in order. */
  function Qualifying(rows: seq<TrainingRow>): seq<TrainingRow> {
    if |rows| == 0 then []
    else Qualifying(rows[..|rows| - 1]) + (if Qualifies(rows[|rows| - 1]) then [rows[|rows| - 1]] else [])
  }

  /** Rows without a delta or without tasks contribute nothing. */
  lemma {:induction false} CountsQualifying(rows: seq<TrainingRow>)
    ensures Counts(rows) == Counts(Qualifying(rows))
  {
    if |rows| > 0 {
      var init := rows[..|rows| - 1];
      var last := rows[|rows| - 1];
      CountsQualifying(init);
      if Qualifies(last) {
        var q := Qualifying(init) + [last];
        assert Qualifying(rows) == q;
        assert q[..|q| - 1] == Qualifying(init);
        assert Counts(q) == RecipeStep(Counts(Qualifying(init)), last);
      } else {
        assert Qualifying(rows) == Qualifying(init) + [] == Qualifying(init);
        assert Counts(rows) == Counts(init);
      }
    }
  }

  /** How often a task occurs across the counting rows. */
  function TaskOccurrences(rows: seq<TrainingRow>, k: string): nat {
    if |rows| == 0 then 0
    else TaskOccurrences(rows[..|rows| - 1], k) + (if Qualifies(rows[|rows| - 1]) then multiset(rows[|rows| - 1].tasks)[k] else 0)
  }

  /** How often a combination key is made across the counting rows. */
  function ComboOccurrences(rows: seq<TrainingRow>, k: string): nat {
    if |rows| == 0 then 0
    else
      var last := rows[|rows| - 1];
      ComboOccurrences(rows[..|rows| - 1], k) + (if Qualifies(last) then multiset(ComboKeys(SortedSet(last.tasks)))[k] else 0)
  }

  /**
   * Every counter is balanced (`count == up + down + stable`, one delta per
   * count), and a key's count is the number of times the rows name it.
   */
  lemma {:induction false} CountsSpec(rows: seq<TrainingRow>, k: string)
    ensures AllBalanced(Counts(rows).0) && AllBalanced(Counts(rows).1)
    ensures GetOr(Counts(rows).0, k, Zero).count == TaskOccurrences(rows, k)
    ensures GetOr(Counts(rows).1, k, Zero).count == ComboOccurrences(rows, k)
  {
    if |rows| > 0 {
      var init := rows[..|rows| - 1];
      var r := rows[|rows| - 1];
      CountsSpec(init, k);
      if Qualifies(r) {
        var x := r.delta.delta.value;
        var t := TrendOf(x, RecipeEps);
        BumpKeysBalanced(Counts(init).0, r.tasks, t, x);
        BumpKeysBalanced(Counts(init).1, ComboKeys(SortedSet(r.tasks)), t, x);
        BumpKeysCount(Counts(init).0, r.tasks, t, x, k);
        BumpKeysCount(Counts(init).1, ComboKeys(SortedSet(r.tasks)), t, x, k);
      }
    }
  }

  // ---------------------------------------------------------------------
  // calc_stats and the recipe summary
  // ---------------------------------------------------------------------

  /** One line of a statistics table; rounding and `up_rate` are not modelled. */
  datatype StatLine = StatLine(name: string, avgDelta: real, count: nat, upCount: nat, downCount: nat, stableCount: nat)

  function Sum(xs: seq<real>): real {
    if |xs| == 0 then 0.0 else Sum(xs[..|xs| - 1]) + xs[|xs| - 1]
  }

  function LineOf(name: string, st: Stat): StatLine
    requires |st.deltas| > 0
  {
    StatLine(name, Sum(st.deltas) / (|st.deltas| as real), st.count, st.up, st.down, st.stable)
  }

  /** The lines of every counter that has deltas, in key order. */
  function Lines(d: Dict<string, Stat>): (r: seq<StatLine>)
    ensures |r| <= |d|
  {
    if |d| == 0 then []
    else
      var e := d[|d| - 1];
      Lines(d[..|d| - 1]) + (if |e.1.deltas| > 0 then [LineOf(e.0, e.1)] else [])
  }

  function AvgOf(l: StatLine): real { l.avgDelta }

  predicate Greater(a: real, b: real) { a > b }

  /** Lines in descending order of average delta. */
  predicate Descending(ls: seq<StatLine>) {
    forall i, j :: 0 <= i < j < |ls| ==> ls[i].avgDelta >= ls[j].avgDelta
  }

  lemma GreaterStrict()
    ensures Sorting.StrictOrder(Greater)
  {
  }

  /** `results.sort(key=lambda x: x["avg_delta"], reverse=True)`. */
  function Ranked(d: Dict<string, Stat>): seq<StatLine> {
    Sorting.SortBy(Lines(d), AvgOf, Greater)
  }

  /** When every counter has seen a row, there is one line per key, named by it, with the key's counts. */
  lemma {:induction false} LinesOfBalanced(d: Dict<string, Stat>)
    requires AllBalanced(d)
    ensures |Lines(d)| == |d|
    ensures forall i :: 0 <= i < |d| ==>
      Lines(d)[i].name == d[i].0 && Lines(d)[i].count == d[i].1.count
      && Lines(d)[i].count == Lines(d)[i].upCount + Lines(d)[i].downCount + Lines(d)[i].stableCount
  {
    if |d| > 0 {
      LinesOfBalanced(d[..|d| - 1]);
    }
  }

  /** The ranked lines are the lines, in descending order of average delta. */
  lemma RankedSpec(d: Dict<string, Stat>)
    ensures multiset(Ranked(d)) == multiset(Lines(d))
    ensures Descending(Ranked(d))
  {
    GreaterStrict();
    Sorting.SortBySorted(Lines(d), AvgOf, Greater);
    forall i, j | 0 <= i < j < |Ranked(d)|
      ensures Ranked(d)[i].avgDelta >= Ranked(d)[j].avgDelta
    {
      assert !Greater(AvgOf(Ranked(d)[j]), AvgOf(Ranked(d)[i]));
    }
  }

  /** `xs[:n]`. */
  function Take<T>(xs: seq<T>, n: nat): (r: seq<T>)
    ensures |r| == if |xs| < n then |xs| else n
  {
    if |xs| < n then xs else xs[..n]
  }

  /** The recipe statistics; the generation time and the float averages of the summary are not modelled. */
  datatype RecipeStats = RecipeStats(
    rowCount: nat,
    single: seq<StatLine>,
    combos: seq<StatLine>,
    top: seq<StatLine>,
    totalSingle: nat,
    totalCombos: nat)

  /** The statistics made from the two counter dicts of `n` rows. */
  function Summarise(n: nat, single: Dict<string, Stat>, combo: Dict<string, Stat>): RecipeStats {
    var singles := Ranked(single);
    var combos := Ranked(combo);
    RecipeStats(n, singles, Take(combos, 50), Take(combos, 20), |singles|, |combos|)
  }

  /** `build_recipe_stats(rows)`: nothing (`{}`) for no rows. */
  function Recipe(rows: seq<TrainingRow>): Option<RecipeStats> {
    if |rows| == 0 then None
    else Some(Summarise(|rows|, Counts(rows).0, Counts(rows).1))
  }

  /** The first 20 of a list are the first entries of its first 50, and both keep its order. */
  lemma TakeTopSpec(ls: seq<StatLine>)
    requires Descending(ls)
    ensures Take(ls, 20) == Take(ls, 50)[..|Take(ls, 20)|]
    ensures Descending(Take(ls, 20)) && Descending(Take(ls, 50))
  {
  }

  lemma SummariseSpec(n: nat, single: Dict<string, Stat>, combo: Dict<string, Stat>)
    requires AllBalanced(single) && AllBalanced(combo)
    ensures var r := Summarise(n, single, combo);
      r.totalSingle == |single| && r.totalCombos == |combo|
      && |r.top| == (if r.totalCombos < 20 then r.totalCombos else 20)
      && |r.combos| == (if r.totalCombos < 50 then r.totalCombos else 50)
      && r.top == r.combos[..|r.top|]
      && Descending(r.combos) && Descending(r.single)
  {
    LinesOfBalanced(single);
    LinesOfBalanced(combo);
    RankedSpec(single);
    RankedSpec(combo);
    TakeTopSpec(Ranked(combo));
  }

  /**
   * The recipe summary: none exactly for no rows; otherwise one line per
   * task and per combination that the rows name, the top recipes are the
   * first 20 combinations and the kept combinations the first 50, all in
   * descending order of average delta.
   */
  lemma RecipeSpec(rows: seq<TrainingRow>)
    ensures Recipe(rows).None? <==> |rows| == 0
    ensures Recipe(rows).Some? ==>
      var r := Recipe(rows).value;
      r.totalSingle == |Counts(rows).0| && r.totalCombos == |Counts(rows).1|
      && |r.top| == (if r.totalCombos < 20 then r.totalCombos else 20)
      && |r.combos| == (if r.totalCombos < 50 then r.totalCombos else 50)
      && r.top == r.combos[..|r.top|]
      && Descending(r.combos) && Descending(r.single)
  {
    if |rows| > 0 {
      CountsSpec(rows, "");
      SummariseSpec(|rows|, Counts(rows).0, Counts(rows).1);
    }
  }

  /** `calc_stats`: one line per counter with deltas, then sorted by average delta, highest first. */
  method CalcStats(d: Dict<string, Stat>) returns (results: seq<StatLine>)
    ensures results == Ranked(d)
  {
    results := [];
    for i := 0 to |d|
      invariant results == Lines(d[..i])
    {
      assert d[..i + 1][..i] == d[..i];
      var (name, data) := d[i];
      if |data.deltas| == 0 {
        continue;
      }
      results := results + [LineOf(name, data)];
    }
    assert d[..|d|] == d;
    results := Sorting.SortBy(results, AvgOf, Greater);
  }

  // ---------------------------------------------------------------------
  // TrainingDatasetBuilder
  // ---------------------------------------------------------------------

  class TrainingDatasetBuilder {
    var trainingRows: seq<TrainingRow>
    var recipeStats: Option<RecipeStats>

    constructor ()
      ensures trainingRows == [] && recipeStats == None
    {
      trainingRows := [];
      recipeStats := None;
    }

    /**
     * `build_training_rows`: groups the snapshots by owner, walks each
     * owner's snapshots in date order and adds one row per new
     * business-and-date key.
     */
    method BuildTrainingRows(snaps: seq<Snapshot>, src: Sources) returns (rows: seq<TrainingRow>)
      modifies this
      ensures rows == TrainingRows(snaps, src)
      ensures trainingRows == rows && recipeStats == old(recipeStats)
    {
      rows := CollectRows(snaps, src);
      trainingRows := rows;
    }

    /**
     * `build_recipe_stats(training_rows)`: with no rows given it uses the
     * stored ones; no rows give `{}` and leave the stored statistics alone.
     */
    method BuildRecipeStats(given: Option<seq<TrainingRow>>) returns (stats: Option<RecipeStats>)
      modifies this
      ensures stats == Recipe(if given.Some? then given.value else old(trainingRows))
      ensures recipeStats == (if stats.Some? then stats else old(recipeStats))
      ensures trainingRows == old(trainingRows)
    {
      var rows := if given.Some? then given.value else trainingRows;
      if |rows| == 0 {
        return None;
      }
      var single, combo := CountRows(rows);
      var singleResults := CalcStats(single);
      var comboResults := CalcStats(combo);
      var top := if |comboResults| >= 20 then comboResults[..20] else comboResults;
      stats := Some(RecipeStats(|rows|, singleResults, Take(comboResults, 50), top, |singleResults|, |comboResults|));
      recipeStats := stats;
    }
  }

  /** The loops of `build_training_rows`: every owner in first-seen order, then its snapshots in date order. */
  method CollectRows(snaps: seq<Snapshot>, src: Sources) returns (rows: seq<TrainingRow>)
    ensures rows == TrainingRows(snaps, src)
  {
    var groups := GroupByOwner(snaps);
    ghost var owners := Owners(snaps);
    rows := [];
    var processed: set<string> := {};
    for g := 0 to |groups|
      invariant rows == EmitOwners(snaps, owners[..g], src)
      invariant processed == set k | k in RowKeys(rows)
    {
      var biz := groups[g].0;
      assert biz == Keys(groups)[g] == owners[g];
      var start := StartDay(src.guarantees, biz);
      assert groups[g].1 == Group(snaps, biz);
      var sorted := ByDate(groups[g].1);
      rows, processed := BusinessRows(rows, processed, biz, sorted, start, src);
      EmitOwnersSnoc(snaps, owners, g, src);
    }
    assert owners[..|groups|] == owners;
  }

  /** The inner loop of `build_training_rows` over one business's snapshots in date order. */
  method BusinessRows(rows0: seq<TrainingRow>, processed0: set<string>, biz: string, sorted: seq<Snapshot>, start: Option<int>, src: Sources)
    returns (rows: seq<TrainingRow>, processed: set<string>)
    requires processed0 == set k | k in RowKeys(rows0)
    ensures rows == EmitGroup(rows0, biz, sorted, BizDelta(sorted, start), src)
    ensures processed == set k | k in RowKeys(rows)
  {
    rows, processed := rows0, processed0;
    for j := 0 to |sorted|
      invariant rows == EmitGroup(rows0, biz, sorted[..j], BizDelta(sorted, start), src)
      invariant processed == set k | k in RowKeys(rows)
    {
      assert sorted[..j + 1][..j] == sorted[..j];
      var delta := NoDelta;
      if start.Some? {
        delta := N2Delta(sorted, start.value);
      }
      rows, processed := SnapshotRow(rows, processed, biz, sorted[j], delta, src);
    }
    assert sorted[..|sorted|] == sorted;
  }

  /** One pass of that loop: the row of a usable, not yet seen snapshot, with its key marked as processed. */
  method SnapshotRow(rows0: seq<TrainingRow>, processed0: set<string>, biz: string, snap: Snapshot, delta: Delta, src: Sources)
    returns (rows: seq<TrainingRow>, processed: set<string>)
    requires processed0 == set k | k in RowKeys(rows0)
    ensures rows == Emit(rows0, biz, snap, delta, src)
    ensures processed == set k | k in RowKeys(rows)
  {
    rows, processed := rows0, processed0;
    if snap.date == "" || FromIsoFormat(snap.date).None? {
      return;
    }
    var key := biz + "|" + snap.date;
    if key in processed {
      return;
    }
    processed := processed + {key};
    var row := MakeRow(biz, snap, delta, src);
    RowKeysSnoc(rows, row);
    rows := rows + [row];
  }

  /** The counting loop of `build_recipe_stats`: skip rows without a delta or tasks, count the rest. */
  method CountRows(rows: seq<TrainingRow>) returns (single: Dict<string, Stat>, combo: Dict<string, Stat>)
    ensures (single, combo) == Counts(rows)
  {
    single, combo := [], [];
    for r := 0 to |rows|
      invariant (single, combo) == Counts(rows[..r])
    {
      assert rows[..r + 1][..r] == rows[..r];
      var row := rows[r];
      if row.delta.delta.None? || row.tasks == [] {
        continue;
      }
      var x := row.delta.delta.value;
      var trend := TrendOf(x, RecipeEps);
      single := CountTasks(single, row.tasks, trend, x);
      combo := CountCombos(combo, SortedSet(row.tasks), trend, x);
    }
    assert rows[..|rows|] == rows;
  }

  /** The single-task loop of one row. */
  method CountTasks(single: Dict<string, Stat>, tasks: seq<string>, trend: Trend, x: real) returns (out: Dict<string, Stat>)
    ensures out == BumpKeys(single, tasks, trend, x)
  {
    out := single;
    for k := 0 to |tasks|
      invariant out == BumpKeys(single, tasks[..k], trend, x)
    {
      assert tasks[..k + 1][..k] == tasks[..k];
      out := BumpKey(out, tasks[k], trend, x);
    }
    assert tasks[..|tasks|] == tasks;
  }

  /** The inner pair loop for position `i`: `ts[i]` with each later task. */
  method CountPairs(combo: Dict<string, Stat>, ts: seq<string>, i: nat, trend: Trend, x: real) returns (out: Dict<string, Stat>)
    requires i < |ts|
    ensures out == BumpKeys(combo, RowPairs(ts, i), trend, x)
  {
    out := combo;
    ghost var p := RowPairs(ts, i);
    for j := i + 1 to |ts|
      invariant out == BumpKeys(combo, p[..j - i - 1], trend, x)
    {
      assert p[..j - i][..j - i - 1] == p[..j - i - 1];
      assert p[j - i - 1] == ts[i] + "+" + ts[j];
      out := BumpKey(out, ts[i] + "+" + ts[j], trend, x);
    }
    assert p[..|ts| - i - 1] == p;
  }

  /** The outer pair loop: every pair `i < j` of the sorted distinct tasks. */
  method CountAllPairs(combo: Dict<string, Stat>, ts: seq<string>, trend: Trend, x: real) returns (out: Dict<string, Stat>)
    ensures out == BumpKeys(combo, PairsBefore(ts, |ts|), trend, x)
  {
    out := combo;
    for i := 0 to |ts|
      invariant out == BumpKeys(combo, PairsBefore(ts, i), trend, x)
    {
      BumpKeysAppend(combo, PairsBefore(ts, i), RowPairs(ts, i), trend, x);
      out := CountPairs(out, ts, i, trend, x);
    }
  }

  /** The combination loops of one row: the pairs when there are two or more tasks, then the full set. */
  method CountCombos(combo: Dict<string, Stat>, ts: seq<string>, trend: Trend, x: real) returns (out: Dict<string, Stat>)
    ensures out == BumpKeys(combo, ComboKeys(ts), trend, x)
  {
    out := combo;
    if |ts| >= 2 {
      out := CountAllPairs(out, ts, trend, x);
    }
    ghost var pairs := if |ts| >= 2 then PairsBefore(ts, |ts|) else [];
    if |ts| > 0 {
      var full := Join(ts, "+");
      BumpKeysAppend(combo, pairs, [full], trend, x);
      assert [full][..0] == [];
      out := BumpKey(out, full, trend, x);
    }
    assert ComboKeys(ts) == pairs + (if |ts| > 0 then [Join(ts, "+")] else []);
  }
}
