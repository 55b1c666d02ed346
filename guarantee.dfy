/**
 * The monthly-guarantee item store: guarantee contracts kept as field
 * dictionaries, created with defaults, filtered, searched, updated in place,
 * counted per company, product and month, and upserted from the two
 * companies' sheets by business name, contract date and company.
 */
module Guarantee {
  import opened Common
  import opened Dicts

  // ---------------------------------------------------------------------
  // Items
  // ---------------------------------------------------------------------

  /** A field value: text, or the `daily_ranks` dictionary from day number text to rank. */
  datatype Value = Str(s: string) | Ranks(ranks: Dict<string, int>)

  /** One guarantee item, a dictionary of fields. */
  type Item = map<string, Value>

  /** `item.get(key, default)` for a text field. */
  function TextOr(x: Item, key: string, default: string): string {
    if key in x && x[key].Str? then x[key].s else default
  }

  /** `item.setdefault(key, v)`. */
  function SetDefault(x: Item, key: string, v: Value): Item {
    if key in x then x else x[key := v]
  }

  /** The fields `create_item` fills in when they are missing, with their defaults. */
  const DefaultFields: Dict<string, Value> := [
    ("type", Str("신규")),
    ("status", Str("세팅대기")),
    ("product", Str("플레이스")),
    ("manager", Str("김찬영")),
    ("daily_ranks", Ranks([]))]

  /** `setdefault` for each field in turn. */
  function WithDefaults(x: Item, ds: Dict<string, Value>): Item
    decreases |ds|
  {
    if |ds| == 0 then x else WithDefaults(SetDefault(x, ds[0].0, ds[0].1), ds[1..])
  }

  /** A field present stays as it is; a missing field takes the first default listed for it, if any. */
  lemma {:induction false} WithDefaultsSpec(x: Item, ds: Dict<string, Value>, k: string)
    ensures k in x ==> k in WithDefaults(x, ds) && WithDefaults(x, ds)[k] == x[k]
    ensures k !in x ==> (k in WithDefaults(x, ds) <==> Get(ds, k).Some?)
    ensures k !in x && Get(ds, k).Some? ==> k in WithDefaults(x, ds) && WithDefaults(x, ds)[k] == Get(ds, k).value
    decreases |ds|
  {
    if |ds| > 0 {
      GetCons(ds, k);
      WithDefaultsSpec(SetDefault(x, ds[0].0, ds[0].1), ds[1..], k);
    }
  }

  /** The item `create_item` stores: the given fields with the id and both timestamps set, and the defaults filled in. */
  function NewItem(item: Item, id: string, now: string): Item {
    WithDefaults(item["id" := Str(id)]["created_at" := Str(now)]["updated_at" := Str(now)], DefaultFields)
  }

  /** A created item carries the new id and the creation time as both timestamps. */
  lemma NewItemStamps(item: Item, id: string, now: string)
    ensures var r := NewItem(item, id, now);
      && "id" in r && "created_at" in r && "updated_at" in r
      && r["id"] == Str(id) && r["created_at"] == Str(now) && r["updated_at"] == Str(now)
  {
    var x := item["id" := Str(id)]["created_at" := Str(now)]["updated_at" := Str(now)];
    WithDefaultsSpec(x, DefaultFields, "id");
    WithDefaultsSpec(x, DefaultFields, "created_at");
    WithDefaultsSpec(x, DefaultFields, "updated_at");
  }

  /** Every other given field is kept, a missing default field takes its default, and no other field appears. */
  lemma NewItemFields(item: Item, id: string, now: string, k: string)
    requires k != "id" && k != "created_at" && k != "updated_at"
    ensures var r := NewItem(item, id, now);
      && (k in item ==> k in r && r[k] == item[k])
      && (k !in item && Get(DefaultFields, k).Some? ==> k in r && r[k] == Get(DefaultFields, k).value)
      && (k in r ==> k in item || Get(DefaultFields, k).Some?)
  {
    var x := item["id" := Str(id)]["created_at" := Str(now)]["updated_at" := Str(now)];
    WithDefaultsSpec(x, DefaultFields, k);
  }

  /** The default of `status` is 세팅대기, so a new item is active unless it says otherwise. */
  lemma DefaultStatus()
    ensures Get(DefaultFields, "status") == Some(Str("세팅대기"))
  {
    GetCons(DefaultFields, "status");
    GetCons(DefaultFields[1..], "status");
  }

  /** `item.update(updates)` without `id` and `created_at`, then the update time. */
  function Merge(x: Item, updates: Item, now: string): Item {
    (x + (updates - {"id", "created_at"}))["updated_at" := Str(now)]
  }

  /** An update never touches the id or the creation time, and overwrites every other given field. */
  lemma MergeSpec(x: Item, updates: Item, now: string, k: string)
    ensures var r := Merge(x, updates, now);
      && (k == "id" || k == "created_at" ==> (k in r <==> k in x) && (k in x ==> r[k] == x[k]))
      && (k != "id" && k != "created_at" && k != "updated_at" && k in updates ==> k in r && r[k] == updates[k])
      && (k != "updated_at" && k !in updates ==> (k in r <==> k in x) && (k in x ==> r[k] == x[k]))
      && r["updated_at"] == Str(now)
  {
  }

  /** The index of the first item whose id is `id`. */
  function IndexOfId(items: seq<Item>, id: string): (r: Option<nat>)
    ensures r.Some? ==> r.value < |items| && IdField(items[r.value]) == Some(Str(id)) && forall j :: 0 <= j < r.value ==> IdField(items[j]) != Some(Str(id))
    ensures r.None? <==> forall j :: 0 <= j < |items| ==> IdField(items[j]) != Some(Str(id))
  {
    if |items| == 0 then None
    else if IdField(items[0]) == Some(Str(id)) then Some(0)
    else match IndexOfId(items[1..], id)
      case None => None
      case Some(k) => assert items[k + 1] == items[1..][k]; Some(k + 1)
  }

  /** `item.get("id")`. */
  function IdField(x: Item): Option<Value> {
    if "id" in x then Some(x["id"]) else None
  }

  /** The items after `update_item(id, updates)`. */
  function UpdatedById(items: seq<Item>, id: string, updates: Item, now: string): (r: seq<Item>)
    ensures |r| == |items|
  {
    match IndexOfId(items, id)
    case None => items
    case Some(i) => items[i := Merge(items[i], updates, now)]
  }

  /** The `daily_ranks` dictionary of an item, empty when it has none. */
  function RanksOf(x: Item): Dict<string, int> {
    if "daily_ranks" in x && x["daily_ranks"].Ranks? then x["daily_ranks"].ranks else []
  }

  // ---------------------------------------------------------------------
  // get_items
  // ---------------------------------------------------------------------

  /** The filters `get_items` knows; `None` is a filter that is not given. */
  datatype Filters = Filters(
    company: Option<string>,
    status: Option<string>,
    product: Option<string>,
    dateFrom: Option<string>,
    dateTo: Option<string>,
    activeOnly: bool)

  /** The six filter steps of `get_items`, in the order they run. */
  datatype Stage = CompanyStage | StatusStage | ProductStage | DateFromStage | DateToStage | ActiveStage

  const Stages: seq<Stage> := [CompanyStage, StatusStage, ProductStage, DateFromStage, DateToStage, ActiveStage]

  predicate IsActiveStatus(x: Item) {
    "status" in x && (x["status"] == Str("진행중") || x["status"] == Str("세팅대기"))
  }

  /** Whether an item passes one filter step; an absent filter passes everything. */
  predicate Passes(st: Stage, f: Filters, x: Item) {
    match st
    case CompanyStage => f.company.None? || ("company" in x && x["company"] == Str(f.company.value))
    case StatusStage => f.status.None? || ("status" in x && x["status"] == Str(f.status.value))
    case ProductStage => f.product.None? || ("product" in x && x["product"] == Str(f.product.value))
    case DateFromStage => f.dateFrom.None? || !StrLess(TextOr(x, "contract_date", ""), f.dateFrom.value)
    case DateToStage => f.dateTo.None? || !StrLess(f.dateTo.value, TextOr(x, "contract_date", ""))
    case ActiveStage => !f.activeOnly || IsActiveStatus(x)
  }

  /** One comprehension `[i for i in filtered if ...]`. */
  function Where(items: seq<Item>, st: Stage, f: Filters): (r: seq<Item>)
    ensures |r| <= |items|
  {
    if |items| == 0 then [] else (if Passes(st, f, items[0]) then [items[0]] else []) + Where(items[1..], st, f)
  }

  /** The steps run one after the other. */
  function Pipeline(items: seq<Item>, f: Filters, stages: seq<Stage>): seq<Item>
    decreases |stages|
  {
    if |stages| == 0 then items else Pipeline(Where(items, stages[0], f), f, stages[1..])
  }

  /** `get_items(filters)`. */
  function GetItems(items: seq<Item>, f: Filters): seq<Item> {
    Pipeline(items, f, Stages)
  }

  /** Whether an item passes every step of `stages`. */
  predicate PassesAll(stages: seq<Stage>, f: Filters, x: Item)
    decreases |stages|
  {
    |stages| == 0 || (Passes(stages[0], f, x) && PassesAll(stages[1..], f, x))
  }

  /** A single pass keeping, in order, the items that pass every step. */
  function KeepAll(items: seq<Item>, f: Filters, stages: seq<Stage>): seq<Item> {
    if |items| == 0 then [] else (if PassesAll(stages, f, items[0]) then [items[0]] else []) + KeepAll(items[1..], f, stages)
  }

  lemma {:induction false} KeepAllWhere(items: seq<Item>, f: Filters, st: Stage, rest: seq<Stage>)
    ensures KeepAll(Where(items, st, f), f, rest) == KeepAll(items, f, [st] + rest)
  {
    if |items| > 0 {
      var x, tail := items[0], items[1..];
      KeepAllWhere(tail, f, st, rest);
      assert ([st] + rest)[1..] == rest;
      var w := Where(tail, st, f);
      if Passes(st, f, x) {
        assert Where(items, st, f) == [x] + w;
        assert ([x] + w)[0] == x && ([x] + w)[1..] == w;
      } else {
        assert Where(items, st, f) == w;
      }
    }
  }

  lemma {:induction false} KeepAllNone(items: seq<Item>, f: Filters)
    ensures KeepAll(items, f, []) == items
  {
    if |items| > 0 {
      KeepAllNone(items[1..], f);
      assert items == [items[0]] + items[1..];
    }
  }

  lemma {:induction false} PipelineKeepAll(items: seq<Item>, f: Filters, stages: seq<Stage>)
    ensures Pipeline(items, f, stages) == KeepAll(items, f, stages)
    decreases |stages|
  {
    if |stages| == 0 {
      KeepAllNone(items, f);
    } else {
      PipelineKeepAll(Where(items, stages[0], f), f, stages[1..]);
      KeepAllWhere(items, f, stages[0], stages[1..]);
      assert [stages[0]] + stages[1..] == stages;
    }
  }

  lemma {:induction false} KeepAllSpec(items: seq<Item>, f: Filters, stages: seq<Stage>, x: Item)
    ensures x in KeepAll(items, f, stages) <==> x in items && PassesAll(stages, f, x)
  {
    if |items| > 0 {
      KeepAllSpec(items[1..], f, stages, x);
      assert items == [items[0]] + items[1..];
    }
  }

  /**
   * The filter steps run one after the other keep, in their order, exactly
   * the items that pass all of them; with no filter given every item is kept.
   */
  lemma GetItemsSpec(items: seq<Item>, f: Filters, x: Item)
    ensures GetItems(items, f) == KeepAll(items, f, Stages)
    ensures x in GetItems(items, f) <==> x in items && PassesAll(Stages, f, x)
    ensures f == Filters(None, None, None, None, None, false) ==> GetItems(items, f) == items
  {
    PipelineKeepAll(items, f, Stages);
    KeepAllSpec(items, f, Stages, x);
    if f == Filters(None, None, None, None, None, false) {
      KeepAllEvery(items, f, Stages);
    }
  }

  lemma {:induction false} KeepAllEvery(items: seq<Item>, f: Filters, stages: seq<Stage>)
    requires forall x :: PassesAll(stages, f, x)
    ensures KeepAll(items, f, stages) == items
  {
    if |items| > 0 {
      KeepAllEvery(items[1..], f, stages);
      assert items == [items[0]] + items[1..];
    }
  }

  // ---------------------------------------------------------------------
  // search
  // ---------------------------------------------------------------------

  /** `business_name`, `main_keyword`, `agency`, `memo` and `id`, each `""` when missing. */
  function Searchable(x: Item): seq<string> {
    [TextOr(x, "business_name", ""), TextOr(x, "main_keyword", ""), TextOr(x, "agency", ""), TextOr(x, "memo", ""), TextOr(x, "id", "")]
  }

  predicate Hit(x: Item, queryLower: string) {
    exists i :: 0 <= i < 5 && Contains(Lower(Searchable(x)[i]), queryLower)
  }

  function SearchLoop(items: seq<Item>, queryLower: string): (r: seq<Item>)
    ensures |r| <= |items|
  {
    if |items| == 0 then [] else (if Hit(items[0], queryLower) then [items[0]] else []) + SearchLoop(items[1..], queryLower)
  }

  /** `search(query)`: nothing for an empty query, else the items where a searchable field holds the query, case-insensitively. */
  function Search(items: seq<Item>, query: string): seq<Item> {
    if query == "" then [] else SearchLoop(items, Lower(query))
  }

  /** The search keeps, in order, exactly the items one of whose fields contains the query ignoring case, and ignores the query's case. */
  lemma {:induction false} SearchSpec(items: seq<Item>, query: string, x: Item)
    ensures x in Search(items, query) <==> query != "" && x in items && Hit(x, Lower(query))
    ensures Search(items, Lower(query)) == Search(items, query)
  {
    LowerIdempotent(query);
    if query != "" {
      SearchLoopSpec(items, Lower(query), x);
    }
  }

  lemma {:induction false} SearchLoopSpec(items: seq<Item>, q: string, x: Item)
    ensures x in SearchLoop(items, q) <==> x in items && Hit(x, q)
  {
    if |items| > 0 {
      SearchLoopSpec(items[1..], q, x);
      assert items == [items[0]] + items[1..];
    }
  }

  // ---------------------------------------------------------------------
  // get_statistics
  // ---------------------------------------------------------------------

  /**
   * A dictionary built by one loop over the items: each item with a key
   * has `bump` applied to its key's entry, which starts from `zero`.
   */
  function Grouped<S>(items: seq<Item>, key: Item -> Option<string>, bump: (S, Item) -> S, zero: S): Dict<string, S> {
    if |items| == 0 then []
    else
      var m := Grouped(items[..|items| - 1], key, bump, zero);
      var x := items[|items| - 1];
      match key(x)
      case None => m
      case Some(k) => Set(m, k, bump(GetOr(m, k, zero), x))
  }

  /** Whether some item has key `k`. */
  predicate Seen(items: seq<Item>, key: Item -> Option<string>, k: string) {
    |items| > 0 && (key(items[|items| - 1]) == Some(k) || Seen(items[..|items| - 1], key, k))
  }

  /** `bump` applied, from `zero`, for each item with key `k` in turn. */
  function Accumulated<S>(items: seq<Item>, key: Item -> Option<string>, bump: (S, Item) -> S, zero: S, k: string): S {
    if |items| == 0 then zero
    else
      var s := Accumulated(items[..|items| - 1], key, bump, zero, k);
      if key(items[|items| - 1]) == Some(k) then bump(s, items[|items| - 1]) else s
  }

  /** Each key seen reads the accumulation over exactly the items with that key; no other key is present. */
  lemma {:induction false} GroupedSpec<S>(items: seq<Item>, key: Item -> Option<string>, bump: (S, Item) -> S, zero: S, k: string)
    ensures Get(Grouped(items, key, bump, zero), k) == if Seen(items, key, k) then Some(Accumulated(items, key, bump, zero, k)) else None
  {
    if |items| > 0 {
      var init, x := items[..|items| - 1], items[|items| - 1];
      GroupedSpec(init, key, bump, zero, k);
      var m := Grouped(init, key, bump, zero);
      match key(x)
      case None =>
      case Some(j) =>
        GroupedSpec(init, key, bump, zero, j);
        AccumulatedUnseen(init, key, bump, zero, j);
        GetSet(m, j, bump(GetOr(m, j, zero), x), k);
    }
  }

  /** With no item of key `k`, nothing is accumulated. */
  lemma {:induction false} AccumulatedUnseen<S>(items: seq<Item>, key: Item -> Option<string>, bump: (S, Item) -> S, zero: S, k: string)
    ensures !Seen(items, key, k) ==> Accumulated(items, key, bump, zero, k) == zero
  {
    if |items| > 0 {
      AccumulatedUnseen(items[..|items| - 1], key, bump, zero, k);
    }
  }

  /** The loop that builds a grouped dictionary. */
  method GroupLoop<S>(items: seq<Item>, key: Item -> Option<string>, bump: (S, Item) -> S, zero: S) returns (m: Dict<string, S>)
    ensures m == Grouped(items, key, bump, zero)
  {
    m := [];
    for i := 0 to |items|
      invariant m == Grouped(items[..i], key, bump, zero)
    {
      assert items[..i + 1][..i] == items[..i];
      match key(items[i])
      case None =>
      case Some(k) =>
        m := Set(m, k, bump(GetOr(m, k, zero), items[i]));
    }
    assert items[..|items|] == items;
  }

  datatype CompanyStats = CompanyStats(total: nat, active: nat, completed: nat)

  /** `item.get("company", "기타")`. */
  function CompanyKey(x: Item): Option<string> {
    Some(TextOr(x, "company", "기타"))
  }

  predicate IsActive(x: Item) {
    var s := TextOr(x, "status", "");
    s == "진행중" || s == "세팅대기"
  }

  predicate IsCompleted(x: Item) {
    TextOr(x, "status", "") == "완료"
  }

  /** One item counted in its company's totals: active, else completed when it is done. */
  function Bump(st: CompanyStats, x: Item): CompanyStats {
    CompanyStats(st.total + 1,
      st.active + (if IsActive(x) then 1 else 0),
      st.completed + (if !IsActive(x) && IsCompleted(x) then 1 else 0))
  }

  /** One more item counted under its key. */
  function Incr(n: nat, x: Item): nat {
    n + 1
  }

  /** `item.get("product", "기타")`. */
  function ProductKey(x: Item): Option<string> {
    Some(TextOr(x, "product", "기타"))
  }

  /** `contract_date[:7]` of an item with a non-empty contract date. */
  function MonthKey(x: Item): (r: Option<string>)
    ensures r.Some? <==> TextOr(x, "contract_date", "") != ""
    ensures r.Some? ==> |r.value| <= 7
  {
    var d := TextOr(x, "contract_date", "");
    if d == "" then None else Some(if |d| <= 7 then d else d[..7])
  }

  /** The number of items with key `k`. */
  function CountKey(items: seq<Item>, key: Item -> Option<string>, k: string): nat {
    if |items| == 0 then 0
    else CountKey(items[..|items| - 1], key, k) + (if key(items[|items| - 1]) == Some(k) then 1 else 0)
  }

  /** A company's counts: its total is the number of its items, and active and completed items are among them. */
  lemma {:induction false} CompanyCounts(items: seq<Item>, c: string)
    ensures var s := Accumulated(items, CompanyKey, Bump, CompanyStats(0, 0, 0), c);
      s.total == CountKey(items, CompanyKey, c) && s.active + s.completed <= s.total
  {
    if |items| > 0 {
      CompanyCounts(items[..|items| - 1], c);
    }
  }

  /** A counter's value is the number of items with its key. */
  lemma {:induction false} CounterCounts(items: seq<Item>, key: Item -> Option<string>, k: string)
    ensures Accumulated(items, key, Incr, 0, k) == CountKey(items, key, k)
  {
    if |items| > 0 {
      CounterCounts(items[..|items| - 1], key, k);
    }
  }

  /** The counts of items over all keys add up to at most the number of items. */
  lemma {:induction false} SeenCount(items: seq<Item>, key: Item -> Option<string>, k: string)
    ensures Seen(items, key, k) <==> CountKey(items, key, k) > 0
    ensures CountKey(items, key, k) <= |items|
  {
    if |items| > 0 {
      SeenCount(items[..|items| - 1], key, k);
    }
  }

  datatype Statistics = Statistics(
    total: nat,
    byCompany: Dict<string, CompanyStats>,
    byProduct: Dict<string, nat>,
    byMonth: Dict<string, nat>)

  /** `get_statistics` without the stored `updated_at`. */
  function StatisticsOf(items: seq<Item>): Statistics {
    Statistics(|items|,
      Grouped(items, CompanyKey, Bump, CompanyStats(0, 0, 0)),
      Grouped(items, ProductKey, Incr, 0),
      Grouped(items, MonthKey, Incr, 0))
  }

  /**
   * Every company, product and month present reads the number of its
   * items, and a company's active and completed items are among its total;
   * absent keys have no item.
   */
  lemma StatisticsSpec(items: seq<Item>, c: string, p: string, month: string)
    ensures var st := StatisticsOf(items);
      && (match Get(st.byCompany, c)
          case None => CountKey(items, CompanyKey, c) == 0
          case Some(s) => s.total == CountKey(items, CompanyKey, c) > 0 && s.active + s.completed <= s.total)
      && Get(st.byProduct, p) == (if CountKey(items, ProductKey, p) == 0 then None else Some(CountKey(items, ProductKey, p)))
      && Get(st.byMonth, month) == (if CountKey(items, MonthKey, month) == 0 then None else Some(CountKey(items, MonthKey, month)))
  {
    GroupedSpec(items, CompanyKey, Bump, CompanyStats(0, 0, 0), c);
    GroupedSpec(items, ProductKey, Incr, 0, p);
    GroupedSpec(items, MonthKey, Incr, 0, month);
    CompanyCounts(items, c);
    CounterCounts(items, ProductKey, p);
    CounterCounts(items, MonthKey, month);
    SeenCount(items, CompanyKey, c);
    SeenCount(items, ProductKey, p);
    SeenCount(items, MonthKey, month);
  }

  // ---------------------------------------------------------------------
  // _parse_date and _get_cell_value
  // ---------------------------------------------------------------------

  /** `s.zfill(2)` for one or two digits. */
  function ZFill2(s: string): (r: string)
    ensures |s| <= 2 ==> |r| == 2
    ensures AllDigits(s) ==> AllDigits(r)
  {
    if |s| >= 2 then s else if |s| == 1 then "0" + s else "00"
  }

  /** A one- or two-digit group starting at `i` and followed by one of `seps`, as `(\d{1,2})[seps]` matches there. */
  function ShortGroup(s: string, i: nat, seps: set<char>): (r: Option<nat>)
    requires i <= |s|
    ensures r.Some? ==> 1 <= r.value <= 2 && i + r.value < |s| && s[i + r.value] in seps && AllDigits(s[i..i + r.value])
  {
    var n := DigitRun(s, i);
    if 1 <= n <= 2 && i + n < |s| && s[i + n] in seps then Some(n) else None
  }

  /** A prefix of a digit run is digits too. */
  lemma DigitsPrefix(s: string, i: nat, n: nat, k: nat)
    requires i + n <= |s| && AllDigits(s[i..i + n]) && k <= n
    ensures AllDigits(s[i..i + k])
  {
    var short, long := s[i..i + k], s[i..i + n];
    forall j | 0 <= j < k
      ensures IsDigit(short[j])
    {
      assert short[j] == long[j];
    }
  }

  /** Three digit groups read by a date pattern, in the pattern's order. */
  predicate DateGroups(g: (string, string, string), len0: nat, len2: nat) {
    (len0 == 4 ==> |g.0| == 4) && (len0 == 2 ==> 1 <= |g.0| <= 2) && 1 <= |g.1| <= 2
    && (len2 == 4 ==> |g.2| == 4) && (len2 == 2 ==> 1 <= |g.2| <= 2)
    && AllDigits(g.0) && AllDigits(g.1) && AllDigits(g.2)
  }

  /** `re.match(r"(\d{1,2})[/-](\d{1,2})[/-](\d{4})", s)`: month, day and year. */
  function MatchMonthFirst(s: string): (r: Option<(string, string, string)>)
    ensures r.Some? ==> DateGroups(r.value, 2, 4)
  {
    match ShortGroup(s, 0, {'/', '-'})
    case None => None
    case Some(a) =>
      match ShortGroup(s, a + 1, {'/', '-'})
      case None => None
      case Some(b) =>
        var p := a + 1 + b + 1;
        var n := DigitRun(s, p);
        if n >= 4 then
          DigitsPrefix(s, p, n, 4);
          assert s[..a] == s[0..a];
          Some((s[..a], s[a + 1..a + 1 + b], s[p..p + 4]))
        else None
  }

  /** `re.match(r"(\d{4})[/.-](\d{1,2})[/.-](\d{1,2})", s)`: year, month and day. */
  function MatchYearFirst(s: string): (r: Option<(string, string, string)>)
    ensures r.Some? ==> DateGroups(r.value, 4, 2)
  {
    if DigitRun(s, 0) != 4 || |s| <= 4 || s[4] !in {'/', '.', '-'} then None
    else match ShortGroup(s, 5, {'/', '.', '-'})
      case None => None
      case Some(b) =>
        var p := 5 + b + 1;
        var c := DigitRun(s, p);
        var k := if c >= 2 then 2 else 1;
        if c == 0 then None
        else
          DigitsPrefix(s, p, c, k);
          assert s[..4] == s[0..4];
          Some((s[..4], s[5..5 + b], s[p..p + k]))
  }

  predicate IsoShaped(s: string) {
    |s| == 10 && s[4] == '-' && s[7] == '-'
  }

  /** A date in `YYYY-MM-DD` form: the dashes in place and digits between them. */
  predicate IsoDigits(r: string) {
    IsoShaped(r) && AllDigits(r[..4]) && AllDigits(r[5..7]) && AllDigits(r[8..])
  }

  /** `f"{year}-{month.zfill(2)}-{day.zfill(2)}"`. */
  function Assemble(year: string, month: string, day: string): (r: string)
    requires |year| == 4 && 1 <= |month| <= 2 && 1 <= |day| <= 2
    requires AllDigits(year) && AllDigits(month) && AllDigits(day)
    ensures IsoDigits(r)
  {
    var r := year + "-" + ZFill2(month) + "-" + ZFill2(day);
    assert r[..4] == year && r[5..7] == ZFill2(month) && r[8..] == ZFill2(day);
    r
  }

  /** `_parse_date`. */
  function ParseDate(s: string): string {
    if s == "" then ""
    else if IsoShaped(s) then s
    else match MatchMonthFirst(s)
      case Some((m, d, y)) => Assemble(y, m, d)
      case None =>
        match MatchYearFirst(s)
        case Some((y, m, d)) => Assemble(y, m, d)
        case None => s
  }

  /**
   * Every text is either kept or turned into a `YYYY-MM-DD` date, so
   * parsing a parsed date changes nothing.
   */
  lemma ParseDateSpec(s: string)
    ensures ParseDate(s) == s || IsoDigits(ParseDate(s))
    ensures ParseDate(ParseDate(s)) == ParseDate(s)
  {
  }

  /** The month-first pattern reads `3/7/2024` as month 3, day 7, year 2024. */
  lemma MatchMonthFirstExample()
    ensures MatchMonthFirst("3/7/2024") == Some(("3", "7", "2024"))
  {
    var s := "3/7/2024";
    assert ShortGroup(s, 0, {'/', '-'}) == Some(1) by {
      assert DigitRun(s, 0) == 1;
    }
    assert ShortGroup(s, 2, {'/', '-'}) == Some(1) by {
      assert DigitRun(s, 2) == 1;
    }
    assert DigitRun(s, 4) == 4;
    assert s[..1] == "3" && s[2..3] == "7" && s[4..8] == "2024";
  }

  /** `M/D/YYYY` becomes `YYYY-MM-DD`. */
  lemma ParseDateMonthFirst()
    ensures ParseDate("3/7/2024") == "2024-03-07"
  {
    MatchMonthFirstExample();
  }

  /** The year-first pattern reads `2024.3.7` as year 2024, month 3, day 7. */
  lemma MatchYearFirstExample()
    ensures MatchMonthFirst("2024.3.7") == None
    ensures MatchYearFirst("2024.3.7") == Some(("2024", "3", "7"))
  {
    var s := "2024.3.7";
    assert DigitRun(s, 0) == 4;
    assert ShortGroup(s, 5, {'/', '.', '-'}) == Some(1) by {
      assert DigitRun(s, 5) == 1;
    }
    assert DigitRun(s, 7) == 1;
    assert s[..4] == "2024" && s[5..6] == "3" && s[7..8] == "7";
  }

  /** `YYYY.M.D` becomes `YYYY-MM-DD`. */
  lemma ParseDateYearFirst()
    ensures ParseDate("2024.3.7") == "2024-03-07"
  {
    MatchYearFirstExample();
  }

  /** Text that no pattern matches is kept as it is. */
  lemma ParseDateOther()
    ensures ParseDate("미정") == "미정"
  {
    assert DigitRun("미정", 0) == 0;
  }

  /** `_get_cell_value`: the stripped cell, or `""` for no column or a column past the row. */
  function GetCellValue(row: seq<string>, index: Option<nat>): (r: string)
    ensures index.None? || index.value >= |row| ==> r == ""
    ensures index.Some? && index.value < |row| ==> r == Strip(row[index.value])
  {
    if index.None? || index.value >= |row| then "" else Strip(row[index.value])
  }

  // ---------------------------------------------------------------------
  // Sync upsert
  // ---------------------------------------------------------------------

  /** `_find_existing_item`: the first item with that business name, contract date and company. */
  function FindExisting(items: seq<Item>, name: Value, date: Value, company: string): (r: Option<nat>)
    ensures r.Some? ==> (r.value < |items| && SameContract(items[r.value], name, date, company)
      && forall j :: 0 <= j < r.value ==> !SameContract(items[j], name, date, company))
    ensures r.None? <==> forall j :: 0 <= j < |items| ==> !SameContract(items[j], name, date, company)
  {
    if |items| == 0 then None
    else if SameContract(items[0], name, date, company) then Some(0)
    else match FindExisting(items[1..], name, date, company)
      case None => None
      case Some(k) => assert items[k + 1] == items[1..][k]; Some(k + 1)
  }

  predicate SameContract(x: Item, name: Value, date: Value, company: string) {
    "business_name" in x && x["business_name"] == name
    && "contract_date" in x && x["contract_date"] == date
    && "company" in x && x["company"] == Str(company)
  }

  /** Fetched items lacking either key raise `KeyError` and end the company's sync. */
  predicate HasKeys(x: Item) {
    "business_name" in x && "contract_date" in x
  }

  /** `existing["id"]`, read as text. */
  function IdOf(x: Item): string {
    TextOr(x, "id", "")
  }

  /** One fetched item: update the existing contract, or create it for the company; `true` when it was added. */
  function Upsert(items: seq<Item>, x: Item, company: string, stamp: string, now: string): (seq<Item>, bool)
    requires HasKeys(x)
  {
    match FindExisting(items, x["business_name"], x["contract_date"], company)
    case Some(i) => (UpdatedById(items, IdOf(items[i]), x, now), false)
    case None => (items + [NewItem(x["company" := Str(company)], stamp + NatToString(|items|), now)], true)
  }

  /**
   * After the upsert of a fetched item, which carries no company field of
   * its own, its contract is found, and the item count grew only when the
   * item was added.
   */
  lemma UpsertFinds(items: seq<Item>, x: Item, company: string, stamp: string, now: string)
    requires HasKeys(x) && "company" !in x
    ensures FindExisting(Upsert(items, x, company, stamp, now).0, x["business_name"], x["contract_date"], company).Some?
    ensures |Upsert(items, x, company, stamp, now).0| == |items| + (if Upsert(items, x, company, stamp, now).1 then 1 else 0)
  {
    var name, date := x["business_name"], x["contract_date"];
    var after := Upsert(items, x, company, stamp, now).0;
    match FindExisting(items, name, date, company) {
      case Some(i) =>
        match IndexOfId(items, IdOf(items[i])) {
          case None =>
            assert after[i] == items[i];
          case Some(j) =>
            if j == i {
              MergeSpec(items[i], x, now, "business_name");
              MergeSpec(items[i], x, now, "contract_date");
              MergeSpec(items[i], x, now, "company");
            }
            assert after[i] == items[i] || j == i;
        }
        assert SameContract(after[i], name, date, company);
      case None =>
        var y := x["company" := Str(company)];
        var id := stamp + NatToString(|items|);
        NewItemFields(y, id, now, "business_name");
        NewItemFields(y, id, now, "contract_date");
        NewItemFields(y, id, now, "company");
        assert after[|items|] == NewItem(y, id, now);
        assert SameContract(after[|items|], name, date, company);
    }
  }

  /** The result counts of `sync_from_google_sheets`. */
  datatype SyncCounts = SyncCounts(added: nat, updated: nat, failed: nat)

  function Plus(a: SyncCounts, b: SyncCounts): SyncCounts {
    SyncCounts(a.added + b.added, a.updated + b.updated, a.failed + b.failed)
  }

  /**
   * One company's fetched items upserted in order, stopping with one
   * failure at the first item lacking a key: the items before it stay
   * stored, and each stored item is either added or updated.
   */
  function SyncRun(items: seq<Item>, fetched: seq<Item>, company: string, stamp: string, now: string): (seq<Item>, SyncCounts)
    decreases |fetched|
  {
    if |fetched| == 0 then (items, SyncCounts(0, 0, 0))
    else if !HasKeys(fetched[0]) then (items, SyncCounts(0, 0, 1))
    else
      var (next, added) := Upsert(items, fetched[0], company, stamp, now);
      var (last, c) := SyncRun(next, fetched[1..], company, stamp, now);
      (last, Plus(Counted(added), c))
  }

  /** The count of one upserted item. */
  function Counted(added: bool): SyncCounts {
    if added then SyncCounts(1, 0, 0) else SyncCounts(0, 1, 0)
  }

  lemma UpsertSize(items: seq<Item>, x: Item, company: string, stamp: string, now: string)
    requires HasKeys(x)
    ensures |Upsert(items, x, company, stamp, now).0| == |items| + (if Upsert(items, x, company, stamp, now).1 then 1 else 0)
  {
  }

  /** The step of `SyncRun` at the `t`-th fetched item, with the upsert left unexpanded. */
  lemma SyncRunStep(items: seq<Item>, fetched: seq<Item>, t: nat, company: string, stamp: string, now: string, next: seq<Item>, added: bool)
    requires t < |fetched| && HasKeys(fetched[t]) && (next, added) == Upsert(items, fetched[t], company, stamp, now)
    ensures SyncRun(items, fetched[t..], company, stamp, now).0 == SyncRun(next, fetched[t + 1..], company, stamp, now).0
    ensures SyncRun(items, fetched[t..], company, stamp, now).1 == Plus(Counted(added), SyncRun(next, fetched[t + 1..], company, stamp, now).1)
  {
    assert fetched[t..][0] == fetched[t] && fetched[t..][1..] == fetched[t + 1..];
  }

  /**
   * A company's run stores one more item per item added, accounts for
   * every fetched item before the one that failed, and fails at most once.
   */
  lemma {:induction false} SyncRunCounts(items: seq<Item>, fetched: seq<Item>, company: string, stamp: string, now: string)
    ensures var (after, c) := SyncRun(items, fetched, company, stamp, now);
      && |after| == |items| + c.added
      && c.added + c.updated <= |fetched| && c.failed <= 1
      && (c.failed == 0 ==> c.added + c.updated == |fetched|)
    decreases |fetched|
  {
    if |fetched| > 0 && HasKeys(fetched[0]) {
      var (next, added) := Upsert(items, fetched[0], company, stamp, now);
      UpsertSize(items, fetched[0], company, stamp, now);
      SyncRunCounts(next, fetched[1..], company, stamp, now);
    }
  }

  /** `SyncRun` from the first fetched entry on is `SyncRun` over all of them. */
  lemma SyncRunStart(items: seq<Item>, fetched: seq<Item>, company: string, stamp: string, now: string)
    ensures SyncRun(items, fetched[0..], company, stamp, now) == SyncRun(items, fetched, company, stamp, now)
  {
    assert fetched[0..] == fetched;
  }

  /** `SyncRun` over no fetched entry changes nothing and counts nothing. */
  lemma SyncRunEnd(items: seq<Item>, fetched: seq<Item>, company: string, stamp: string, now: string)
    ensures SyncRun(items, fetched[|fetched|..], company, stamp, now) == (items, SyncCounts(0, 0, 0))
  {
    assert fetched[|fetched|..] == [];
  }

  /** `SyncRun` stops at a `t`-th fetched item lacking a key. */
  lemma SyncRunStop(items: seq<Item>, fetched: seq<Item>, t: nat, company: string, stamp: string, now: string)
    requires t < |fetched| && !HasKeys(fetched[t])
    ensures SyncRun(items, fetched[t..], company, stamp, now) == (items, SyncCounts(0, 0, 1))
  {
    assert fetched[t..][0] == fetched[t];
  }

  /**
   * `sync_from_google_sheets` over each company's fetch in turn (`None`
   * when the fetch raised, which counts one failure).
   */
  function SyncAll(items: seq<Item>, fetched: seq<(string, Option<seq<Item>>)>, stamp: string, now: string): (seq<Item>, SyncCounts)
    decreases |fetched|
  {
    if |fetched| == 0 then (items, SyncCounts(0, 0, 0))
    else
      var (next, c) := EntryRun(items, fetched[0].0, fetched[0].1, stamp, now);
      var (last, d) := SyncAll(next, fetched[1..], stamp, now);
      (last, Plus(c, d))
  }

  /** One company's share of the sync: one failure when its fetch raised, else its run. */
  function EntryRun(items: seq<Item>, company: string, got: Option<seq<Item>>, stamp: string, now: string): (seq<Item>, SyncCounts) {
    if got.None? then (items, SyncCounts(0, 0, 1)) else SyncRun(items, got.value, company, stamp, now)
  }

  /** A sync stores one more item per item added and fails at most once per company. */
  lemma {:induction false} SyncAllCounts(items: seq<Item>, fetched: seq<(string, Option<seq<Item>>)>, stamp: string, now: string)
    ensures var (after, c) := SyncAll(items, fetched, stamp, now);
      |after| == |items| + c.added && c.failed <= |fetched|
    decreases |fetched|
  {
    if |fetched| > 0 {
      var (company, got) := fetched[0];
      var (next, c) := EntryRun(items, company, got, stamp, now);
      if got.Some? {
        SyncRunCounts(items, got.value, company, stamp, now);
      }
      SyncAllCounts(next, fetched[1..], stamp, now);
    }
  }

  /** `SyncAll` from the first fetched entry on is `SyncAll` over all of them. */
  lemma SyncAllStart(items: seq<Item>, fetched: seq<(string, Option<seq<Item>>)>, stamp: string, now: string)
    ensures SyncAll(items, fetched[0..], stamp, now) == SyncAll(items, fetched, stamp, now)
  {
    assert fetched[0..] == fetched;
  }

  /** `SyncAll` over no fetched entry changes nothing and counts nothing. */
  lemma SyncAllEnd(items: seq<Item>, fetched: seq<(string, Option<seq<Item>>)>, stamp: string, now: string)
    ensures SyncAll(items, fetched[|fetched|..], stamp, now) == (items, SyncCounts(0, 0, 0))
  {
    assert fetched[|fetched|..] == [];
  }

  /** The step of `SyncAll` at the `t`-th company, with its run left unexpanded. */
  lemma SyncAllStep(items: seq<Item>, fetched: seq<(string, Option<seq<Item>>)>, t: nat, stamp: string, now: string, next: seq<Item>, c: SyncCounts)
    requires t < |fetched|
    requires next == EntryRun(items, fetched[t].0, fetched[t].1, stamp, now).0
    requires c == EntryRun(items, fetched[t].0, fetched[t].1, stamp, now).1
    ensures SyncAll(items, fetched[t..], stamp, now).0 == SyncAll(next, fetched[t + 1..], stamp, now).0
    ensures SyncAll(items, fetched[t..], stamp, now).1 == Plus(c, SyncAll(next, fetched[t + 1..], stamp, now).1)
  {
    assert fetched[t..][0] == fetched[t] && fetched[t..][1..] == fetched[t + 1..];
  }

  // ---------------------------------------------------------------------
  // The manager
  // ---------------------------------------------------------------------

  /** `GuaranteeManager.data`: the items and the last sync time. */
  class GuaranteeManager {
    var items: seq<Item>
    var lastSync: Option<string>

    /** `_load_data`: the stored items. */
    constructor (stored: seq<Item>, lastSync: Option<string>)
      ensures items == stored && this.lastSync == lastSync
    {
      items := stored;
      this.lastSync := lastSync;
    }

    /** `create_item`: one item appended, its id the clock stamp followed by the number of items before it. */
    method CreateItem(item: Item, stamp: string, now: string) returns (r: Item)
      modifies this
      ensures r == NewItem(item, stamp + NatToString(|old(items)|), now)
      ensures items == old(items) + [r] && lastSync == old(lastSync)
    {
      r := NewItem(item, stamp + NatToString(|items|), now);
      items := items + [r];
    }

    /** The loop of `get_item`, `update_item` and `delete_item` looking for the id. */
    method FindItem(id: string) returns (r: Option<nat>)
      ensures r == IndexOfId(items, id)
    {
      for i := 0 to |items|
        invariant forall j :: 0 <= j < i ==> IdField(items[j]) != Some(Str(id))
      {
        if "id" in items[i] && items[i]["id"] == Str(id) {
          return Some(i);
        }
      }
      return None;
    }

    /** `update_item`: the first item with the id takes the updates, except its id and creation time. */
    method UpdateItem(id: string, updates: Item, now: string) returns (r: Option<Item>)
      modifies this
      ensures items == UpdatedById(old(items), id, updates, now) && lastSync == old(lastSync)
      ensures match IndexOfId(old(items), id)
        case None => r.None?
        case Some(i) => r == Some(items[i])
    {
      var k := FindItem(id);
      match k
      case None =>
        return None;
      case Some(i) =>
        items := items[i := Merge(items[i], updates, now)];
        return Some(items[i]);
    }

    /** `delete_item`: only the first item with the id is removed. */
    method DeleteItem(id: string) returns (ok: bool)
      modifies this
      ensures ok <==> IndexOfId(old(items), id).Some?
      ensures match IndexOfId(old(items), id)
        case None => items == old(items)
        case Some(i) => items == old(items)[..i] + old(items)[i + 1..]
      ensures lastSync == old(lastSync)
    {
      var k := FindItem(id);
      match k
      case None =>
        return false;
      case Some(i) =>
        items := items[..i] + items[i + 1..];
        return true;
    }

    /** `update_daily_rank`: the day's rank set in the item's `daily_ranks`, and nothing else but the update time. */
    method UpdateDailyRank(id: string, day: int, rank: int, now: string) returns (r: Option<Item>)
      modifies this
      ensures match IndexOfId(old(items), id)
        case None => r.None? && items == old(items)
        case Some(i) =>
          items == old(items)[i := Merge(old(items)[i], map["daily_ranks" := Ranks(Set(RanksOf(old(items)[i]), IntToString(day), rank))], now)]
          && r == Some(items[i])
      ensures lastSync == old(lastSync)
    {
      var k := FindItem(id);
      match k
      case None =>
        return None;
      case Some(i) =>
        var ranks := Set(RanksOf(items[i]), IntToString(day), rank);
        r := UpdateItem(id, map["daily_ranks" := Ranks(ranks)], now);
    }

    /** The three counting loops of `get_statistics`. */
    method GetStatistics() returns (s: Statistics)
      ensures s == StatisticsOf(items)
    {
      var byCompany := GroupLoop(items, CompanyKey, Bump, CompanyStats(0, 0, 0));
      var byProduct := GroupLoop(items, ProductKey, Incr, 0);
      var byMonth := GroupLoop(items, MonthKey, Incr, 0);
      s := Statistics(|items|, byCompany, byProduct, byMonth);
    }

    /** `sync_from_google_sheets`, then the sync time. */
    method Sync(fetched: seq<(string, Option<seq<Item>>)>, stamp: string, now: string) returns (c: SyncCounts)
      modifies this
      ensures items == SyncAll(old(items), fetched, stamp, now).0
      ensures c == SyncAll(old(items), fetched, stamp, now).1
      ensures lastSync == Some(now)
    {
      c := SyncCounts(0, 0, 0);
      ghost var goal := SyncAll(items, fetched, stamp, now);
      SyncAllStart(items, fetched, stamp, now);
      for t := 0 to |fetched|
        invariant SyncAll(items, fetched[t..], stamp, now).0 == goal.0
        invariant c.added + SyncAll(items, fetched[t..], stamp, now).1.added == goal.1.added
        invariant c.updated + SyncAll(items, fetched[t..], stamp, now).1.updated == goal.1.updated
        invariant c.failed + SyncAll(items, fetched[t..], stamp, now).1.failed == goal.1.failed
      {
        ghost var before := items;
        var r := SyncEntry(fetched[t].0, fetched[t].1, stamp, now);
        SyncAllStep(before, fetched, t, stamp, now, items, r);
        c := Plus(c, r);
      }
      SyncAllEnd(items, fetched, stamp, now);
      assert items == goal.0 && c == goal.1;
      lastSync := Some(now);
    }

    /** The body of the loop over companies: the fetch's failure, or the run over its items. */
    method SyncEntry(company: string, got: Option<seq<Item>>, stamp: string, now: string) returns (r: SyncCounts)
      modifies this
      ensures items == EntryRun(old(items), company, got, stamp, now).0
      ensures r == EntryRun(old(items), company, got, stamp, now).1
      ensures lastSync == old(lastSync)
    {
      if got.None? {
        r := SyncCounts(0, 0, 1);
      } else {
        r := SyncCompany(company, got.value, stamp, now);
      }
    }

    /** The loop over one company's fetched items. */
    method SyncCompany(company: string, fetched: seq<Item>, stamp: string, now: string) returns (c: SyncCounts)
      modifies this
      ensures items == SyncRun(old(items), fetched, company, stamp, now).0
      ensures c == SyncRun(old(items), fetched, company, stamp, now).1
      ensures lastSync == old(lastSync)
    {
      c := SyncCounts(0, 0, 0);
      ghost var goal := SyncRun(items, fetched, company, stamp, now);
      SyncRunStart(items, fetched, company, stamp, now);
      for t := 0 to |fetched|
        invariant SyncRun(items, fetched[t..], company, stamp, now).0 == goal.0
        invariant c.added + SyncRun(items, fetched[t..], company, stamp, now).1.added == goal.1.added
        invariant c.updated + SyncRun(items, fetched[t..], company, stamp, now).1.updated == goal.1.updated
        invariant c.failed + SyncRun(items, fetched[t..], company, stamp, now).1.failed == goal.1.failed
        invariant lastSync == old(lastSync)
      {
        var x := fetched[t];
        if !HasKeys(x) {
          SyncRunStop(items, fetched, t, company, stamp, now);
          c := Plus(c, SyncCounts(0, 0, 1));
          return;
        }
        ghost var before := items;
        var added := UpsertItem(x, company, stamp, now);
        SyncRunStep(before, fetched, t, company, stamp, now, items, added);
        c := Plus(c, Counted(added));
      }
      SyncRunEnd(items, fetched, company, stamp, now);
    }

    /** The body of the loop over fetched items: update the existing contract or add the item for the company. */
    method UpsertItem(x: Item, company: string, stamp: string, now: string) returns (added: bool)
      requires HasKeys(x)
      modifies this
      ensures (items, added) == Upsert(old(items), x, company, stamp, now)
      ensures lastSync == old(lastSync)
    {
      var k := FindExistingLoop(x["business_name"], x["contract_date"], company);
      match k
      case Some(i) =>
        var _ := UpdateItem(IdOf(items[i]), x, now);
        added := false;
      case None =>
        var _ := CreateItem(x["company" := Str(company)], stamp, now);
        added := true;
    }

    /** The loop of `_find_existing_item`. */
    method FindExistingLoop(name: Value, date: Value, company: string) returns (r: Option<nat>)
      ensures r == FindExisting(items, name, date, company)
    {
      for i := 0 to |items|
        invariant forall j :: 0 <= j < i ==> !SameContract(items[j], name, date, company)
      {
        if SameContract(items[i], name, date, company) {
          return Some(i);
        }
      }
      return None;
    }
  }
}
