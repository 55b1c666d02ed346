/**
 * Business categories for the workload report: a job is a restaurant
 * (맛집) job when one of the restaurant words occurs in its tab title,
 * product or product name, and a general (일반) job otherwise. Weekly
 * workload items are grouped by category, then agency, then week, and
 * the grouping is printed as text.
 */
module BusinessCategory {
  import opened Common
  import opened Dicts
  import Sorting

  // ---------------------------------------------------------------------
  // classify_business_category
  // ---------------------------------------------------------------------

  datatype Category = General | Restaurant

  /** "일반" or "맛집". */
  function CategoryName(c: Category): string {
    match c
    case General => "일반"
    case Restaurant => "맛집"
  }

  /** `(text or "").strip().lower().replace(" ", "")`. */
  function Normalize(text: string): (r: string)
    ensures ' ' !in r
  {
    RemoveChar(Lower(Strip(text)), ' ')
  }

  /** The words that make a job a restaurant job. */
  const RestaurantKeywords: seq<string> := [
    "맛집", "restaurant", "카페", "cafe", "음식점",
    "치킨", "피자", "파스타", "일식", "중식", "한식", "양식",
    "브런치", "디저트", "베이커리"]

  /** The keyword loop: whether one of `keys` from position `from` on occurs in `s`. */
  predicate AnyKeyword(s: string, keys: seq<string>, from: nat)
    requires from <= |keys|
    decreases |keys| - from
  {
    from < |keys| && (Contains(s, keys[from]) || AnyKeyword(s, keys, from + 1))
  }

  lemma {:induction false} AnyKeywordSpec(s: string, keys: seq<string>, from: nat)
    requires from <= |keys|
    ensures AnyKeyword(s, keys, from) <==> exists k :: from <= k < |keys| && Contains(s, keys[k])
    decreases |keys| - from
  {
    if from < |keys| {
      AnyKeywordSpec(s, keys, from + 1);
    }
  }

  /** `f"{tab_norm} {product_norm} {product_name_norm}"`. */
  function AllText(tabTitle: string, product: string, productName: string): string {
    Normalize(tabTitle) + " " + Normalize(product) + " " + Normalize(productName)
  }

  /**
   * `classify_business_category(tab_title, product, product_name)`:
   * 맛집 iff one of the keywords occurs in the normalised texts.
   */
  function Classify(tabTitle: string, product: string, productName: string): (c: Category)
    ensures c == Restaurant <==>
      exists k :: 0 <= k < |RestaurantKeywords| && Contains(AllText(tabTitle, product, productName), RestaurantKeywords[k])
  {
    var all := AllText(tabTitle, product, productName);
    AnyKeywordSpec(all, RestaurantKeywords, 0);
    if AnyKeyword(all, RestaurantKeywords, 0) then Restaurant else General
  }

  /** A word without spaces found in `a + " " + b` lies within `a` or within `b`. */
  lemma ContainsAcrossSpace(a: string, b: string, w: string)
    requires ' ' !in w && Contains(a + " " + b, w)
    ensures Contains(a, w) || Contains(b, w)
  {
    var s := a + " " + b;
    var i :| 0 <= i <= |s| - |w| && IsAt(s, w, i);
    if i + |w| <= |a| {
      assert s[i..i + |w|] == a[i..i + |w|];
      assert IsAt(a, w, i);
    } else if i > |a| {
      assert s[i..i + |w|] == b[i - |a| - 1..i - |a| - 1 + |w|];
      assert IsAt(b, w, i - |a| - 1);
    } else {
      CharAt(s, w, i, |a|);
      assert false;
    }
  }

  lemma CharAt(s: string, w: string, i: int, j: int)
    requires IsAt(s, w, i) && i <= j < i + |w|
    ensures s[j] == w[j - i]
  {
    assert s[j] == s[i..i + |w|][j - i];
  }

  /** A word found in `a` is found in `a + " " + b`, and so is one found in `b`. */
  lemma ContainsEitherSide(a: string, b: string, w: string)
    ensures Contains(a, w) ==> Contains(a + " " + b, w)
    ensures Contains(b, w) ==> Contains(a + " " + b, w)
  {
    var s := a + " " + b;
    if Contains(a, w) {
      assert s[..|a|] == a;
      ContainsInfix(s, 0, |a|, w);
    }
    if Contains(b, w) {
      assert s[|a| + 1..|s|] == b;
      ContainsInfix(s, |a| + 1, |s|, w);
    }
  }

  /**
   * A job is a restaurant job iff a keyword occurs in the normalised tab
   * title, product or product name on its own: the joining spaces never
   * make or break a match.
   */
  lemma ClassifyByParts(tabTitle: string, product: string, productName: string)
    ensures Classify(tabTitle, product, productName) == Restaurant <==>
      exists k :: 0 <= k < |RestaurantKeywords| &&
        (Contains(Normalize(tabTitle), RestaurantKeywords[k])
        || Contains(Normalize(product), RestaurantKeywords[k])
        || Contains(Normalize(productName), RestaurantKeywords[k]))
  {
    var t, p, n := Normalize(tabTitle), Normalize(product), Normalize(productName);
    assert AllText(tabTitle, product, productName) == t + " " + (p + " " + n);
    forall k | 0 <= k < |RestaurantKeywords|
      ensures Contains(t + " " + (p + " " + n), RestaurantKeywords[k])
        <==> Contains(t, RestaurantKeywords[k]) || Contains(p, RestaurantKeywords[k]) || Contains(n, RestaurantKeywords[k])
    {
      var w := RestaurantKeywords[k];
      assert ' ' !in w;
      ContainsEitherSide(t, p + " " + n, w);
      ContainsEitherSide(p, n, w);
      if Contains(t + " " + (p + " " + n), w) {
        ContainsAcrossSpace(t, p + " " + n, w);
        if Contains(p + " " + n, w) {
          ContainsAcrossSpace(p, n, w);
        }
      }
    }
  }

  /** Letter case and surrounding or inner spaces of the texts do not change the category. */
  lemma ClassifyIgnoresCase(tabTitle: string, product: string, productName: string)
    ensures Classify(Upper(tabTitle), Upper(product), Upper(productName)) == Classify(tabTitle, product, productName)
  {
    NormalizeUpper(tabTitle);
    NormalizeUpper(product);
    NormalizeUpper(productName);
  }

  lemma NormalizeUpper(s: string)
    ensures Normalize(Upper(s)) == Normalize(s)
  {
    StripUpper(s);
    LowerUpper(Strip(s));
  }

  // ---------------------------------------------------------------------
  // group_workload_by_category_and_agency
  // ---------------------------------------------------------------------

  /**
   * An input item. `workload` is the printed form of the item's workload
   * value; absent keys read as their defaults ("" and "0").
   */
  datatype Item = Item(name: string, workload: string, tabTitle: string, product: string, productName: string, agency: string)

  /** An input week: its dates (absent or not) and its items. */
  datatype Week = Week(start: Option<string>, end: Option<string>, items: seq<Item>)

  /** An output item keeps only the name and the workload. */
  datatype OutItem = OutItem(name: string, workload: string)

  /** An output week of one agency. */
  datatype OutWeek = OutWeek(start: Option<string>, end: Option<string>, items: seq<OutItem>)

  /** The agencies of one category, each with its weeks. */
  type Agencies = Dict<string, seq<OutWeek>>

  /** The result: the agencies of the 일반 and of the 맛집 category. */
  datatype Grouped = Grouped(general: Agencies, restaurant: Agencies)

  function Part(g: Grouped, c: Category): Agencies {
    match c
    case General => g.general
    case Restaurant => g.restaurant
  }

  function WithPart(g: Grouped, c: Category, m: Agencies): (r: Grouped)
    ensures Part(r, c) == m
    ensures forall c2 :: c2 != c ==> Part(r, c2) == Part(g, c2)
  {
    match c
    case General => g.(general := m)
    case Restaurant => g.(restaurant := m)
  }

  /** `item.get("agency", "").strip() or "미지정"`. */
  function AgencyOf(agency: string): (r: string)
    ensures r != ""
    ensures Strip(agency) != "" ==> r == Strip(agency)
  {
    if Strip(agency) != "" then Strip(agency) else "미지정"
  }

  /** One item as the loops see it: where it goes and what is kept of it. */
  datatype Placed = Placed(category: Category, agency: string, start: Option<string>, end: Option<string>, item: OutItem)

  function PlaceItem(start: Option<string>, end: Option<string>, it: Item): Placed {
    Placed(Classify(it.tabTitle, it.product, it.productName), AgencyOf(it.agency), start, end, OutItem(it.name, it.workload))
  }

  /** The items of one input week, placed. */
  function PlaceWeek(w: Week): (ps: seq<Placed>)
    ensures |ps| == |w.items|
    ensures forall i :: 0 <= i < |w.items| ==> ps[i] == PlaceItem(w.start, w.end, w.items[i])
  {
    seq(|w.items|, i requires 0 <= i < |w.items| => PlaceItem(w.start, w.end, w.items[i]))
  }

  /** The number of input items over all weeks. */
  function InputCount(weeks: seq<Week>): nat {
    if |weeks| == 0 then 0 else InputCount(weeks[..|weeks| - 1]) + |weeks[|weeks| - 1].items|
  }

  /** The items of every week, placed, in input order. */
  function PlaceAll(weeks: seq<Week>): (ps: seq<Placed>)
    ensures |ps| == InputCount(weeks)
  {
    if |weeks| == 0 then [] else PlaceAll(weeks[..|weeks| - 1]) + PlaceWeek(weeks[|weeks| - 1])
  }

  /** The position of the first week with the given dates. */
  function FindWeek(weeks: seq<OutWeek>, start: Option<string>, end: Option<string>): (r: Option<nat>)
    ensures r.None? <==> forall i :: 0 <= i < |weeks| ==> (weeks[i].start, weeks[i].end) != (start, end)
    ensures r.Some? ==> r.value < |weeks| && (weeks[r.value].start, weeks[r.value].end) == (start, end)
  {
    if |weeks| == 0 then None
    else if (weeks[0].start, weeks[0].end) == (start, end) then Some(0)
    else
      match FindWeek(weeks[1..], start, end)
      case Some(i) => Some(i + 1)
      case None =>
        assert forall i :: 1 <= i < |weeks| ==> weeks[i] == weeks[1..][i - 1];
        None
  }

  /** Add an item to the week with its dates, opening that week at the end when there is none. */
  function AddToWeeks(weeks: seq<OutWeek>, p: Placed): (r: seq<OutWeek>)
    ensures |r| > 0
  {
    match FindWeek(weeks, p.start, p.end)
    case Some(i) => weeks[i := weeks[i].(items := weeks[i].items + [p.item])]
    case None => weeks + [OutWeek(p.start, p.end, [p.item])]
  }

  /** One step of the item loop. */
  function AddPlaced(g: Grouped, p: Placed): Grouped {
    var m := Part(g, p.category);
    WithPart(g, p.category, Set(m, p.agency, AddToWeeks(GetOr(m, p.agency, []), p)))
  }

  /** Reference definition: the items that go to category `c` and agency `a`, in order. */
  function Bucket(ps: seq<Placed>, c: Category, a: string): seq<Placed> {
    if |ps| == 0 then []
    else
      var last := ps[|ps| - 1];
      Bucket(ps[..|ps| - 1], c, a) + (if last.category == c && last.agency == a then [last] else [])
  }

  /**
   * Each agency of each category holds the weeks that its own items,
   * taken in order, build: items of other agencies or categories never
   * touch them.
   */
  lemma {:induction false} GroupedAgency(ps: seq<Placed>, c: Category, a: string)
    ensures GetOr(Part(Fold(Grouped([], []), ps, AddPlaced), c), a, []) == Fold([], Bucket(ps, c, a), AddToWeeks)
  {
    if |ps| > 0 {
      var init, last := ps[..|ps| - 1], ps[|ps| - 1];
      var g := Fold(Grouped([], []), init, AddPlaced);
      assert Fold(Grouped([], []), ps, AddPlaced) == AddPlaced(g, last);
      GroupedAgency(init, c, a);
      var m := Part(g, last.category);
      GetOrSet(m, last.agency, AddToWeeks(GetOr(m, last.agency, []), last), a, []);
      if last.category == c && last.agency == a {
        assert Bucket(ps, c, a) == Bucket(init, c, a) + [last];
        assert Bucket(ps, c, a)[..|Bucket(ps, c, a)| - 1] == Bucket(init, c, a);
      } else {
        assert Bucket(ps, c, a) == Bucket(init, c, a);
      }
    }
  }

  /** The weeks' date pairs are pairwise different. */
  predicate DistinctWeeks(weeks: seq<OutWeek>) {
    forall i, j :: 0 <= i < j < |weeks| ==> (weeks[i].start, weeks[i].end) != (weeks[j].start, weeks[j].end)
  }

  /** The number of items in the weeks. */
  function ItemCount(weeks: seq<OutWeek>): nat {
    if |weeks| == 0 then 0 else ItemCount(weeks[..|weeks| - 1]) + |weeks[|weeks| - 1].items|
  }

  lemma {:induction false} ItemCountUpdate(weeks: seq<OutWeek>, i: nat, w: OutWeek)
    requires i < |weeks|
    ensures ItemCount(weeks[i := w]) == ItemCount(weeks) - |weeks[i].items| + |w.items|
  {
    var n := |weeks| - 1;
    if i < n {
      ItemCountUpdate(weeks[..n], i, w);
      assert weeks[i := w][..n] == weeks[..n][i := w];
    } else {
      assert weeks[i := w][..n] == weeks[..n];
    }
  }

  /** Adding an item adds one item to the weeks. */
  lemma AddToWeeksCount(weeks: seq<OutWeek>, p: Placed)
    ensures ItemCount(AddToWeeks(weeks, p)) == ItemCount(weeks) + 1
  {
    match FindWeek(weeks, p.start, p.end)
    case Some(i) =>
      ItemCountUpdate(weeks, i, weeks[i].(items := weeks[i].items + [p.item]));
    case None =>
      var r := weeks + [OutWeek(p.start, p.end, [p.item])];
      assert r[..|r| - 1] == weeks;
  }

  /** Adding an item keeps the dates distinct and adds one item. */
  lemma AddToWeeksSpec(weeks: seq<OutWeek>, p: Placed)
    requires DistinctWeeks(weeks)
    ensures DistinctWeeks(AddToWeeks(weeks, p))
    ensures ItemCount(AddToWeeks(weeks, p)) == ItemCount(weeks) + 1
  {
    AddToWeeksCount(weeks, p);
  }

  /**
   * The weeks built from a bucket: at most one week per date pair, and
   * as many items as the bucket holds.
   */
  lemma {:induction false} WeeksSpec(ps: seq<Placed>)
    ensures DistinctWeeks(Fold([], ps, AddToWeeks))
    ensures ItemCount(Fold([], ps, AddToWeeks)) == |ps|
    ensures |ps| > 0 ==> |Fold([], ps, AddToWeeks)| > 0
  {
    if |ps| > 0 {
      WeeksSpec(ps[..|ps| - 1]);
      AddToWeeksSpec(Fold([], ps[..|ps| - 1], AddToWeeks), ps[|ps| - 1]);
    }
  }

  /** Every agency of both categories has at least one week. */
  predicate NoEmptyAgency(g: Grouped) {
    (forall i :: 0 <= i < |g.general| ==> |g.general[i].1| > 0)
    && (forall i :: 0 <= i < |g.restaurant| ==> |g.restaurant[i].1| > 0)
  }

  /** The loop never leaves an agency without weeks. */
  lemma {:induction false} GroupedNoEmpty(ps: seq<Placed>)
    ensures NoEmptyAgency(Fold(Grouped([], []), ps, AddPlaced))
  {
    if |ps| > 0 {
      var init, last := ps[..|ps| - 1], ps[|ps| - 1];
      GroupedNoEmpty(init);
      var g := Fold(Grouped([], []), init, AddPlaced);
      var m := Part(g, last.category);
      SetValues(m, last.agency, AddToWeeks(GetOr(m, last.agency, []), last));
    }
  }

  /** After `d[k] = v` every value is `v` or one of the old values. */
  lemma SetValues<K, V>(d: Dict<K, V>, k: K, v: V)
    ensures forall i :: 0 <= i < |Set(d, k, v)| ==> Set(d, k, v)[i].1 == v || exists j :: 0 <= j < |d| && Set(d, k, v)[i].1 == d[j].1
  {
    var r := Set(d, k, v);
    forall i | 0 <= i < |r| ensures r[i].1 == v || exists j :: 0 <= j < |d| && r[i].1 == d[j].1 {
      if i < |d| && r[i].1 != v {
        assert r[i].1 == d[i].1;
      }
    }
  }

  /** The agencies of the items of category `c`, in order, repeats included. */
  function AgencyList(ps: seq<Placed>, c: Category): seq<string> {
    if |ps| == 0 then []
    else AgencyList(ps[..|ps| - 1], c) + (if ps[|ps| - 1].category == c then [ps[|ps| - 1].agency] else [])
  }

  /** A category's agencies are those of its items, in the order they are first seen. */
  lemma {:induction false} GroupedKeys(ps: seq<Placed>, c: Category)
    ensures Keys(Part(Fold(Grouped([], []), ps, AddPlaced), c)) == Dedup(AgencyList(ps, c))
  {
    if |ps| > 0 {
      var init, last := ps[..|ps| - 1], ps[|ps| - 1];
      GroupedKeys(init, c);
      var g := Fold(Grouped([], []), init, AddPlaced);
      var m := Part(g, last.category);
      SetKeys(m, last.agency, AddToWeeks(GetOr(m, last.agency, []), last));
      if last.category == c {
        DedupSnoc(AgencyList(init, c), last.agency);
      } else {
        assert AgencyList(ps, c) == AgencyList(init, c);
      }
    }
  }

  /** The number of items under all agencies of a category. */
  function AgenciesTotal(m: Agencies): nat {
    TotalOf(m, ItemCount)
  }

  /** The number of items in the result. */
  function Total(g: Grouped): nat {
    AgenciesTotal(g.general) + AgenciesTotal(g.restaurant)
  }

  /** Every item is filed exactly once: the loop adds one item per input item. */
  lemma {:induction false} GroupedTotal(ps: seq<Placed>)
    ensures Total(Fold(Grouped([], []), ps, AddPlaced)) == |ps|
  {
    if |ps| > 0 {
      var init, last := ps[..|ps| - 1], ps[|ps| - 1];
      GroupedTotal(init);
      var g := Fold(Grouped([], []), init, AddPlaced);
      var m := Part(g, last.category);
      var ws := GetOr(m, last.agency, []);
      TotalOfSet(m, last.agency, AddToWeeks(ws, last), ItemCount);
      AddToWeeksCount(ws, last);
      assert AgenciesTotal(Part(AddPlaced(g, last), last.category)) == AgenciesTotal(m) + 1;
    }
  }

  /** The empty-agency filter at the end of the function. */
  function DropEmpty(m: Agencies): (r: Agencies)
    ensures |r| <= |m|
  {
    if |m| == 0 then []
    else DropEmpty(m[..|m| - 1]) + (if |m[|m| - 1].1| > 0 then [m[|m| - 1]] else [])
  }

  /** Without empty agencies, the filter changes nothing. */
  lemma {:induction false} DropEmptyNone(m: Agencies)
    requires forall i :: 0 <= i < |m| ==> |m[i].1| > 0
    ensures DropEmpty(m) == m
  {
    if |m| > 0 {
      DropEmptyNone(m[..|m| - 1]);
    }
  }

  /** `group_workload_by_category_and_agency({"weeks": weeks})`. */
  function GroupWorkload(weeks: seq<Week>): Grouped {
    var g := Fold(Grouped([], []), PlaceAll(weeks), AddPlaced);
    Grouped(DropEmpty(g.general), DropEmpty(g.restaurant))
  }

  /**
   * The grouping in full: an agency's weeks are those its own items
   * build in input order, with one week per date pair, and hold exactly
   * that agency's items; the final filter removes nothing.
   */
  lemma GroupWorkloadSpec(weeks: seq<Week>, c: Category, a: string)
    ensures var b := Bucket(PlaceAll(weeks), c, a);
      && GetOr(Part(GroupWorkload(weeks), c), a, []) == Fold([], b, AddToWeeks)
      && DistinctWeeks(Fold([], b, AddToWeeks))
      && ItemCount(Fold([], b, AddToWeeks)) == |b|
  {
    var ps := PlaceAll(weeks);
    var g := Fold(Grouped([], []), ps, AddPlaced);
    GroupedNoEmpty(ps);
    DropEmptyNone(g.general);
    DropEmptyNone(g.restaurant);
    assert GroupWorkload(weeks) == g;
    GroupedAgency(ps, c, a);
    WeeksSpec(Bucket(ps, c, a));
  }

  /**
   * The result holds every input item once: as many items as the weeks
   * hold, and each category's agencies are those of its items in the
   * order they are first seen.
   */
  lemma GroupWorkloadShape(weeks: seq<Week>, c: Category)
    ensures Total(GroupWorkload(weeks)) == InputCount(weeks)
    ensures Keys(Part(GroupWorkload(weeks), c)) == Dedup(AgencyList(PlaceAll(weeks), c))
  {
    var ps := PlaceAll(weeks);
    var g := Fold(Grouped([], []), ps, AddPlaced);
    GroupedNoEmpty(ps);
    DropEmptyNone(g.general);
    DropEmptyNone(g.restaurant);
    assert GroupWorkload(weeks) == g;
    GroupedTotal(ps);
    GroupedKeys(ps, c);
  }

  /** The body of the item loop: classify, find the agency and the week, append. */
  method FileItem(g0: Grouped, start: Option<string>, end: Option<string>, it: Item) returns (g: Grouped)
    ensures g == AddPlaced(g0, PlaceItem(start, end, it))
  {
    var category := Classify(it.tabTitle, it.product, it.productName);
    var agency := AgencyOf(it.agency);
    var m := Part(g0, category);
    var agencyWeeks := GetOr(m, agency, []);
    var existing := FindWeek(agencyWeeks, start, end);
    var out := OutItem(it.name, it.workload);
    if existing.None? {
      agencyWeeks := agencyWeeks + [OutWeek(start, end, [out])];
    } else {
      var i := existing.value;
      agencyWeeks := agencyWeeks[i := agencyWeeks[i].(items := agencyWeeks[i].items + [out])];
    }
    g := WithPart(g0, category, Set(m, agency, agencyWeeks));
  }

  /** The loop over one week's items. */
  method FileWeek(g0: Grouped, w: Week) returns (g: Grouped)
    ensures g == Fold(g0, PlaceWeek(w), AddPlaced)
  {
    ghost var ps := PlaceWeek(w);
    g := g0;
    for i := 0 to |w.items|
      invariant g == Fold(g0, ps[..i], AddPlaced)
    {
      assert ps[..i + 1][..i] == ps[..i];
      g := FileItem(g, w.start, w.end, w.items[i]);
    }
    assert ps[..|w.items|] == ps;
  }

  /** The filter loop over one category. */
  method DropEmptyLoop(m: Agencies) returns (r: Agencies)
    ensures r == DropEmpty(m)
  {
    r := [];
    for i := 0 to |m|
      invariant r == DropEmpty(m[..i])
    {
      assert m[..i + 1][..i] == m[..i];
      if |m[i].1| > 0 {
        r := r + [m[i]];
      }
    }
    assert m[..|m|] == m;
  }

  lemma PlaceAllSnoc(weeks: seq<Week>, t: nat)
    requires t < |weeks|
    ensures PlaceAll(weeks[..t + 1]) == PlaceAll(weeks[..t]) + PlaceWeek(weeks[t])
  {
    assert weeks[..t + 1][..t] == weeks[..t];
  }

  /** The week loop: every item of every week, in order. */
  method FileWeeks(weeks: seq<Week>) returns (g: Grouped)
    ensures g == Fold(Grouped([], []), PlaceAll(weeks), AddPlaced)
  {
    g := Grouped([], []);
    for t := 0 to |weeks|
      invariant g == Fold(Grouped([], []), PlaceAll(weeks[..t]), AddPlaced)
    {
      PlaceAllSnoc(weeks, t);
      FoldAppend(Grouped([], []), PlaceAll(weeks[..t]), PlaceWeek(weeks[t]), AddPlaced);
      g := FileWeek(g, weeks[t]);
    }
    assert weeks[..|weeks|] == weeks;
  }

  /** `group_workload_by_category_and_agency`: the week loop, then the filter. */
  method GroupWorkloadLoop(weeks: seq<Week>) returns (result: Grouped)
    ensures result == GroupWorkload(weeks)
  {
    var g := FileWeeks(weeks);
    var general := DropEmptyLoop(g.general);
    var restaurant := DropEmptyLoop(g.restaurant);
    result := Grouped(general, restaurant);
  }

  // ---------------------------------------------------------------------
  // format_grouped_workload_text
  // ---------------------------------------------------------------------

  /** The rank in brackets, with 위 added unless the rank already has it; nothing without a rank. */
  function RankText(rank: string): (r: string)
    ensures rank == "" <==> r == ""
  {
    if rank == "" then ""
    else if Contains(rank, "위") then "(" + rank + ")"
    else "(" + rank + "위)"
  }

  /** A rank given as "3" or as "3위" prints the same: "(3위)". */
  lemma RankSuffixOnce(rank: string)
    requires rank != "" && !Contains(rank, "위")
    ensures RankText(rank) == RankText(rank + "위") == "(" + rank + "위)"
  {
    var t := rank + "위";
    assert IsAt(t, "위", |rank|);
  }

  /** The header lines: `월보장 {rank}` and a blank line, when a business is named. */
  function Header(business: string, rank: string): seq<string> {
    if business == "" then [] else ["월보장 " + RankText(rank), ""]
  }

  /** An end date as an f-string prints it: a missing one prints "None". */
  function EndText(end: Option<string>): string {
    match end
    case Some(e) => e
    case None => "None"
  }

  /** `f"{start} ~ {end}"`, or `f"~ {end}"` when the start date is missing or empty. */
  function DateRange(w: OutWeek): string {
    if w.start.Some? && w.start.value != "" then w.start.value + " ~ " + EndText(w.end)
    else "~ " + EndText(w.end)
  }

  /** `f"{name} : {workload}"`. */
  function ItemLine(it: OutItem): string {
    it.name + " : " + it.workload
  }

  function ItemLines(items: seq<OutItem>): (ls: seq<string>)
    ensures |ls| == |items|
    ensures forall i :: 0 <= i < |items| ==> ls[i] == ItemLine(items[i])
  {
    seq(|items|, i requires 0 <= i < |items| => ItemLine(items[i]))
  }

  /** One week's lines: the dates, the items, and a blank line unless it is the last week. */
  function WeekBlock(w: OutWeek, last: bool): seq<string> {
    [DateRange(w)] + ItemLines(w.items) + (if last then [] else [""])
  }

  /** The lines of the first `k` weeks of an agency. */
  function WeeksPrefix(ws: seq<OutWeek>, k: nat): seq<string>
    requires k <= |ws|
  {
    if k == 0 then [] else WeeksPrefix(ws, k - 1) + WeekBlock(ws[k - 1], k == |ws|)
  }

  /** The lines of all of an agency's weeks. */
  function WeeksLines(ws: seq<OutWeek>): seq<string> {
    WeeksPrefix(ws, |ws|)
  }

  /**
   * An agency prints one date line per week, one line per item, and one
   * blank line between two weeks.
   */
  lemma WeeksLinesCount(ws: seq<OutWeek>)
    requires |ws| > 0
    ensures |WeeksLines(ws)| == 2 * |ws| - 1 + ItemCount(ws)
  {
    WeeksPrefixCount(ws, |ws|);
    assert ws[..|ws|] == ws;
  }

  lemma {:induction false} WeeksPrefixCount(ws: seq<OutWeek>, k: nat)
    requires k <= |ws|
    ensures |WeeksPrefix(ws, k)| == 2 * k + ItemCount(ws[..k]) - (if k == |ws| && k > 0 then 1 else 0)
  {
    if k > 0 {
      WeeksPrefixCount(ws, k - 1);
      assert ws[..k][..k - 1] == ws[..k - 1];
    }
  }

  /** An agency's lines: `[agency]`, its weeks, and a blank line. */
  function AgencyBlock(e: (string, seq<OutWeek>)): seq<string> {
    ["[" + e.0 + "]"] + WeeksLines(e.1) + [""]
  }

  /** The lines of the agencies, in the given order. */
  function AgenciesLines(es: seq<(string, seq<OutWeek>)>): seq<string> {
    if |es| == 0 then [] else AgenciesLines(es[..|es| - 1]) + AgencyBlock(es[|es| - 1])
  }

  function AgencyName(e: (string, seq<OutWeek>)): string { e.0 }

  /** `sorted(agencies.items())`: by agency name, the names being distinct. */
  function SortedAgencies(m: Agencies): seq<(string, seq<OutWeek>)> {
    Sorting.SortBy(m, AgencyName, StrLess)
  }

  /** The agencies print in name order, each of them once. */
  lemma SortedAgenciesSpec(m: Agencies)
    ensures Sorting.SortedBy(SortedAgencies(m), AgencyName, StrLess)
    ensures multiset(SortedAgencies(m)) == multiset(m)
  {
    Sorting.StrLessOrder();
    Sorting.SortBySorted(m, AgencyName, StrLess);
  }

  /** A category's lines: nothing when it has no agency, else its banner, its agencies and a blank line. */
  function CategoryBlock(c: Category, m: Agencies): (ls: seq<string>)
    ensures ls == [] <==> |m| == 0
  {
    if |m| == 0 then []
    else ["=== " + CategoryName(c) + " 업종 ===", ""] + AgenciesLines(SortedAgencies(m)) + [""]
  }

  /** Every line before the final join. */
  function ReportLines(g: Grouped, business: string, rank: string): seq<string> {
    Header(business, rank) + CategoryBlock(General, g.general) + CategoryBlock(Restaurant, g.restaurant)
  }

  /** `format_grouped_workload_text(grouped, business_name, guarantee_rank)`. */
  function FormatText(g: Grouped, business: string, rank: string): string {
    Strip(Join(ReportLines(g, business, rank), "\n"))
  }

  /** The text never starts or ends with whitespace. */
  lemma FormatTextStripped(g: Grouped, business: string, rank: string)
    ensures Strip(FormatText(g, business, rank)) == FormatText(g, business, rank)
  {
    StripIdempotent(Join(ReportLines(g, business, rank), "\n"));
  }

  /** Nothing to report and no business named: the text is empty. */
  lemma FormatTextEmpty(g: Grouped, rank: string)
    requires |g.general| == 0 && |g.restaurant| == 0
    ensures FormatText(g, "", rank) == ""
  {
    assert ReportLines(g, "", rank) == [];
  }

  /** With a business named, the text opens with 월보장. */
  lemma FormatTextHeader(g: Grouped, business: string, rank: string)
    requires business != ""
    ensures StartsWith(FormatText(g, business, rank), "월보장")
  {
    var ls := ReportLines(g, business, rank);
    var h := "월보장 " + RankText(rank);
    var rest := [""] + CategoryBlock(General, g.general) + CategoryBlock(Restaurant, g.restaurant);
    assert ls == [h] + rest;
    var s := Join(ls, "\n");
    assert s == h + "\n" + Join(rest, "\n");
    assert s[..3] == h[..3] == "월보장";
    StripKeepsStart(s, "월보장");
  }

  /** strip() keeps a prefix that starts and ends with something other than whitespace. */
  lemma StripKeepsStart(s: string, p: string)
    requires StartsWith(s, p) && |p| > 0 && !IsSpace(p[0]) && !IsSpace(p[|p| - 1])
    ensures StartsWith(Strip(s), p)
  {
    StripSpec(s);
    var a :| StrippedAt(s, Strip(s), a);
    assert s[0] == p[0];
    assert a == 0;
    assert s[|p| - 1] == p[|p| - 1];
    assert |Strip(s)| >= |p|;
    assert Strip(s)[..|p|] == s[..|p|];
  }

  /** The item loop of one week. */
  method EmitItems(lines0: seq<string>, items: seq<OutItem>) returns (lines: seq<string>)
    ensures lines == lines0 + ItemLines(items)
  {
    lines := lines0;
    for k := 0 to |items|
      invariant lines == lines0 + ItemLines(items[..k])
    {
      lines := lines + [items[k].name + " : " + items[k].workload];
    }
    assert items[..|items|] == items;
  }

  /** One pass of the week loop: the dates, the items, and a blank line unless it is the last week. */
  method EmitWeek(lines0: seq<string>, w: OutWeek, last: bool) returns (lines: seq<string>)
    ensures lines == lines0 + WeekBlock(w, last)
  {
    var dateRange: string;
    if w.start.Some? && w.start.value != "" {
      dateRange := w.start.value + " ~ " + EndText(w.end);
    } else {
      dateRange := "~ " + EndText(w.end);
    }
    lines := EmitItems(lines0 + [dateRange], w.items);
    if !last {
      lines := lines + [""];
    }
  }

  /** The week loop of one agency. */
  method EmitWeeks(lines0: seq<string>, ws: seq<OutWeek>) returns (lines: seq<string>)
    ensures lines == lines0 + WeeksLines(ws)
  {
    lines := lines0;
    for idx := 0 to |ws|
      invariant lines == lines0 + WeeksPrefix(ws, idx)
    {
      lines := EmitWeek(lines, ws[idx], !(idx < |ws| - 1));
    }
  }

  /** The agency loop of one category. */
  method EmitAgencies(lines0: seq<string>, es: seq<(string, seq<OutWeek>)>) returns (lines: seq<string>)
    ensures lines == lines0 + AgenciesLines(es)
  {
    lines := lines0;
    for i := 0 to |es|
      invariant lines == lines0 + AgenciesLines(es[..i])
    {
      assert es[..i + 1][..i] == es[..i];
      lines := lines + ["[" + es[i].0 + "]"];
      lines := EmitWeeks(lines, es[i].1);
      lines := lines + [""];
    }
    assert es[..|es|] == es;
  }

  /** One pass of the category loop: skipped when the category has no agency. */
  method EmitCategory(lines0: seq<string>, c: Category, m: Agencies) returns (lines: seq<string>)
    ensures lines == lines0 + CategoryBlock(c, m)
  {
    lines := lines0;
    if |m| == 0 {
      return;
    }
    lines := lines + ["=== " + CategoryName(c) + " 업종 ===", ""];
    lines := EmitAgencies(lines, SortedAgencies(m));
    lines := lines + [""];
  }

  /** `format_grouped_workload_text`: header, 일반, then 맛집, joined and stripped. */
  method FormatGroupedText(g: Grouped, business: string, rank: string) returns (text: string)
    ensures text == FormatText(g, business, rank)
  {
    var lines: seq<string> := [];
    if business != "" {
      var rankText := "";
      if rank != "" {
        rankText := if Contains(rank, "위") then "(" + rank + ")" else "(" + rank + "위)";
      }
      assert rankText == RankText(rank);
      lines := lines + ["월보장 " + rankText, ""];
    }
    assert lines == Header(business, rank);
    lines := EmitCategory(lines, General, g.general);
    lines := EmitCategory(lines, Restaurant, g.restaurant);
    assert lines == ReportLines(g, business, rank);
    text := Strip(Join(lines, "\n"));
  }
}
