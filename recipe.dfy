/**
 * The recipe analyzer's per-business helpers: the restaurant test on a
 * place URL, the N2 change from the start day with the 3, 4, 2, 5 day
 * fallback, the review-count change with its warning levels, and the
 * traffic-volume buckets. Snapshots and day lookups are the ones the
 * training-set builder reads.
 */
module RecipeAnalyzer {
  import opened Common
  import Sorting
  import Training

  type Snapshot = Training.Snapshot

  // ---------------------------------------------------------------------
  // is_restaurant_keyword
  // ---------------------------------------------------------------------

  /** The URL is non-empty and holds "restaurant" in any letter case. */
  predicate IsRestaurantKeyword(placeUrl: string) {
    |placeUrl| > 0 && Contains(Lower(placeUrl), "restaurant")
  }

  /** A URL spelling "restaurant" literally passes, and the test ignores letter case. */
  lemma RestaurantKeywordSpec(placeUrl: string)
    ensures Contains(placeUrl, "restaurant") ==> IsRestaurantKeyword(placeUrl)
    ensures IsRestaurantKeyword(Upper(placeUrl)) == IsRestaurantKeyword(placeUrl)
    ensures IsRestaurantKeyword(placeUrl) ==> |placeUrl| >= 10
  {
    if Contains(placeUrl, "restaurant") {
      var i :| 0 <= i <= |placeUrl| - 10 && IsAt(placeUrl, "restaurant", i);
      assert Lower(placeUrl)[i..i + 10] == "restaurant" by {
        forall j | 0 <= j < 10
          ensures Lower(placeUrl)[i + j] == "restaurant"[j]
        {
          assert placeUrl[i + j] == "restaurant"[j];
        }
      }
      assert IsAt(Lower(placeUrl), "restaurant", i);
    }
    LowerUpper(placeUrl);
  }

  // ---------------------------------------------------------------------
  // get_n2_at_day, analyze_n2_change
  // ---------------------------------------------------------------------

  /**
   * `get_n2_at_day(snapshots, start, day)`: the first snapshot dated
   * `day - 1` days after the start day, or None.
   */
  function SnapshotOnDay(snaps: seq<Snapshot>, start: int, day: int): (r: Option<Snapshot>)
    ensures r.None? <==> forall i :: 0 <= i < |snaps| ==> !Training.DatedOn(snaps[i], start + day - 1)
    ensures r.Some? ==>
      exists i :: (0 <= i < |snaps| && r.value == snaps[i] && Training.DatedOn(snaps[i], start + day - 1)
        && forall j :: 0 <= j < i ==> !Training.DatedOn(snaps[j], start + day - 1))
  {
    match Training.SnapshotAt(snaps, start, day)
    case Some(i) => Some(snaps[i])
    case None => None
  }

  /** The analyzer's three trend labels: up, down and unchanged. */
  function TrendLabel(t: Training.Trend): string {
    match t
    case Up => "상승"
    case Down => "하락"
    case Stable => "유지"
  }

  /** The band inside which an N2 change counts as unchanged. */
  const N2Eps: real := 0.001

  /** `{day_used, start_n2, end_n2, delta, trend}`. */
  datatype N2Change = N2Change(dayUsed: int, startN2: real, endN2: real, delta: real, trend: string)

  /**
   * `analyze_n2_change(snapshots, start)`: None without a day-1 score or
   * without a score on any of days 3, 4, 2 and 5; otherwise the change to
   * the first of those days that has a score, with its trend label.
   */
  function AnalyzeN2Change(snaps: seq<Snapshot>, start: int): (r: Option<N2Change>)
    ensures r.Some? <==>
      (Training.N2At(snaps, start, 1).Some?
      && exists k :: 0 <= k < |Training.FallbackDays| && Training.N2At(snaps, start, Training.FallbackDays[k]).Some?)
    ensures r.Some? ==>
      r.value.dayUsed in Training.FallbackDays
      && Some(r.value.startN2) == Training.N2At(snaps, start, 1)
      && Some(r.value.endN2) == Training.N2At(snaps, start, r.value.dayUsed)
      && r.value.delta == r.value.endN2 - r.value.startN2
      && (r.value.trend == "상승" <==> r.value.delta > N2Eps)
      && (r.value.trend == "하락" <==> r.value.delta < -N2Eps)
      && (r.value.trend == "유지" <==> -N2Eps <= r.value.delta <= N2Eps)
  {
    var d := Training.N2Delta(snaps, start);
    match d.delta
    case None => None
    case Some(x) =>
      Some(N2Change(d.dayUsed, d.startN2.value, d.endN2.value, x, TrendLabel(Training.TrendOf(x, N2Eps))))
  }

  /**
   * The analyzer and the training-set builder agree on the day and the
   * change; they differ only in the width of the unchanged band.
   */
  lemma AnalyzerAgreesWithBuilder(snaps: seq<Snapshot>, start: int)
    ensures AnalyzeN2Change(snaps, start).Some? <==> Training.N2Delta(snaps, start).delta.Some?
    ensures AnalyzeN2Change(snaps, start).Some? ==>
      AnalyzeN2Change(snaps, start).value.dayUsed == Training.N2Delta(snaps, start).dayUsed
      && Some(AnalyzeN2Change(snaps, start).value.delta) == Training.N2Delta(snaps, start).delta
  {
  }

  // ---------------------------------------------------------------------
  // analyze_review_change
  // ---------------------------------------------------------------------

  /** `sorted(..., key=date, reverse=True)`: the later date comes first. */
  predicate Later(a: string, b: string) { StrLess(b, a) }

  lemma LaterStrict()
    ensures Sorting.StrictOrder(Later)
  {
    forall a ensures !Later(a, a) {
      StrLessIrreflexive(a);
    }
    forall a, b, c | Later(a, b) && Later(b, c) ensures Later(a, c) {
      StrLessTransitive(c, b, a);
    }
  }

  /** The snapshots, latest date first; equal dates keep their order. */
  function NewestFirst(snaps: seq<Snapshot>): (r: seq<Snapshot>)
    ensures |r| == |snaps|
  {
    Sorting.SortBy(snaps, Training.DateOf, Later)
  }

  lemma LaterTotal()
    ensures Sorting.Total(Later)
  {
    forall a: string, b: string ensures a == b || Later(a, b) || Later(b, a) {
      StrLessTotal(a, b);
    }
  }

  /** Reference definition: the position of the first snapshot with the latest date. */
  function FirstLatest(snaps: seq<Snapshot>): (m: nat)
    requires |snaps| > 0
    ensures m < |snaps|
    ensures forall j :: 0 <= j < |snaps| ==> !StrLess(snaps[m].date, snaps[j].date)
    ensures forall j :: 0 <= j < m ==> StrLess(snaps[j].date, snaps[m].date)
  {
    LaterStrict();
    LaterTotal();
    var m := Sorting.FirstTop(snaps, Training.DateOf, Later);
    assert forall j :: 0 <= j < |snaps| ==> !Later(Training.DateOf(snaps[j]), Training.DateOf(snaps[m]));
    m
  }

  /**
   * The end snapshot `sorted(snapshots, key=date, reverse=True)[0]` is the
   * first snapshot, in input order, among those with the latest date.
   */
  lemma NewestFirstHead(snaps: seq<Snapshot>)
    requires |snaps| > 0
    ensures NewestFirst(snaps)[0] == snaps[FirstLatest(snaps)]
  {
    LaterStrict();
    LaterTotal();
    Sorting.SortByHead(snaps, Training.DateOf, Later);
  }

  /** The warning attached to a falling review count. */
  datatype Warning = Caution | Alert

  function WarningLabel(w: Warning): string {
    match w
    case Caution => "주의"
    case Alert => "경고"
  }

  /** `{start_reviews, end_reviews, delta, change_rate, warning}`. */
  datatype ReviewChange = ReviewChange(startReviews: int, endReviews: int, delta: int, changeRate: real, warning: Option<Warning>)

  /** Blog plus visitor reviews, a missing count read as 0. */
  function ReviewTotal(s: Snapshot): int {
    (match s.blogReviews case Some(b) => b case None => 0)
    + (match s.visitorReviews case Some(v) => v case None => 0)
  }

  /** Below -10 % is an alert, below -5 % a caution, anything else no warning. */
  function WarningFor(changeRate: real): (w: Option<Warning>)
    ensures w == Some(Alert) <==> changeRate < -10.0
    ensures w == Some(Caution) <==> -10.0 <= changeRate < -5.0
    ensures w.None? <==> changeRate >= -5.0
  {
    if changeRate < -10.0 then Some(Alert)
    else if changeRate < -5.0 then Some(Caution)
    else None
  }

  /** A percentage of a non-zero base, multiplied back by the base, gives the change times 100. */
  lemma RateTimesStart(delta: real, base: real)
    requires base != 0.0
    ensures ((delta / base) * 100.0) * base == delta * 100.0
  {
    calc {
      ((delta / base) * 100.0) * base;
      ((delta / base) * base) * 100.0;
      delta * 100.0;
    }
  }

  /** `(delta / start_total) * 100`. */
  function ChangeRate(delta: int, base: int): (rate: real)
    requires base != 0
    ensures rate * (base as real) == (delta as real) * 100.0
  {
    RateTimesStart(delta as real, base as real);
    (delta as real / base as real) * 100.0
  }

  /**
   * `analyze_review_change(snapshots, start)`: None for no snapshots, no
   * day-1 snapshot or a start total of 0; otherwise the change from the
   * day-1 total to the total of the latest snapshot.
   */
  function AnalyzeReviewChange(snaps: seq<Snapshot>, start: int): (r: Option<ReviewChange>)
    ensures r.Some? <==>
      (SnapshotOnDay(snaps, start, 1).Some? && ReviewTotal(SnapshotOnDay(snaps, start, 1).value) != 0)
    ensures r.Some? ==>
      |snaps| > 0
      && r.value.startReviews == ReviewTotal(SnapshotOnDay(snaps, start, 1).value)
      && r.value.endReviews == ReviewTotal(NewestFirst(snaps)[0])
      && r.value.delta == r.value.endReviews - r.value.startReviews
      && r.value.changeRate == ChangeRate(r.value.delta, r.value.startReviews)
      && r.value.warning == WarningFor(r.value.changeRate)
  {
    var first := SnapshotOnDay(snaps, start, 1);
    if first.None? || ReviewTotal(first.value) == 0 then None
    else
      var startTotal := ReviewTotal(first.value);
      var endTotal := ReviewTotal(NewestFirst(snaps)[0]);
      var delta := endTotal - startTotal;
      var rate := ChangeRate(delta, startTotal);
      Some(ReviewChange(startTotal, endTotal, delta, rate, WarningFor(rate)))
  }

  /** The end total is that of the first snapshot carrying the latest date. */
  lemma ReviewEndIsLatest(snaps: seq<Snapshot>, start: int)
    requires AnalyzeReviewChange(snaps, start).Some?
    ensures AnalyzeReviewChange(snaps, start).value.endReviews == ReviewTotal(snaps[FirstLatest(snaps)])
  {
    NewestFirstHead(snaps);
  }

  /** With a positive base, a rate below `-t` percent is a change below `-t / 100` of the base. */
  lemma RateBelow(delta: int, base: int, t: real)
    requires base > 0
    ensures ChangeRate(delta, base) < -t <==> (delta as real) * 100.0 < -t * (base as real)
  {
    var rate := ChangeRate(delta, base);
    var b := base as real;
    if rate < -t {
      assert rate * b < -t * b;
    } else {
      assert rate * b >= -t * b;
    }
  }

  /** The warning levels as bounds on the end count, for a positive start count. */
  lemma WarningForCounts(startTotal: int, endTotal: int)
    requires startTotal > 0
    ensures var w := WarningFor(ChangeRate(endTotal - startTotal, startTotal));
      (w == Some(Alert) <==> endTotal * 10 < startTotal * 9)
      && (w == Some(Caution) <==> startTotal * 9 <= endTotal * 10 && endTotal * 20 < startTotal * 19)
  {
    RateBelow(endTotal - startTotal, startTotal, 10.0);
    RateBelow(endTotal - startTotal, startTotal, 5.0);
  }

  /**
   * With a positive day-1 total, the alert means the count fell below 90 %
   * of it and the caution means it fell below 95 % but not below 90 %.
   */
  lemma ReviewWarningSpec(snaps: seq<Snapshot>, start: int)
    requires AnalyzeReviewChange(snaps, start).Some? && AnalyzeReviewChange(snaps, start).value.startReviews > 0
    ensures var c := AnalyzeReviewChange(snaps, start).value;
      (c.warning == Some(Alert) <==> c.endReviews * 10 < c.startReviews * 9)
      && (c.warning == Some(Caution) <==> c.startReviews * 9 <= c.endReviews * 10 && c.endReviews * 20 < c.startReviews * 19)
  {
    var c := AnalyzeReviewChange(snaps, start).value;
    WarningForCounts(c.startReviews, c.endReviews);
  }

  // ---------------------------------------------------------------------
  // categorize_traffic_group
  // ---------------------------------------------------------------------

  const TrafficLabels: seq<string> := ["A (0~99)", "B (100~199)", "C (200~299)", "D (300~399)", "E (400+)"]

  /** The bucket index: hundreds of daily traffic, below 0 in the first and 400 or more in the last. */
  function TrafficBucket(daily: int): (b: nat)
    ensures b < |TrafficLabels|
  {
    if daily < 0 then 0 else if daily >= 400 then 4 else daily / 100
  }

  /** `categorize_traffic_group(daily)`: the label of the hundred the volume falls in. */
  function TrafficGroup(daily: int): (r: string)
    ensures r == TrafficLabels[TrafficBucket(daily)]
  {
    if daily < 100 then "A (0~99)"
    else if daily < 200 then "B (100~199)"
    else if daily < 300 then "C (200~299)"
    else if daily < 400 then "D (300~399)"
    else "E (400+)"
  }

  /** More traffic never lands in an earlier bucket, and the boundaries are 100, 200, 300 and 400. */
  lemma TrafficGroupMonotone(a: int, b: int)
    requires a <= b
    ensures TrafficBucket(a) <= TrafficBucket(b)
    ensures TrafficBucket(a) == TrafficBucket(b) ==> TrafficGroup(a) == TrafficGroup(b)
    ensures TrafficGroup(99) == TrafficLabels[0] && TrafficGroup(100) == TrafficLabels[1]
    ensures TrafficGroup(399) == TrafficLabels[3] && TrafficGroup(400) == TrafficLabels[4]
  {
  }
}
