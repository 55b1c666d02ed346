/**
 * The direct place-search crawler: proxy addresses handed out in turn
 * from a pool of ports, the scores packed into a place's gdid, the
 * numbering of search results, and the batch crawl that looks each
 * business up under its keyword, searching every keyword only once.
 * The HTTP requests themselves are a function parameter.
 */
module NaverDirectCrawler {
  import opened Common
  import opened Dicts

  // ---------------------------------------------------------------------
  // ProxyConfig
  // ---------------------------------------------------------------------

  datatype ProxyConfig = ProxyConfig(host: string, port: int, username: string, password: string)

  /** `ProxyConfig.url`. */
  function Url(p: ProxyConfig): (u: string)
    ensures StartsWith(u, "http://")
    ensures |u| > |IntToString(p.port)| && u[|u| - |IntToString(p.port)| - 1..] == ":" + IntToString(p.port)
  {
    var hostPort := p.host + ":" + IntToString(p.port);
    if p.username != "" && p.password != "" then "http://" + p.username + ":" + p.password + "@" + hostPort
    else "http://" + hostPort
  }

  /** Credentials appear only when both the user name and the password are given. */
  lemma UrlIgnoresPartialCredentials(p: ProxyConfig)
    requires p.username == "" || p.password == ""
    ensures Url(p) == Url(p.(username := "", password := ""))
  {
  }

  /** With both credentials, the address is the bare one with `user:password@` put after the scheme. */
  lemma UrlWithCredentials(p: ProxyConfig)
    requires p.username != "" && p.password != ""
    ensures var bare := Url(p.(username := "", password := ""));
      Url(p) == bare[..7] + p.username + ":" + p.password + "@" + bare[7..]
  {
    var bare := Url(p.(username := "", password := ""));
    assert bare[..7] == "http://";
    assert bare[7..] == p.host + ":" + IntToString(p.port);
  }

  // ---------------------------------------------------------------------
  // DecodoProxyPool
  // ---------------------------------------------------------------------

  const DefaultHost: string := "kr.decodo.com"
  const DefaultPortStart: int := 10001
  const DefaultPortCount: int := 50

  /** Python's `a % b`: the remainder takes the sign of the divisor. */
  function PyMod(a: int, b: int): (r: int)
    requires b != 0
    ensures b > 0 ==> 0 <= r < b
    ensures b < 0 ==> b < r <= 0
  {
    if b > 0 then a % b else -((-a) % (-b))
  }

  /** The port handed out for the `i`-th round-robin request. */
  function PortAt(start: int, count: int, i: int): int
    requires count != 0
  {
    start + PyMod(i, count)
  }

  /** With a positive number of endpoints, every port lies in `[start, start + count)`. */
  lemma PortAtRange(start: int, count: int, i: int)
    requires count > 0
    ensures start <= PortAt(start, count, i) < start + count
  {
  }

  /** The ports repeat with period `count`. */
  lemma PortAtPeriodic(start: int, count: int, i: int)
    requires count != 0
    ensures PortAt(start, count, i + count) == PortAt(start, count, i)
  {
    if count > 0 {
      ModShift(i, count);
    } else {
      ModShift(-i, -count);
      assert -(i + count) == -i + -count;
    }
  }

  /**
   * Any `count` requests in a row get every port of the range: port `q`
   * comes `PyMod(q - start - i, count)` requests after request `i`.
   */
  lemma PortAtCovers(start: int, count: int, i: int, q: int)
    requires count > 0 && start <= q < start + count
    ensures 0 <= PyMod(q - start - i, count) < count
    ensures PortAt(start, count, i + PyMod(q - start - i, count)) == q
  {
    var k := (q - start - i) % count;
    var qk := (q - start - i) / count;
    assert q - start - i == qk * count + k;
    ModUnique(i + k, count, -qk, q - start);
  }

  lemma ModShift(i: int, b: int)
    requires b > 0
    ensures (i + b) % b == i % b
  {
    ModUnique(i + b, b, i / b + 1, i % b);
  }

  /** The remainder is the one of any decomposition `a == q * b + r` with `0 <= r < b`. */
  lemma ModUnique(a: int, b: int, q: int, r: int)
    requires b > 0 && 0 <= r < b && a == q * b + r
    ensures a % b == r
  {
    var q0, r0 := a / b, a % b;
    assert a == q0 * b + r0;
    var k := q - q0;
    assert k * b == r0 - r;
    if k >= 1 {
      MulNonNeg(k - 1, b);
    } else if k <= -1 {
      MulNonNeg(-k - 1, b);
    }
  }

  lemma MulNonNeg(x: int, y: int)
    requires x >= 0 && y >= 0
    ensures x * y >= 0
  {
  }

  /**
   * The proxy pool. The settings are those read from the environment at
   * construction; only the round-robin counter changes afterwards.
   */
  class ProxyPool {
    const username: string
    const password: string
    const host: string
    const portStart: int
    const portCount: int
    var currentIndex: int

    /** `DecodoProxyPool()` with the given settings; the counter starts at zero. */
    constructor(username: string, password: string, host: string, portStart: int, portCount: int)
      ensures this.username == username && this.password == password && this.host == host
      ensures this.portStart == portStart && this.portCount == portCount
      ensures currentIndex == 0
    {
      this.username := username;
      this.password := password;
      this.host := host;
      this.portStart := portStart;
      this.portCount := portCount;
      currentIndex := 0;
    }

    predicate HasCredentials() {
      username != "" && password != ""
    }

    /**
     * `get_proxy`: nothing, and no turn taken, without credentials;
     * otherwise the port of the current turn, and the counter moves on.
     * With credentials and no endpoints the modulo raises, so the caller
     * must not get there.
     */
    method GetProxy() returns (p: Option<ProxyConfig>)
      requires !HasCredentials() || portCount != 0
      modifies this
      ensures !HasCredentials() ==> p.None? && currentIndex == old(currentIndex)
      ensures HasCredentials() ==>
        p == Some(ProxyConfig(host, PortAt(portStart, portCount, old(currentIndex)), username, password))
        && currentIndex == old(currentIndex) + 1
    {
      if username == "" || password == "" {
        return None;
      }
      var port := portStart + PyMod(currentIndex, portCount);
      currentIndex := currentIndex + 1;
      p := Some(ProxyConfig(host, port, username, password));
    }

    /**
     * `get_random_proxy`, with `draw` the value `random.randint(0,
     * port_count - 1)` returned (the draw raises when that range is empty).
     */
    method GetRandomProxy(draw: int) returns (p: Option<ProxyConfig>)
      requires !HasCredentials() || 0 <= draw <= portCount - 1
      ensures p.None? <==> !HasCredentials()
      ensures p.Some? ==> p.value.host == host && p.value.username == username && p.value.password == password
      ensures p.Some? ==> portStart <= p.value.port <= portStart + portCount - 1
    {
      if username == "" || password == "" {
        return None;
      }
      var port := portStart + draw;
      p := Some(ProxyConfig(host, port, username, password));
    }
  }

  // ---------------------------------------------------------------------
  // parse_gdid_scores
  // ---------------------------------------------------------------------

  /** Relevance, popularity and trust, each absent until parsed. */
  datatype Scores = Scores(relevance: Option<real>, popularity: Option<real>, trust: Option<real>)

  const NoScores: Scores := Scores(None, None, None)

  /**
   * The three assignments in order: a field that fails to parse raises,
   * which leaves it and every later field unset but keeps the earlier ones.
   */
  function Assigned(relevance: Option<real>, popularity: Option<real>, trust: Option<real>): (r: Scores)
    ensures r.relevance == relevance
    ensures r.popularity == (if relevance.None? then None else popularity)
    ensures r.trust == (if relevance.None? || popularity.None? then None else trust)
  {
    match relevance
    case None => NoScores
    case Some(_) =>
      match popularity
      case None => Scores(relevance, None, None)
      case Some(_) => Scores(relevance, popularity, trust)
  }

  /** The part after the first comma (up to the next one), or the whole text without a comma. */
  function ScorePart(gdid: string): (r: string)
    ensures ',' !in gdid ==> r == gdid
    ensures ',' in gdid ==> ',' !in r
  {
    if ',' in gdid then Split(gdid, ',')[1] else gdid
  }

  /**
   * `parse_gdid_scores(gdid)`, with `parse` standing for `float()` (None
   * where it raises ValueError).
   */
  function ParseGdid(gdid: string, parse: string -> Option<real>): (r: Scores)
    ensures gdid == "" || ':' !in gdid ==> r == NoScores
    ensures |Split(ScorePart(gdid), ':')| < 4 ==> r == NoScores
    ensures r.trust.Some? ==> r.popularity.Some?
    ensures r.popularity.Some? ==> r.relevance.Some?
  {
    if gdid == "" || ':' !in gdid then NoScores
    else
      var parts := Split(ScorePart(gdid), ':');
      if |parts| < 4 then NoScores
      else Assigned(parse(parts[1]), parse(parts[2]), parse(parts[3]))
  }

  /**
   * A gdid built as `id,version:relevance:popularity:trust` gives back the
   * three scores, and so does the same text without the leading `id,`.
   */
  lemma GdidRoundTrip(id: string, version: string, relevance: string, popularity: string, trust: string, parse: string -> Option<real>)
    requires ',' !in id
    requires ',' !in version && ',' !in relevance && ',' !in popularity && ',' !in trust
    requires ':' !in version && ':' !in relevance && ':' !in popularity && ':' !in trust
    ensures var fields := Join([version, relevance, popularity, trust], ":");
      && ParseGdid(id + "," + fields, parse) == Assigned(parse(relevance), parse(popularity), parse(trust))
      && ParseGdid(fields, parse) == Assigned(parse(relevance), parse(popularity), parse(trust))
  {
    var fields := Join([version, relevance, popularity, trust], ":");
    GdidFields(version, relevance, popularity, trust);
    var g := id + "," + fields;
    assert g == id + [','] + fields;
    SplitCons(id, ',', fields);
    assert Split(fields, ',') == [fields];
    assert g[|id| + 1 + |version|] == ':';
  }

  /** The score fields joined with colons: one colon after the version, no comma, and they split back. */
  lemma GdidFields(version: string, relevance: string, popularity: string, trust: string)
    requires ',' !in version && ',' !in relevance && ',' !in popularity && ',' !in trust
    requires ':' !in version && ':' !in relevance && ':' !in popularity && ':' !in trust
    ensures var fields := Join([version, relevance, popularity, trust], ":");
      && |fields| > |version| && fields[|version|] == ':' && ',' !in fields
      && Split(fields, ':') == [version, relevance, popularity, trust]
  {
    var parts := [version, relevance, popularity, trust];
    assert parts[1..] == [relevance, popularity, trust];
    assert [relevance, popularity, trust][1..] == [popularity, trust];
    assert [popularity, trust][1..] == [trust];
    assert Join([trust], ":") == trust;
    var tail2 := Join([popularity, trust], ":");
    assert tail2 == popularity + ":" + trust;
    var tail3 := Join([relevance, popularity, trust], ":");
    assert tail3 == relevance + ":" + tail2;
    var fields := Join(parts, ":");
    assert fields == version + ":" + tail3;
    assert fields[|version|] == ':';
    assert ',' !in tail2;
    assert ',' !in tail3;
    assert ',' !in fields;
    forall i | 0 <= i < |parts| ensures ':' !in parts[i] {
      if i == 0 {} else if i == 1 {} else if i == 2 {} else {}
    }
    SplitJoin(parts, ':');
  }

  // ---------------------------------------------------------------------
  // search_places: numbering the results
  // ---------------------------------------------------------------------

  /**
   * One returned place: its id as text (`str(item.get("id"))`), its gdid
   * ("" when absent), the passed-through descriptive fields, and the
   * review and image counts.
   */
  datatype Place = Place(id: string, name: string, gdid: string, details: seq<string>,
                         visitorReviews: Option<int>, blogReviews: Option<int>, images: Option<int>)

  /** A search result: its rank, the place and the scores of its gdid. */
  datatype Ranked = Ranked(rank: nat, place: Place, scores: Scores)

  /** The loop of `search_places` over the returned items: the rank is the 1-based position. */
  method RankPlaces(items: seq<Place>, parse: string -> Option<real>) returns (results: seq<Ranked>)
    ensures |results| == |items|
    ensures forall i :: 0 <= i < |items| ==>
      results[i] == Ranked(i + 1, items[i], ParseGdid(items[i].gdid, parse))
  {
    results := [];
    var rank := 1;
    for k := 0 to |items|
      invariant rank == k + 1
      invariant |results| == k
      invariant forall i :: 0 <= i < k ==> results[i] == Ranked(i + 1, items[i], ParseGdid(items[i].gdid, parse))
    {
      var scores := ParseGdid(items[k].gdid, parse);
      results := results + [Ranked(rank, items[k], scores)];
      rank := rank + 1;
    }
  }

  /**
   * `search_places(keyword)`, with `response` the items the request
   * returned (None when the request failed or answered with errors).
   */
  method SearchPlaces(response: Option<seq<Place>>, parse: string -> Option<real>) returns (results: seq<Ranked>)
    ensures response.None? ==> results == []
    ensures response.Some? ==> |results| == |response.value|
    ensures response.Some? ==> forall i :: 0 <= i < |results| ==>
      results[i].rank == i + 1 && results[i].place == response.value[i]
  {
    if response.None? || |response.value| == 0 {
      return [];
    }
    results := RankPlaces(response.value, parse);
  }

  // ---------------------------------------------------------------------
  // crawl_ranks_batch
  // ---------------------------------------------------------------------

  /** A business to look up; a missing keyword or place id is "". */
  datatype Target = Target(keyword: string, placeId: string, businessName: string)

  /** One row of the batch result; every metric is absent when the place was not found. */
  datatype BatchRow = BatchRow(keyword: string, placeId: string, businessName: string,
                               rank: Option<nat>, popularity: Option<real>, trust: Option<real>,
                               visitorReviews: Option<int>, blogReviews: Option<int>, images: Option<int>,
                               found: bool)

  /** A target is looked up only with both a keyword and a place id. */
  predicate Eligible(t: Target) {
    t.keyword != "" && t.placeId != ""
  }

  /** The position of the first result for the place. */
  function FirstWithId(rs: seq<Ranked>, id: string): (r: Option<nat>)
    ensures r.None? <==> forall i :: 0 <= i < |rs| ==> rs[i].place.id != id
    ensures r.Some? ==> r.value < |rs| && rs[r.value].place.id == id
    ensures r.Some? ==> forall j :: 0 <= j < r.value ==> rs[j].place.id != id
  {
    if |rs| == 0 then None
    else if rs[0].place.id == id then Some(0)
    else
      match FirstWithId(rs[1..], id)
      case Some(k) => Some(k + 1)
      case None =>
        assert forall i :: 1 <= i < |rs| ==> rs[i] == rs[1..][i - 1];
        None
  }

  /** The row for a target given the results of its keyword. */
  function RowFor(t: Target, rs: seq<Ranked>): BatchRow {
    match FirstWithId(rs, t.placeId)
    case Some(i) =>
      var r := rs[i];
      BatchRow(t.keyword, t.placeId, t.businessName, Some(r.rank), r.scores.popularity, r.scores.trust,
               r.place.visitorReviews, r.place.blogReviews, r.place.images, true)
    case None =>
      BatchRow(t.keyword, t.placeId, t.businessName, None, None, None, None, None, None, false)
  }

  /**
   * A row is found iff some result carries the place id; a found row
   * takes the first such result's rank and metrics, and a row not found
   * has none.
   */
  lemma RowForSpec(t: Target, rs: seq<Ranked>)
    ensures RowFor(t, rs).found <==> exists i :: 0 <= i < |rs| && rs[i].place.id == t.placeId
    ensures RowFor(t, rs).found ==> exists i :: 0 <= i < |rs| && rs[i].place.id == t.placeId && RowFor(t, rs).rank == Some(rs[i].rank)
    ensures !RowFor(t, rs).found ==>
      (RowFor(t, rs).rank.None? && RowFor(t, rs).popularity.None? && RowFor(t, rs).trust.None?
       && RowFor(t, rs).visitorReviews.None? && RowFor(t, rs).blogReviews.None? && RowFor(t, rs).images.None?)
    ensures (RowFor(t, rs).keyword, RowFor(t, rs).placeId, RowFor(t, rs).businessName) == (t.keyword, t.placeId, t.businessName)
  {
  }

  /** On numbered search results, a found place's rank is one more than the position of its first result. */
  lemma RowForRank(t: Target, rs: seq<Ranked>)
    requires forall i :: 0 <= i < |rs| ==> rs[i].rank == i + 1
    ensures RowFor(t, rs).found ==> RowFor(t, rs).rank == Some(FirstWithId(rs, t.placeId).value + 1)
  {
  }

  /** Reference definition: one row per eligible target, in order, from the search of its keyword. */
  function Batch(targets: seq<Target>, search: string -> seq<Ranked>): seq<BatchRow> {
    if |targets| == 0 then []
    else
      var t := targets[|targets| - 1];
      Batch(targets[..|targets| - 1], search) + (if Eligible(t) then [RowFor(t, search(t.keyword))] else [])
  }

  /** The keywords of the eligible targets, in order, repeats included. */
  function Keywords(targets: seq<Target>): seq<string> {
    if |targets| == 0 then []
    else
      var t := targets[|targets| - 1];
      Keywords(targets[..|targets| - 1]) + (if Eligible(t) then [t.keyword] else [])
  }

  /** The eligible targets, in order. */
  function Eligibles(targets: seq<Target>): (es: seq<Target>)
    ensures forall i :: 0 <= i < |es| ==> Eligible(es[i])
  {
    if |targets| == 0 then []
    else
      var t := targets[|targets| - 1];
      Eligibles(targets[..|targets| - 1]) + (if Eligible(t) then [t] else [])
  }

  /**
   * The batch has one row per eligible target, in order: row `i` is the
   * row of the `i`-th eligible target for the results of its keyword.
   */
  lemma {:induction false} BatchRows(targets: seq<Target>, search: string -> seq<Ranked>)
    ensures |Batch(targets, search)| == |Eligibles(targets)| == |Keywords(targets)|
    ensures forall i :: 0 <= i < |Eligibles(targets)| ==>
      Keywords(targets)[i] == Eligibles(targets)[i].keyword
      && Batch(targets, search)[i] == RowFor(Eligibles(targets)[i], search(Eligibles(targets)[i].keyword))
  {
    if |targets| > 0 {
      BatchRows(targets[..|targets| - 1], search);
    }
  }

  /** Every keyword the cache holds maps to that keyword's search results. */
  predicate CacheSound(cache: Dict<string, seq<Ranked>>, search: string -> seq<Ranked>) {
    forall i :: 0 <= i < |cache| ==> cache[i].1 == search(cache[i].0)
  }

  lemma CacheGet(cache: Dict<string, seq<Ranked>>, search: string -> seq<Ranked>, k: string)
    requires CacheSound(cache, search) && k in Keys(cache)
    ensures Get(cache, k) == Some(search(k))
  {
  }

  lemma CacheSet(cache: Dict<string, seq<Ranked>>, search: string -> seq<Ranked>, k: string)
    requires CacheSound(cache, search) && k !in Keys(cache)
    ensures CacheSound(Set(cache, k, search(k)), search)
    ensures Keys(Set(cache, k, search(k))) == Keys(cache) + [k]
  {
    SetNew(cache, k, search(k));
  }

  /**
   * `crawl_ranks_batch(targets)`, with `search` standing for
   * `search_places(keyword, limit=50)`. Besides the rows it returns the
   * keywords it searched, in the order of the searches.
   */
  method CrawlRanksBatch(targets: seq<Target>, search: string -> seq<Ranked>) returns (results: seq<BatchRow>, searched: seq<string>)
    ensures results == Batch(targets, search)
    ensures searched == Dedup(Keywords(targets))
  {
    results := [];
    searched := [];
    var cache: Dict<string, seq<Ranked>> := [];
    for n := 0 to |targets|
      invariant results == Batch(targets[..n], search)
      invariant searched == Keys(cache) == Dedup(Keywords(targets[..n]))
      invariant CacheSound(cache, search)
    {
      assert targets[..n + 1][..n] == targets[..n];
      var t := targets[n];
      if t.keyword == "" || t.placeId == "" {
        assert Keywords(targets[..n + 1]) == Keywords(targets[..n]);
        assert Batch(targets[..n + 1], search) == Batch(targets[..n], search);
        continue;
      }
      assert Keywords(targets[..n + 1]) == Keywords(targets[..n]) + [t.keyword];
      assert Batch(targets[..n + 1], search) == Batch(targets[..n], search) + [RowFor(t, search(t.keyword))];
      DedupSnoc(Keywords(targets[..n]), t.keyword);
      if t.keyword !in Keys(cache) {
        CacheSet(cache, search, t.keyword);
        cache := Set(cache, t.keyword, search(t.keyword));
        searched := searched + [t.keyword];
      }
      CacheGet(cache, search, t.keyword);
      var searchResults := GetOr(cache, t.keyword, []);
      var found := FirstWithId(searchResults, t.placeId);
      var row;
      if found.Some? {
        var r := searchResults[found.value];
        row := BatchRow(t.keyword, t.placeId, t.businessName, Some(r.rank), r.scores.popularity, r.scores.trust,
                        r.place.visitorReviews, r.place.blogReviews, r.place.images, true);
      } else {
        row := BatchRow(t.keyword, t.placeId, t.businessName, None, None, None, None, None, None, false);
      }
      assert row == RowFor(t, search(t.keyword));
      results := results + [row];
    }
    assert targets[..|targets|] == targets;
  }

  /** The batch searches each keyword once: the searches are distinct and cover every eligible keyword. */
  lemma SearchedOnce(targets: seq<Target>)
    ensures Distinct(Dedup(Keywords(targets)))
    ensures forall k :: k in Dedup(Keywords(targets)) <==> exists t :: t in targets && Eligible(t) && t.keyword == k
  {
    DedupSpec(Keywords(targets));
    KeywordsSpec(targets);
  }

  lemma {:induction false} KeywordsSpec(targets: seq<Target>)
    ensures forall k :: k in Keywords(targets) <==> exists t :: t in targets && Eligible(t) && t.keyword == k
  {
    if |targets| > 0 {
      var init, t := targets[..|targets| - 1], targets[|targets| - 1];
      KeywordsSpec(init);
      assert targets == init + [t];
      forall k | k in Keywords(targets)
        ensures exists u :: u in targets && Eligible(u) && u.keyword == k
      {
        if k in Keywords(init) {
          var u :| u in init && Eligible(u) && u.keyword == k;
          assert u in targets;
        } else {
          assert t in targets;
        }
      }
      forall u | u in targets && Eligible(u)
        ensures u.keyword in Keywords(targets)
      {
        if u in init {
          assert u.keyword in Keywords(init);
        }
      }
    }
  }
}
