/**
 * The deadline sheet reader: header detection by synonyms, cell-value
 * normalisation, row-to-record building, column letters, and the
 * agency / remaining-days / task grouping of businesses whose deadline
 * notice is due.
 */
module SheetClient {
  import opened Common
  import opened Dicts

  // ---------------------------------------------------------------------
  // Settings and header synonyms
  // ---------------------------------------------------------------------

  /** The seven logical columns the reader looks for. */
  datatype KeyId = AgencyKey | InternalKey | RemainingKey | CheckedKey | BiznameKey | ProductKey | ProductNameKey

  /** The order of `required_map` and of the batch ranges. */
  const KeyOrder: seq<KeyId> := [AgencyKey, InternalKey, RemainingKey, CheckedKey, BiznameKey, ProductKey, ProductNameKey]

  /** The reader settings: the preferred header of each column and the scan options. */
  datatype Settings = Settings(
    agencyCol: string, internalCol: string, remainingDaysCol: string, checkedCol: string,
    biznameCol: string, productCol: string, productNameCol: string,
    headerScanMaxRows: nat, batchGet: bool, batchGetFallback: bool)

  /** The settings when no variable overrides them. */
  const DefaultSettings: Settings := Settings("대행사 명", "내부 진행건", "마감 잔여일", "마감 안내 체크", "상호명", "상품", "상품 명", 150, true, true)

  function Preferred(s: Settings, id: KeyId): string {
    match id
    case AgencyKey => s.agencyCol
    case InternalKey => s.internalCol
    case RemainingKey => s.remainingDaysCol
    case CheckedKey => s.checkedCol
    case BiznameKey => s.biznameCol
    case ProductKey => s.productCol
    case ProductNameKey => s.productNameCol
  }

  /** The header synonyms of each column, in the order they are tried. */
  function Synonyms(id: KeyId): seq<string> {
    match id
    case AgencyKey => ["대행사", "대행사명", "광고대행사", "파트너", "파트너사"]
    case BiznameKey => ["상호", "업체명", "매장명", "브랜드명", "점포명", "상호명"]
    case InternalKey => ["내부", "내부진행", "자체진행", "내부 진행건"]
    case RemainingKey => ["잔여일", "마감잔여일", "d-day", "dday", "남은일", "남은 일"]
    case CheckedKey => ["마감안내", "안내체크", "공지여부", "발송완료", "완료체크", "안내 여부"]
    case ProductKey => ["상품", "유형", "type", "종류"]
    case ProductNameKey => ["상품 명", "상품명", "작업명", "작업 명"]
  }

  /** A column to look for: its preferred header and its synonyms. */
  datatype Wanted = Wanted(preferred: string, synonyms: seq<string>)

  function WantedOf(s: Settings, id: KeyId): Wanted {
    Wanted(Preferred(s, id), Synonyms(id))
  }

  /** `required_map`, in its order. */
  function Required(s: Settings): (r: seq<Wanted>)
    ensures |r| == |KeyOrder| && forall j :: 0 <= j < |r| ==> r[j] == WantedOf(s, KeyOrder[j])
  {
    seq(|KeyOrder|, j requires 0 <= j < |KeyOrder| => WantedOf(s, KeyOrder[j]))
  }

  // ---------------------------------------------------------------------
  // Cell-value normalisation
  // ---------------------------------------------------------------------

  /** `re.sub(r"\s+", "", s)`. */
  function RemoveSpaces(s: string): (r: string)
    ensures |r| <= |s|
    ensures forall i :: 0 <= i < |r| ==> !IsSpace(r[i])
  {
    if |s| == 0 then "" else (if IsSpace(s[0]) then "" else [s[0]]) + RemoveSpaces(s[1..])
  }

  /** `_collapse_spaces`: every whitespace character removed, then `strip()` and `lower()`. */
  function CollapseSpaces(s: string): string {
    Lower(Strip(RemoveSpaces(s)))
  }

  /** Removing whitespace from text that has none changes nothing. */
  lemma {:induction false} RemoveSpacesUnchanged(s: string)
    requires forall i :: 0 <= i < |s| ==> !IsSpace(s[i])
    ensures RemoveSpaces(s) == s
  {
    if |s| > 0 {
      RemoveSpacesUnchanged(s[1..]);
    }
  }

  /** Lower-casing keeps whitespace and non-whitespace apart. */
  lemma LowerKeepsSpaces(s: string)
    ensures forall i :: 0 <= i < |s| ==> (IsSpace(Lower(s)[i]) <==> IsSpace(s[i]))
  {
  }

  /**
   * The collapsed form has no whitespace and no upper-case ASCII letter,
   * is the lower-cased text with its whitespace removed, and collapsing
   * it again changes nothing.
   */
  lemma CollapseSpacesSpec(s: string)
    ensures var r := CollapseSpaces(s);
      && r == Lower(RemoveSpaces(s))
      && (forall i :: 0 <= i < |r| ==> !IsSpace(r[i]) && !('A' <= r[i] <= 'Z'))
      && CollapseSpaces(r) == r
  {
    var t := RemoveSpaces(s);
    StripUnchanged(t);
    var r := Lower(t);
    LowerKeepsSpaces(t);
    RemoveSpacesUnchanged(r);
    StripUnchanged(r);
    LowerIdempotent(t);
  }

  /** Whitespace anywhere in a header does not change its collapsed form. */
  lemma {:induction false} CollapseIgnoresSpace(a: string, c: char, b: string)
    requires IsSpace(c)
    ensures CollapseSpaces(a + [c] + b) == CollapseSpaces(a + b)
  {
    RemoveSpacesDrops(a, c, b);
  }

  /** Removing whitespace drops a space character wherever it sits. */
  lemma RemoveSpacesDrops(a: string, c: char, b: string)
    requires IsSpace(c)
    ensures RemoveSpaces(a + [c] + b) == RemoveSpaces(a + b)
  {
    RemoveSpacesAppend(a, [c] + b);
    RemoveSpacesAppend(a, b);
    assert a + [c] + b == a + ([c] + b);
    assert ([c] + b)[1..] == b;
  }

  lemma {:induction false} RemoveSpacesAppend(a: string, b: string)
    ensures RemoveSpaces(a + b) == RemoveSpaces(a) + RemoveSpaces(b)
  {
    if |a| > 0 {
      assert (a + b)[1..] == a[1..] + b;
      RemoveSpacesAppend(a[1..], b);
    } else {
      assert a + b == b;
    }
  }

  /** The text of the leftmost match of `-?\d+` at or after `i`, as an integer. */
  function NumberFrom(s: string, i: nat): (r: Option<int>)
    requires i <= |s|
    decreases |s| - i
  {
    if i == |s| then None
    else if IsDigit(s[i]) then Some(NatOf(s[i..i + DigitRun(s, i)]))
    else if s[i] == '-' && i + 1 < |s| && IsDigit(s[i + 1]) then Some(-(NatOf(s[i + 1..i + 1 + DigitRun(s, i + 1)]) as int))
    else NumberFrom(s, i + 1)
  }

  /** `_parse_int_maybe`: None for a missing or blank value, else the first `-?\d+` in it. */
  function ParseIntMaybe(value: Option<string>): Option<int> {
    match value
    case None => None
    case Some(v) =>
      var s := Strip(v);
      if s == "" then None else NumberFrom(s, 0)
  }

  predicate HasDigit(s: string) {
    exists i :: 0 <= i < |s| && IsDigit(s[i])
  }

  lemma {:induction false} NumberFromNone(s: string, i: nat)
    requires i <= |s|
    ensures NumberFrom(s, i).None? <==> forall j :: i <= j < |s| ==> !IsDigit(s[j])
    decreases |s| - i
  {
    if i < |s| && !IsDigit(s[i]) && !(s[i] == '-' && i + 1 < |s| && IsDigit(s[i + 1])) {
      NumberFromNone(s, i + 1);
    }
  }

  /** A value parses to a number exactly when it is present and holds a digit. */
  lemma ParseIntMaybeNone(value: Option<string>)
    ensures ParseIntMaybe(value).None? <==> value.None? || !HasDigit(value.value)
  {
    if value.Some? {
      var v := value.value;
      var s := Strip(v);
      StripSpec(v);
      var a :| StrippedAt(v, s, a);
      if HasDigit(v) {
        var i :| 0 <= i < |v| && IsDigit(v[i]);
        assert !IsSpace(v[i]);
        assert s[i - a] == v[i];
        NumberFromNone(s, 0);
      } else if s != "" {
        NumberFromNone(s, 0);
        forall j | 0 <= j < |s|
          ensures !IsDigit(s[j])
        {
          assert s[j] == v[a + j];
        }
      }
    }
  }

  lemma {:induction false} DigitRunAll(s: string, i: nat)
    requires i <= |s| && AllDigits(s[i..])
    ensures DigitRun(s, i) == |s| - i
    decreases |s| - i
  {
    if i < |s| {
      assert IsDigit(s[i..][0]);
      assert s[i + 1..] == s[i..][1..];
      DigitRunAll(s, i + 1);
    }
  }

  /** `_parse_int_maybe(str(n))` gives `n` back. */
  lemma ParseIntMaybeOfString(n: int)
    ensures ParseIntMaybe(Some(IntToString(n))) == Some(n)
  {
    var t := IntToString(n);
    IntToStringStripped(n);
    if n >= 0 {
      DigitRunAll(t, 0);
      assert t[0..|t|] == t;
      NatOfNatToString(n);
    } else {
      var u := NatToString(-n);
      assert t[1..] == u;
      DigitRunAll(t, 1);
      assert t[1..|t|] == u;
      NatOfNatToString(-n);
    }
  }

  /** `TRUTHY_VALUES`. */
  const TruthyValues: set<string> := {"true", "1", "yes", "y", "o", "ok", "checked", "done", "완료", "예", "yy", "ㅇ", "ㅇㅇ", "O", "✓", "✔"}

  /** `_is_truthy`: the stripped, lower-cased value is one of the truthy words; a missing value is false. */
  predicate IsTruthy(value: Option<string>) {
    value.Some? && Lower(Strip(value.value)) in TruthyValues
  }

  /** Leading whitespace and upper-case ASCII letters do not change whether a value is truthy; a missing value is not. */
  lemma TruthyNormalised(c: char, v: string)
    requires IsSpace(c)
    ensures !IsTruthy(None)
    ensures IsTruthy(Some([c] + v)) == IsTruthy(Some(v))
    ensures IsTruthy(Some(Upper(v))) == IsTruthy(Some(v))
  {
    assert ([c] + v)[1..] == v;
    assert Strip([c] + v) == Strip(v);
    StripUpper(v);
    LowerUpper(Strip(v));
  }

  /** Some synonym, in listed order, collapses to `norm`. */
  predicate InSynonyms(norm: string, syns: seq<string>) {
    |syns| > 0 && (CollapseSpaces(syns[0]) == norm || InSynonyms(norm, syns[1..]))
  }

  /** `_matches`: the header equals the preferred header or one of the synonyms, modulo `_collapse_spaces`. */
  predicate Matches(header: string, w: Wanted) {
    var h := CollapseSpaces(header);
    h == CollapseSpaces(w.preferred) || InSynonyms(h, w.synonyms)
  }

  /** Headers equal modulo `_collapse_spaces` match the same columns. */
  lemma MatchesCollapsed(h1: string, h2: string, w: Wanted)
    requires CollapseSpaces(h1) == CollapseSpaces(h2)
    ensures Matches(h1, w) == Matches(h2, w)
    ensures Matches(h1, w) <==> CollapseSpaces(h1) == CollapseSpaces(w.preferred) || exists j :: 0 <= j < |w.synonyms| && CollapseSpaces(h1) == CollapseSpaces(w.synonyms[j])
  {
    InSynonymsSpec(CollapseSpaces(h1), w.synonyms);
  }

  lemma {:induction false} InSynonymsSpec(norm: string, syns: seq<string>)
    ensures InSynonyms(norm, syns) <==> exists j :: 0 <= j < |syns| && CollapseSpaces(syns[j]) == norm
  {
    if |syns| > 0 {
      InSynonymsSpec(norm, syns[1..]);
      if InSynonyms(norm, syns[1..]) {
        var j :| 0 <= j < |syns[1..]| && CollapseSpaces(syns[1..][j]) == norm;
        assert syns[j + 1] == syns[1..][j];
      }
      if exists j :: 0 <= j < |syns| && CollapseSpaces(syns[j]) == norm {
        var j :| 0 <= j < |syns| && CollapseSpaces(syns[j]) == norm;
        if j > 0 {
          assert syns[1..][j - 1] == syns[j];
        }
      }
    }
  }

  // ---------------------------------------------------------------------
  // _get_value_flexible
  // ---------------------------------------------------------------------

  /** The first key, in dict order, whose collapsed form is `norm`. */
  function FirstKeyLike(keys: seq<string>, norm: string): (r: Option<nat>)
    ensures r.Some? ==> r.value < |keys| && CollapseSpaces(keys[r.value]) == norm
    ensures r.None? <==> forall i :: 0 <= i < |keys| ==> CollapseSpaces(keys[i]) != norm
  {
    if |keys| == 0 then None
    else if CollapseSpaces(keys[0]) == norm then Some(0)
    else match FirstKeyLike(keys[1..], norm)
      case None => None
      case Some(k) => Some(k + 1)
  }

  /** The synonym loop: the first synonym, in listed order, that some key matches; its first such key's value. */
  function SynonymValue(row: Dict<string, string>, syns: seq<string>): Option<string> {
    if |syns| == 0 then None
    else match FirstKeyLike(Keys(row), CollapseSpaces(syns[0]))
      case Some(i) => Some(row[i].1)
      case None => SynonymValue(row, syns[1..])
  }

  lemma {:induction false} SynonymValueSpec(row: Dict<string, string>, syns: seq<string>)
    ensures var r := SynonymValue(row, syns);
      && (r.None? <==> forall i :: 0 <= i < |row| ==> !InSynonyms(CollapseSpaces(row[i].0), syns))
      && (r.Some? ==> exists i :: 0 <= i < |row| && InSynonyms(CollapseSpaces(row[i].0), syns) && r.value == row[i].1)
  {
    if |syns| > 0 {
      SynonymValueSpec(row, syns[1..]);
      match FirstKeyLike(Keys(row), CollapseSpaces(syns[0]))
      case Some(i) =>
        assert InSynonyms(CollapseSpaces(row[i].0), syns);
      case None =>
        assert forall i :: 0 <= i < |row| ==> CollapseSpaces(Keys(row)[i]) != CollapseSpaces(syns[0]);
    }
  }

  /**
   * `_get_value_flexible`: the value under the preferred key itself, else
   * under the first key equal to it modulo `_collapse_spaces`, else under
   * the first key equal to a synonym, synonyms tried in order.
   */
  function GetValueFlexible(row: Dict<string, string>, w: Wanted): Option<string> {
    if w.preferred in Keys(row) then Get(row, w.preferred)
    else match FirstKeyLike(Keys(row), CollapseSpaces(w.preferred))
      case Some(i) => Some(row[i].1)
      case None => SynonymValue(row, w.synonyms)
  }

  /**
   * A value is found exactly when some key `_matches` the column; it is
   * then the value under such a key, and the preferred key itself wins
   * whenever it is present.
   */
  lemma GetValueFlexibleSpec(row: Dict<string, string>, w: Wanted)
    ensures var r := GetValueFlexible(row, w);
      && (r.None? <==> forall i :: 0 <= i < |row| ==> !Matches(row[i].0, w))
      && (r.Some? ==> exists i :: 0 <= i < |row| && Matches(row[i].0, w) && r.value == row[i].1)
      && (w.preferred in Keys(row) ==> r == Get(row, w.preferred))
  {
    var r := GetValueFlexible(row, w);
    if w.preferred in Keys(row) {
      var i := Find(Keys(row), w.preferred).value;
      assert Matches(row[i].0, w);
    } else {
      match FirstKeyLike(Keys(row), CollapseSpaces(w.preferred))
      case Some(i) =>
        assert Matches(row[i].0, w);
      case None =>
        SynonymValueSpec(row, w.synonyms);
        assert forall i :: 0 <= i < |row| ==> CollapseSpaces(Keys(row)[i]) != CollapseSpaces(w.preferred);
    }
  }

  // ---------------------------------------------------------------------
  // _find_header_row
  // ---------------------------------------------------------------------

  function StripAll(row: seq<string>): (r: seq<string>)
    ensures |r| == |row| && forall i :: 0 <= i < |row| ==> r[i] == Strip(row[i])
  {
    seq(|row|, i requires 0 <= i < |row| => Strip(row[i]))
  }

  /** Some required column `_matches` the header. */
  predicate MatchesAny(header: string, required: seq<Wanted>) {
    |required| > 0 && (Matches(header, required[0]) || MatchesAny(header, required[1..]))
  }

  /** The score of a header row: the headers matching some required column, each counted once. */
  function Score(headers: seq<string>, required: seq<Wanted>): (n: nat)
    ensures n <= |headers|
  {
    if |headers| == 0 then 0
    else Score(headers[..|headers| - 1], required) + (if MatchesAny(headers[|headers| - 1], required) then 1 else 0)
  }

  /** The best row so far: its 1-based number, its stripped headers and its score (-1 before any row). */
  datatype Pick = Pick(row: nat, headers: seq<string>, score: int)

  /** The candidate loop: a row replaces the best only with a strictly higher score. */
  function BestOf(candidates: seq<seq<string>>, score: seq<string> -> nat): Pick {
    if |candidates| == 0 then Pick(1, [], -1)
    else
      var b := BestOf(candidates[..|candidates| - 1], score);
      var headers := StripAll(candidates[|candidates| - 1]);
      var sc := score(headers);
      if sc > b.score then Pick(|candidates|, headers, sc) else b
  }

  function ScoreBy(required: seq<Wanted>): seq<string> -> nat {
    headers => Score(headers, required)
  }

  /** The best candidate under `score`, or row 1 (`firstRow`, stripped) when every score is 0. */
  function HeaderRowBy(candidates: seq<seq<string>>, firstRow: seq<string>, score: seq<string> -> nat): (nat, seq<string>) {
    var b := BestOf(candidates, score);
    if b.score <= 0 then (1, StripAll(firstRow)) else (b.row, b.headers)
  }

  /** `_find_header_row`: the best candidate, or row 1 when no header matches anywhere. */
  function HeaderRow(candidates: seq<seq<string>>, firstRow: seq<string>, required: seq<Wanted>): (nat, seq<string>) {
    HeaderRowBy(candidates, firstRow, ScoreBy(required))
  }

  function RowScore(candidates: seq<seq<string>>, i: nat, score: seq<string> -> nat): nat
    requires i < |candidates|
  {
    score(StripAll(candidates[i]))
  }

  /** The best pick is the earliest row of the highest score. */
  lemma {:induction false} BestOfSpec(candidates: seq<seq<string>>, score: seq<string> -> nat)
    ensures var b := BestOf(candidates, score);
      && (|candidates| == 0 ==> b.score == -1 && b.row == 1)
      && (|candidates| > 0 ==>
           && 1 <= b.row <= |candidates| && b.headers == StripAll(candidates[b.row - 1])
           && b.score == RowScore(candidates, b.row - 1, score)
           && (forall i :: 0 <= i < |candidates| ==> RowScore(candidates, i, score) <= b.score)
           && (forall i :: 0 <= i < b.row - 1 ==> RowScore(candidates, i, score) < b.score))
  {
    if |candidates| > 0 {
      var n := |candidates| - 1;
      var init := candidates[..n];
      BestOfSpec(init, score);
      forall i | 0 <= i < n
        ensures RowScore(init, i, score) == RowScore(candidates, i, score)
      {
        assert init[i] == candidates[i];
      }
    }
  }

  /**
   * `_find_header_row` picks the earliest of the best-scoring candidate
   * rows when some header matches, and otherwise row 1.
   */
  lemma HeaderRowSpec(candidates: seq<seq<string>>, firstRow: seq<string>, score: seq<string> -> nat)
    ensures var (row, headers) := HeaderRowBy(candidates, firstRow, score);
      && ((forall i :: 0 <= i < |candidates| ==> RowScore(candidates, i, score) == 0) ==> row == 1 && headers == StripAll(firstRow))
      && ((exists i :: 0 <= i < |candidates| && RowScore(candidates, i, score) > 0) ==>
           && 1 <= row <= |candidates| && headers == StripAll(candidates[row - 1])
           && (forall i :: 0 <= i < |candidates| ==> RowScore(candidates, i, score) <= RowScore(candidates, row - 1, score))
           && (forall i :: 0 <= i < row - 1 ==> RowScore(candidates, i, score) < RowScore(candidates, row - 1, score)))
  {
    BestOfSpec(candidates, score);
  }

  /** The inner loops of `_find_header_row`: each header is counted once, at its first matching column. */
  method ScoreRow(headers: seq<string>, required: seq<Wanted>) returns (score: nat)
    ensures score == Score(headers, required)
  {
    score := 0;
    for i := 0 to |headers|
      invariant score == Score(headers[..i], required)
    {
      assert headers[..i + 1][..i] == headers[..i];
      var found := MatchesSome(headers[i], required);
      if found {
        score := score + 1;
      }
    }
    assert headers[..|headers|] == headers;
  }

  /** The column loop for one header, which stops at the first required column it matches. */
  method MatchesSome(header: string, required: seq<Wanted>) returns (found: bool)
    ensures found == MatchesAny(header, required)
  {
    var j := 0;
    while j < |required|
      invariant j <= |required|
      invariant MatchesAny(header, required) == MatchesAny(header, required[j..])
    {
      if Matches(header, required[j]) {
        return true;
      }
      assert required[j..][1..] == required[j + 1..];
      j := j + 1;
    }
    return false;
  }

  /** The imperative `_find_header_row` over the scanned rows. */
  method FindHeaderRow(candidates: seq<seq<string>>, firstRow: seq<string>, required: seq<Wanted>) returns (row: nat, headers: seq<string>)
    ensures (row, headers) == HeaderRow(candidates, firstRow, required)
  {
    var bestIdx := 1;
    var bestHeaders: seq<string> := [];
    var bestScore: int := -1;
    for idx := 0 to |candidates|
      invariant Pick(bestIdx, bestHeaders, bestScore) == BestOf(candidates[..idx], ScoreBy(required))
    {
      assert candidates[..idx + 1][..idx] == candidates[..idx];
      var hs := StripAll(candidates[idx]);
      var score := ScoreRow(hs, required);
      if score > bestScore {
        bestIdx, bestHeaders, bestScore := idx + 1, hs, score;
      }
    }
    assert candidates[..|candidates|] == candidates;
    if bestScore <= 0 {
      bestHeaders := StripAll(firstRow);
      bestIdx := 1;
    }
    row, headers := bestIdx, bestHeaders;
  }

  // ---------------------------------------------------------------------
  // _build_records
  // ---------------------------------------------------------------------

  function CellOr(row: seq<string>, i: nat): string {
    if i < |row| then row[i] else ""
  }

  /** The record of a row over the first `n` headers: each stripped header set to its cell, "" past the row's end. */
  function RecordFrom(row: seq<string>, headers: seq<string>, n: nat): Dict<string, string>
    requires n <= |headers|
  {
    if n == 0 then [] else Set(RecordFrom(row, headers, n - 1), Strip(headers[n - 1]), CellOr(row, n - 1))
  }

  function RecordOf(row: seq<string>, headers: seq<string>): Dict<string, string> {
    RecordFrom(row, headers, |headers|)
  }

  /** The cell under the last of the first `n` headers that strips to `k`. */
  function LastCell(row: seq<string>, headers: seq<string>, k: string, n: nat): Option<string>
    requires n <= |headers|
  {
    if n == 0 then None
    else if Strip(headers[n - 1]) == k then Some(CellOr(row, n - 1))
    else LastCell(row, headers, k, n - 1)
  }

  /** A record's keys are the stripped headers, once each, in first-seen order. */
  lemma {:induction false} RecordKeys(row: seq<string>, headers: seq<string>, n: nat)
    requires n <= |headers|
    ensures Keys(RecordFrom(row, headers, n)) == Dedup(StripAll(headers[..n]))
  {
    if n > 0 {
      var d := RecordFrom(row, headers, n - 1);
      RecordKeys(row, headers, n - 1);
      SetKeys(d, Strip(headers[n - 1]), CellOr(row, n - 1));
      StripAllSnoc(headers, n);
      DedupSnoc(StripAll(headers[..n - 1]), Strip(headers[n - 1]));
    }
  }

  /** Stripping one more header appends its stripped form. */
  lemma StripAllSnoc(headers: seq<string>, n: nat)
    requires 0 < n <= |headers|
    ensures StripAll(headers[..n]) == StripAll(headers[..n - 1]) + [Strip(headers[n - 1])]
  {
    assert StripAll(headers[..n])[..n - 1] == StripAll(headers[..n - 1]);
  }

  /** Each key of a record reads the cell under the last header of that name. */
  lemma {:induction false} RecordGet(row: seq<string>, headers: seq<string>, n: nat, k: string)
    requires n <= |headers|
    ensures Get(RecordFrom(row, headers, n), k) == LastCell(row, headers, k, n)
  {
    if n > 0 {
      RecordGet(row, headers, n - 1, k);
      GetSet(RecordFrom(row, headers, n - 1), Strip(headers[n - 1]), CellOr(row, n - 1), k);
    }
  }

  /** A row whose every cell strips to "". */
  predicate IsBlankRow(row: seq<string>) {
    |row| == 0 || (IsBlankRow(row[..|row| - 1]) && Strip(row[|row| - 1]) == "")
  }

  /** A row is blank exactly when each of its cells strips to "". */
  lemma {:induction false} IsBlankRowSpec(row: seq<string>)
    ensures IsBlankRow(row) <==> forall i :: 0 <= i < |row| ==> Strip(row[i]) == ""
  {
    if |row| > 0 {
      var init := row[..|row| - 1];
      IsBlankRowSpec(init);
      assert forall i :: 0 <= i < |init| ==> init[i] == row[i];
    }
  }

  function RecordOfRow(headers: seq<string>): seq<string> -> Option<Dict<string, string>> {
    row => if IsBlankRow(row) then None else Some(RecordOf(row, headers))
  }

  /** The rows below the header row (`header_row` is 1-based); none when the header row is past the end. */
  function DataRows(values: seq<seq<string>>, headerRow: nat): seq<seq<string>> {
    if headerRow == 0 || headerRow - 1 >= |values| then [] else values[headerRow..]
  }

  /** `_build_records`: one record per non-blank row below the header row. */
  function Records(values: seq<seq<string>>, headerRow: nat, headers: seq<string>): seq<Dict<string, string>> {
    Collect(DataRows(values, headerRow), RecordOfRow(headers))
  }

  /** `_build_records` keeps the record of exactly the non-blank rows below the header row. */
  lemma RecordsSpec(values: seq<seq<string>>, headerRow: nat, headers: seq<string>)
    ensures var rows := DataRows(values, headerRow);
      forall x :: x in Records(values, headerRow, headers) <==> exists i :: 0 <= i < |rows| && !IsBlankRow(rows[i]) && x == RecordOf(rows[i], headers)
  {
    RecordsOfRows(DataRows(values, headerRow), headers);
  }

  lemma RecordsOfRows(rows: seq<seq<string>>, headers: seq<string>)
    ensures forall x :: x in Collect(rows, RecordOfRow(headers)) <==> exists i :: 0 <= i < |rows| && !IsBlankRow(rows[i]) && x == RecordOf(rows[i], headers)
  {
    forall x
      ensures x in Collect(rows, RecordOfRow(headers)) <==> exists i :: 0 <= i < |rows| && !IsBlankRow(rows[i]) && x == RecordOf(rows[i], headers)
    {
      if x in Collect(rows, RecordOfRow(headers)) {
        RecordFromRow(rows, headers, x);
      }
      if exists i :: 0 <= i < |rows| && !IsBlankRow(rows[i]) && x == RecordOf(rows[i], headers) {
        var i :| 0 <= i < |rows| && !IsBlankRow(rows[i]) && x == RecordOf(rows[i], headers);
        RowRecordKept(rows, headers, i);
      }
    }
  }

  lemma RecordFromRow(rows: seq<seq<string>>, headers: seq<string>, x: Dict<string, string>)
    requires x in Collect(rows, RecordOfRow(headers))
    ensures exists i :: 0 <= i < |rows| && !IsBlankRow(rows[i]) && x == RecordOf(rows[i], headers)
  {
    CollectSpec(rows, RecordOfRow(headers));
    var k :| 0 <= k < |rows| && RecordOfRow(headers)(rows[k]) == Some(x);
    assert !IsBlankRow(rows[k]) && x == RecordOf(rows[k], headers);
  }

  lemma RowRecordKept(rows: seq<seq<string>>, headers: seq<string>, i: nat)
    requires i < |rows| && !IsBlankRow(rows[i])
    ensures RecordOf(rows[i], headers) in Collect(rows, RecordOfRow(headers))
  {
    CollectSpec(rows, RecordOfRow(headers));
    assert RecordOfRow(headers)(rows[i]) == Some(RecordOf(rows[i], headers));
  }

  /** The dict-building loop of `_build_records` for one row. */
  method BuildRecord(row: seq<string>, headers: seq<string>) returns (d: Dict<string, string>)
    ensures d == RecordOf(row, headers)
  {
    d := [];
    for i := 0 to |headers|
      invariant d == RecordFrom(row, headers, i)
    {
      var val := if i < |row| then row[i] else "";
      d := Set(d, Strip(headers[i]), val);
    }
  }

  /** The imperative `_build_records`. */
  method BuildRecords(values: seq<seq<string>>, headerRow: nat, headers: seq<string>) returns (records: seq<Dict<string, string>>)
    ensures records == Records(values, headerRow, headers)
  {
    var rows := DataRows(values, headerRow);
    records := [];
    for i := 0 to |rows|
      invariant records == Collect(rows[..i], RecordOfRow(headers))
    {
      assert rows[..i + 1][..i] == rows[..i];
      assert rows[..i + 1][i] == rows[i];
      var blank := BlankRow(rows[i]);
      if !blank {
        var d := BuildRecord(rows[i], headers);
        records := records + [d];
      }
    }
    assert rows[..|rows|] == rows;
  }

  /** The `all(...)` test of `_build_records` on one row. */
  method BlankRow(row: seq<string>) returns (blank: bool)
    ensures blank == IsBlankRow(row)
  {
    blank := true;
    for j := 0 to |row|
      invariant blank == IsBlankRow(row[..j])
    {
      assert row[..j + 1][..j] == row[..j];
      if Strip(row[j]) != "" {
        blank := false;
      }
    }
    assert row[..|row|] == row;
  }

  // ---------------------------------------------------------------------
  // _col_letter
  // ---------------------------------------------------------------------

  predicate IsUpperLetter(c: char) { 'A' <= c <= 'Z' }

  /** The bijective base-26 numeral of `n` (1 is "A", 26 is "Z", 27 is "AA"); "" for 0. */
  function Letters(n: nat): (s: string)
    ensures forall i :: 0 <= i < |s| ==> IsUpperLetter(s[i])
    ensures n > 0 <==> |s| > 0
  {
    if n == 0 then "" else Letters((n - 1) / 26) + [(65 + (n - 1) % 26) as char]
  }

  /** The column letter of a 0-based column index. */
  function ColLetter(index: nat): (s: string)
    ensures |s| > 0
  {
    Letters(index + 1)
  }

  /** The number a column name stands for, reading each letter as a digit 1..26. */
  function LettersValue(s: string): nat
    requires forall i :: 0 <= i < |s| ==> IsUpperLetter(s[i])
  {
    if |s| == 0 then 0
    else
      var c := s[|s| - 1];
      assert IsUpperLetter(c);
      LettersValue(s[..|s| - 1]) * 26 + (c as int - 64)
  }

  /** Reading a column name back gives the number it was made from. */
  lemma {:induction false} LettersRoundTrip(n: nat)
    ensures LettersValue(Letters(n)) == n
  {
    if n > 0 {
      var s := Letters(n);
      LettersRoundTrip((n - 1) / 26);
      assert s[..|s| - 1] == Letters((n - 1) / 26);
    }
  }

  /** Every non-empty name of capital letters is the name of exactly the number it reads as. */
  lemma {:induction false} LettersOfValue(s: string)
    requires forall i :: 0 <= i < |s| ==> IsUpperLetter(s[i])
    ensures Letters(LettersValue(s)) == s
  {
    if |s| > 0 {
      var init := s[..|s| - 1];
      var d := s[|s| - 1] as int - 64;
      LettersOfValue(init);
      var n := LettersValue(s);
      assert n == LettersValue(init) * 26 + d && 1 <= d <= 26;
      assert (n - 1) / 26 == LettersValue(init);
      assert (n - 1) % 26 == d - 1;
      assert s == init + [s[|s| - 1]];
    }
  }

  /** Column letters are a bijection between 0-based indexes and non-empty capital-letter names. */
  lemma ColLetterBijective(index: nat, s: string)
    requires |s| > 0 && forall i :: 0 <= i < |s| ==> IsUpperLetter(s[i])
    ensures LettersValue(ColLetter(index)) == index + 1
    ensures ColLetter(index) == s <==> LettersValue(s) == index + 1
  {
    LettersRoundTrip(index + 1);
    LettersOfValue(s);
  }

  /** The while loop of `_col_letter`, collecting letters least significant first. */
  method ColLetterLoop(index: nat) returns (s: string)
    ensures s == ColLetter(index)
  {
    var n: nat := index + 1;
    s := "";
    while n > 0
      invariant Letters(n) + s == ColLetter(index)
      decreases n
    {
      var rem := (n - 1) % 26;
      assert Letters(n) == Letters((n - 1) / 26) + [(65 + rem) as char];
      n := (n - 1) / 26;
      s := [(65 + rem) as char] + s;
    }
  }
}
