/**
 * Shared vocabulary of the model: optional values and the handful of
 * Python string operations the services rely on (strip, lower, `in`,
 * `split`, `join`, `int()`, `str.isdigit`), the `/(\d{N,})` place-id
 * extractor and the code-point order Python uses to compare strings.
 */
module Common {

  datatype Option<T> = None | Some(value: T)

  // ---------------------------------------------------------------------
  // Characters
  // ---------------------------------------------------------------------

  /** The characters `str.isspace` (and so `str.strip` and regex `\s`) treat as whitespace. */
  predicate IsSpace(c: char) {
    c == ' ' || ('\t' <= c <= '\r') || ('\U{1C}' <= c <= '\U{1F}') || c == '\U{85}' || c == '\U{A0}'
    || c == '\U{1680}' || ('\U{2000}' <= c <= '\U{200A}') || c == '\U{2028}' || c == '\U{2029}'
    || c == '\U{202F}' || c == '\U{205F}' || c == '\U{3000}'
  }

  predicate IsDigit(c: char) { '0' <= c <= '9' }

  function LowerChar(c: char): (r: char)
    ensures 'A' <= c <= 'Z' ==> 'a' <= r <= 'z'
    ensures !('A' <= c <= 'Z') ==> r == c
  {
    if 'A' <= c <= 'Z' then (c as int + 32) as char else c
  }

  function UpperChar(c: char): (r: char)
    ensures 'a' <= c <= 'z' ==> 'A' <= r <= 'Z'
    ensures !('a' <= c <= 'z') ==> r == c
  {
    if 'a' <= c <= 'z' then (c as int - 32) as char else c
  }

  /** `str.lower()` on the ASCII letters; every other character is kept. */
  function Lower(s: string): (r: string)
    ensures |r| == |s|
    ensures forall i :: 0 <= i < |s| ==> r[i] == LowerChar(s[i])
  {
    seq(|s|, i requires 0 <= i < |s| => LowerChar(s[i]))
  }

  /** `str.upper()` on the ASCII letters. */
  function Upper(s: string): (r: string)
    ensures |r| == |s|
    ensures forall i :: 0 <= i < |s| ==> r[i] == UpperChar(s[i])
  {
    seq(|s|, i requires 0 <= i < |s| => UpperChar(s[i]))
  }

  lemma LowerIdempotent(s: string)
    ensures Lower(Lower(s)) == Lower(s)
  {
  }

  // ---------------------------------------------------------------------
  // strip()
  // ---------------------------------------------------------------------

  /** The number of whitespace characters `s` starts with. */
  function Lead(s: string): (n: nat)
    ensures n <= |s|
  {
    if |s| > 0 && IsSpace(s[0]) then 1 + Lead(s[1..]) else 0
  }

  /** The number of whitespace characters `s` ends with. */
  function Trail(s: string): (n: nat)
    ensures n <= |s|
  {
    if |s| > 0 && IsSpace(s[|s| - 1]) then 1 + Trail(s[..|s| - 1]) else 0
  }

  /** `str.strip()`: drop the leading whitespace, then the trailing whitespace. */
  function Strip(s: string): string {
    var t := s[Lead(s)..];
    t[..|t| - Trail(t)]
  }

  /** `Lead` counts whitespace and stops at the first other character. */
  lemma {:induction false} LeadSpec(s: string)
    ensures forall i :: 0 <= i < Lead(s) ==> IsSpace(s[i])
    ensures Lead(s) < |s| ==> !IsSpace(s[Lead(s)])
  {
    if |s| > 0 && IsSpace(s[0]) {
      LeadSpec(s[1..]);
      forall i | 0 <= i < Lead(s)
        ensures IsSpace(s[i])
      {
        if i > 0 {
          assert s[i] == s[1..][i - 1];
        }
      }
      if Lead(s) < |s| {
        assert s[Lead(s)] == s[1..][Lead(s[1..])];
      }
    }
  }

  /** `Trail` counts whitespace from the end and stops at the last other character. */
  lemma {:induction false} TrailSpec(s: string)
    ensures forall i :: |s| - Trail(s) <= i < |s| ==> IsSpace(s[i])
    ensures Trail(s) < |s| ==> !IsSpace(s[|s| - 1 - Trail(s)])
  {
    if |s| > 0 && IsSpace(s[|s| - 1]) {
      var init := s[..|s| - 1];
      TrailSpec(init);
      forall i | |s| - Trail(s) <= i < |s|
        ensures IsSpace(s[i])
      {
        if i < |s| - 1 {
          assert s[i] == init[i];
        }
      }
      if Trail(s) < |s| {
        assert s[|s| - 1 - Trail(s)] == init[|init| - 1 - Trail(init)];
      }
    }
  }

  /** What strip() keeps is shorter than the text and has no whitespace at either end. */
  lemma {:induction false} StripEnds(s: string)
    ensures |Strip(s)| <= |s|
    ensures Strip(s) == [] || (!IsSpace(Strip(s)[0]) && !IsSpace(Strip(s)[|Strip(s)| - 1]))
  {
    var t := s[Lead(s)..];
    var r := Strip(s);
    LeadSpec(s);
    TrailSpec(t);
    if r != [] {
      assert r[0] == t[0] == s[Lead(s)];
      assert r[|r| - 1] == t[|t| - 1 - Trail(t)];
    }
  }

  /** What strip() removes is whitespace, and what it keeps is one contiguous piece of the text. */
  lemma {:induction false} StripSpec(s: string)
    ensures exists a :: StrippedAt(s, Strip(s), a)
  {
    var a := Lead(s);
    var t := s[a..];
    var r := Strip(s);
    LeadSpec(s);
    TrailSpec(t);
    assert r == s[a..a + |r|];
    forall i | a + |r| <= i < |s|
      ensures IsSpace(s[i])
    {
      assert s[i] == t[i - a];
    }
    assert StrippedAt(s, r, a);
  }

  /** `r` sits at offset `a` of `s` and everything around it is whitespace. */
  predicate StrippedAt(s: string, r: string, a: int) {
    0 <= a <= |s| - |r| && r == s[a..a + |r|]
    && (forall i :: 0 <= i < a ==> IsSpace(s[i]))
    && (forall i :: a + |r| <= i < |s| ==> IsSpace(s[i]))
  }

  /** Text without whitespace at either end is its own strip. */
  lemma {:induction false} StripUnchanged(s: string)
    requires s == [] || (!IsSpace(s[0]) && !IsSpace(s[|s| - 1]))
    ensures Strip(s) == s
  {
    assert Lead(s) == 0;
    assert s[0..] == s;
    assert Trail(s) == 0;
  }

  lemma {:induction false} StripIdempotent(s: string)
    ensures Strip(Strip(s)) == Strip(s)
  {
    StripEnds(s);
    StripUnchanged(Strip(s));
  }

  /** `x.strip() == ""` exactly when `x` is all whitespace. */
  lemma {:induction false} StripEmptyIff(s: string)
    ensures Strip(s) == [] <==> forall i :: 0 <= i < |s| ==> IsSpace(s[i])
  {
    StripSpec(s);
    StripEnds(s);
    if Strip(s) != [] {
      var a :| StrippedAt(s, Strip(s), a);
      assert s[a] == Strip(s)[0];
    }
  }

  /** ASCII case does not change what counts as whitespace, so strip() and upper() commute. */
  lemma {:induction false} StripUpper(s: string)
    ensures Strip(Upper(s)) == Upper(Strip(s))
  {
    LeadUpper(s);
    var t := s[Lead(s)..];
    assert Upper(s)[Lead(s)..] == Upper(t);
    TrailUpper(t);
    assert Upper(t)[..|t| - Trail(t)] == Upper(t[..|t| - Trail(t)]);
  }

  lemma {:induction false} LeadUpper(s: string)
    ensures Lead(Upper(s)) == Lead(s)
  {
    if |s| > 0 {
      assert Upper(s)[1..] == Upper(s[1..]);
      LeadUpper(s[1..]);
    }
  }

  lemma {:induction false} TrailUpper(s: string)
    ensures Trail(Upper(s)) == Trail(s)
  {
    if |s| > 0 {
      assert Upper(s)[..|s| - 1] == Upper(s[..|s| - 1]);
      TrailUpper(s[..|s| - 1]);
    }
  }

  lemma LowerUpper(s: string)
    ensures Lower(Upper(s)) == Lower(s)
  {
  }

  // ---------------------------------------------------------------------
  // Substrings, find, split, join
  // ---------------------------------------------------------------------

  predicate IsAt(s: string, sub: string, i: int) {
    0 <= i && i + |sub| <= |s| && s[i..i + |sub|] == sub
  }

  /** Python's `sub in s`. */
  predicate Contains(s: string, sub: string) {
    exists i | 0 <= i <= |s| - |sub| :: IsAt(s, sub, i)
  }

  predicate StartsWith(s: string, prefix: string) {
    |prefix| <= |s| && s[..|prefix|] == prefix
  }

  lemma ContainsEmpty(s: string)
    ensures Contains(s, "")
  {
    assert IsAt(s, "", 0);
  }

  /** A substring of a part is a substring of the whole. */
  lemma ContainsInfix(s: string, a: nat, b: nat, sub: string)
    requires a <= b <= |s| && Contains(s[a..b], sub)
    ensures Contains(s, sub)
  {
    var i :| 0 <= i <= |s[a..b]| - |sub| && IsAt(s[a..b], sub, i);
    forall k | 0 <= k < |sub|
      ensures s[a + i..a + i + |sub|][k] == sub[k]
    {
      assert sub[k] == s[a..b][i..i + |sub|][k] == s[a + i + k];
    }
    assert s[a + i..a + i + |sub|] == sub;
    assert IsAt(s, sub, a + i);
  }

  /** Index of the first occurrence of `c`, as `str.find` (with -1 as None). */
  function IndexOf(s: string, c: char): (r: Option<nat>)
    ensures r.Some? ==> r.value < |s| && s[r.value] == c && c !in s[..r.value]
    ensures r.None? <==> c !in s
  {
    if |s| == 0 then None
    else if s[0] == c then Some(0)
    else match IndexOf(s[1..], c)
      case None => None
      case Some(k) => assert s[..k + 1] == [s[0]] + s[1..][..k]; Some(k + 1)
  }

  /** The first `c` of `a + [c] + b` is the one after `a` when `a` has none. */
  lemma {:induction false} IndexOfAfter(a: string, c: char, b: string)
    requires c !in a
    ensures IndexOf(a + [c] + b, c) == Some(|a|)
  {
    if |a| > 0 {
      IndexOfAfter(a[1..], c, b);
      assert (a + [c] + b)[1..] == a[1..] + [c] + b;
    }
  }

  /** Index of the first element equal to `x`, as `list.index` (with ValueError as None). */
  function Find<T(==)>(s: seq<T>, x: T): (r: Option<nat>)
    ensures r.Some? ==> r.value < |s| && s[r.value] == x && x !in s[..r.value]
    ensures r.None? <==> x !in s
  {
    if |s| == 0 then None
    else if s[0] == x then Some(0)
    else match Find(s[1..], x)
      case None => None
      case Some(k) => assert s[..k + 1] == [s[0]] + s[1..][..k]; Some(k + 1)
  }

  /** The first occurrence is the one `Find` reports. */
  lemma FindFirst<T>(s: seq<T>, x: T, i: nat)
    requires i < |s| && s[i] == x && x !in s[..i]
    ensures Find(s, x) == Some(i)
  {
  }

  /** `s.split(sep)` for a one-character separator. */
  function Split(s: string, sep: char): (parts: seq<string>)
    ensures |parts| >= 1
    ensures forall i :: 0 <= i < |parts| ==> sep !in parts[i]
    decreases |s|
  {
    match IndexOf(s, sep)
      case None => [s]
      case Some(k) => [s[..k]] + Split(s[k + 1..], sep)
  }

  /** `s.replace(c, "")` for a single character. */
  function RemoveChar(s: string, c: char): (r: string)
    ensures c !in r && |r| <= |s|
  {
    if |s| == 0 then "" else (if s[0] == c then "" else [s[0]]) + RemoveChar(s[1..], c)
  }

  /** `sep.join(parts)`. */
  function Join(parts: seq<string>, sep: string): string {
    if |parts| == 0 then ""
    else if |parts| == 1 then parts[0]
    else parts[0] + sep + Join(parts[1..], sep)
  }

  /** Joining the pieces of a split with the separator gives the text back. */
  lemma {:induction false} JoinSplit(s: string, sep: char)
    ensures Join(Split(s, sep), [sep]) == s
    decreases |s|
  {
    match IndexOf(s, sep)
    case None =>
    case Some(k) =>
      var rest := Split(s[k + 1..], sep);
      JoinSplit(s[k + 1..], sep);
      assert Split(s, sep) == [s[..k]] + rest;
      assert Join(Split(s, sep), [sep]) == s[..k] + [sep] + Join(rest, [sep]);
      assert s == s[..k] + [sep] + s[k + 1..];
  }

  /** The values `f` gives the rows, in row order, rows giving `None` left out. */
  function Collect<T>(rows: seq<seq<string>>, f: seq<string> -> Option<T>): (r: seq<T>)
    ensures |r| <= |rows|
  {
    if |rows| == 0 then []
    else
      var init := Collect(rows[..|rows| - 1], f);
      match f(rows[|rows| - 1])
      case Some(x) => init + [x]
      case None => init
  }

  /** Every collected value comes from a row, and every row's value is collected. */
  lemma {:induction false} CollectSpec<T>(rows: seq<seq<string>>, f: seq<string> -> Option<T>)
    ensures forall x :: x in Collect(rows, f) <==> exists k :: 0 <= k < |rows| && f(rows[k]) == Some(x)
  {
    if |rows| > 0 {
      var n := |rows| - 1;
      CollectSpec(rows[..n], f);
      forall x
        ensures x in Collect(rows, f) <==> exists k :: 0 <= k < |rows| && f(rows[k]) == Some(x)
      {
        if exists k :: 0 <= k < |rows| && f(rows[k]) == Some(x) {
          var k :| 0 <= k < |rows| && f(rows[k]) == Some(x);
          if k < n {
            assert rows[..n][k] == rows[k];
          }
        }
        if x in Collect(rows[..n], f) {
          var k :| 0 <= k < n && f(rows[..n][k]) == Some(x);
          assert rows[..n][k] == rows[k];
        }
      }
    }
  }

  /** Splitting a join of separator-free pieces gives the pieces back. */
  lemma {:induction false} SplitJoin(parts: seq<string>, sep: char)
    requires |parts| >= 1
    requires forall i :: 0 <= i < |parts| ==> sep !in parts[i]
    ensures Split(Join(parts, [sep]), sep) == parts
    decreases |parts|
  {
    if |parts| > 1 {
      SplitCons(parts[0], sep, Join(parts[1..], [sep]));
      SplitJoin(parts[1..], sep);
      assert parts == [parts[0]] + parts[1..];
    }
  }

  /** Splitting at a first separator after a piece without one gives that piece first. */
  lemma SplitCons(a: string, sep: char, rest: string)
    requires sep !in a
    ensures Split(a + [sep] + rest, sep) == [a] + Split(rest, sep)
  {
    var s := a + [sep] + rest;
    IndexOfAfter(a, sep, rest);
    assert s[..|a|] == a;
    assert s[|a| + 1..] == rest;
  }

  // ---------------------------------------------------------------------
  // First-seen de-duplication (`if x not in xs: xs.append(x)`)
  // ---------------------------------------------------------------------

  predicate Distinct<T(==)>(xs: seq<T>) {
    forall i, j :: 0 <= i < j < |xs| ==> xs[i] != xs[j]
  }

  /** Without its last element a list without repeats keeps none, and does not hold that element. */
  lemma DistinctInit<T>(xs: seq<T>)
    requires |xs| > 0 && Distinct(xs)
    ensures Distinct(xs[..|xs| - 1]) && xs[|xs| - 1] !in xs[..|xs| - 1]
  {
  }

  /** Appending `x` unless it is already there. */
  function AddNew<T(==)>(xs: seq<T>, x: T): seq<T> {
    if x in xs then xs else xs + [x]
  }

  /** `AddNew` adds exactly `x`, and keeps a sequence without repeats free of them. */
  lemma AddNewSpec<T>(xs: seq<T>, x: T)
    ensures forall y :: y in AddNew(xs, x) <==> y in xs || y == x
    ensures Distinct(xs) ==> Distinct(AddNew(xs, x))
  {
  }

  /** The items of `xs` in the order they are first seen, each once. */
  function Dedup<T(==)>(xs: seq<T>): (r: seq<T>)
  {
    if |xs| == 0 then [] else AddNew(Dedup(xs[..|xs| - 1]), xs[|xs| - 1])
  }

  /** De-duplication keeps exactly the items of the input, without repeats. */
  lemma {:induction false} DedupSpec<T>(xs: seq<T>)
    ensures Distinct(Dedup(xs))
    ensures forall y :: y in Dedup(xs) <==> y in xs
  {
    if |xs| > 0 {
      var init := xs[..|xs| - 1];
      DedupSpec(init);
      AddNewSpec(Dedup(init), xs[|xs| - 1]);
      assert xs == init + [xs[|xs| - 1]];
    }
  }

  /** A sequence without repeats is its own de-duplication. */
  lemma {:induction false} DedupDistinct<T>(xs: seq<T>)
    requires Distinct(xs)
    ensures Dedup(xs) == xs
  {
    if |xs| > 0 {
      var init := xs[..|xs| - 1];
      DedupDistinct(init);
      assert xs[|xs| - 1] !in init;
      LastSplit(xs);
    }
  }

  /** De-duplicating one more item adds it unless it was seen before. */
  lemma DedupSnoc<T>(xs: seq<T>, x: T)
    ensures Dedup(xs + [x]) == AddNew(Dedup(xs), x)
  {
    assert (xs + [x])[..|xs|] == xs;
  }

  lemma LastSplit<T>(xs: seq<T>)
    requires |xs| > 0
    ensures xs == xs[..|xs| - 1] + [xs[|xs| - 1]]
  {
  }

  // ---------------------------------------------------------------------
  // Left folds (a loop that updates one accumulator per item)
  // ---------------------------------------------------------------------

  function Fold<M, E>(m: M, es: seq<E>, add: (M, E) -> M): M {
    if |es| == 0 then m else add(Fold(m, es[..|es| - 1], add), es[|es| - 1])
  }

  /** Folding a concatenation folds the second part onto the result of the first. */
  lemma {:induction false} FoldAppend<M, E>(m: M, xs: seq<E>, ys: seq<E>, add: (M, E) -> M)
    ensures Fold(m, xs + ys, add) == Fold(Fold(m, xs, add), ys, add)
  {
    if |ys| > 0 {
      var init := ys[..|ys| - 1];
      FoldAppend(m, xs, init, add);
      assert (xs + ys)[..|xs + ys| - 1] == xs + init;
    } else {
      assert xs + ys == xs;
    }
  }

  /** The accumulator loop. */
  method FoldLoop<M, E>(m0: M, es: seq<E>, add: (M, E) -> M) returns (m: M)
    ensures m == Fold(m0, es, add)
  {
    m := m0;
    for i := 0 to |es|
      invariant m == Fold(m0, es[..i], add)
    {
      assert es[..i + 1][..i] == es[..i];
      m := add(m, es[i]);
    }
    assert es[..|es|] == es;
  }

  // ---------------------------------------------------------------------
  // Digits and integers as text
  // ---------------------------------------------------------------------

  predicate AllDigits(s: string) {
    forall i :: 0 <= i < |s| ==> IsDigit(s[i])
  }

  /** `str.isdigit()` on ASCII digits: non-empty and every character a digit. */
  predicate IsDigitString(s: string) {
    |s| > 0 && AllDigits(s)
  }

  function DigitValue(c: char): nat
    requires IsDigit(c)
  {
    c as int - '0' as int
  }

  function DigitChar(d: nat): (c: char)
    requires d < 10
    ensures IsDigit(c) && DigitValue(c) == d
  {
    ('0' as int + d) as char
  }

  /** The value of a decimal digit string, as `int()` reads it (leading zeros allowed). */
  function NatOf(s: string): nat
    requires AllDigits(s)
  {
    if |s| == 0 then 0 else NatOf(s[..|s| - 1]) * 10 + DigitValue(s[|s| - 1])
  }

  function Pow10(k: nat): (p: nat)
    ensures p >= 1
  {
    if k == 0 then 1 else 10 * Pow10(k - 1)
  }

  lemma {:induction false} NatOfBound(s: string)
    requires AllDigits(s)
    ensures NatOf(s) < Pow10(|s|)
  {
    if |s| > 0 {
      NatOfBound(s[..|s| - 1]);
    }
  }

  /** `str(n)` for a natural number. */
  function NatToString(n: nat): (r: string)
    ensures IsDigitString(r)
    ensures |r| > 1 ==> r[0] != '0'
  {
    if n < 10 then [DigitChar(n)] else NatToString(n / 10) + [DigitChar(n % 10)]
  }

  /** `str(i)` for any integer. */
  function IntToString(i: int): (r: string)
    ensures |r| > 0
  {
    if i < 0 then "-" + NatToString(-i) else NatToString(i)
  }

  /** The digits of a text in order, as `re.sub(r"[^\d]", "", s)` leaves them. */
  function DigitsOf(s: string): (r: string)
    ensures AllDigits(r) && |r| <= |s|
    ensures forall i :: 0 <= i < |s| && IsDigit(s[i]) ==> s[i] in r
  {
    if |s| == 0 then ""
    else (if IsDigit(s[0]) then [s[0]] else "") + DigitsOf(s[1..])
  }

  /** `int()` on text that has already been stripped: an optional sign, then at least one digit. */
  function ParseSigned(t: string): Option<int>
  {
    if |t| > 0 && (t[0] == '-' || t[0] == '+') then
      if IsDigitString(t[1..]) then
        Some(if t[0] == '-' then -(NatOf(t[1..]) as int) else NatOf(t[1..]))
      else None
    else if IsDigitString(t) then Some(NatOf(t))
    else None
  }

  /**
   * Python `int(text)` on text: surrounding whitespace is ignored, an
   * optional sign is allowed and at least one digit must follow; anything
   * else raises ValueError, modelled as None.
   */
  function ParseInt(s: string): Option<int>
  {
    ParseSigned(Strip(s))
  }

  lemma {:induction false} NatOfNatToString(n: nat)
    ensures NatOf(NatToString(n)) == n
  {
    if n >= 10 {
      NatOfNatToString(n / 10);
      var r := NatToString(n);
      assert r[..|r| - 1] == NatToString(n / 10);
    }
  }

  lemma {:induction false} ParseSignedOfDigits(s: string)
    requires IsDigitString(s)
    ensures ParseSigned(s) == Some(NatOf(s) as int)
  {
    assert IsDigit(s[0]);
  }

  /** `str(i)` has no whitespace at either end. */
  lemma {:induction false} IntToStringStripped(i: int)
    ensures Strip(IntToString(i)) == IntToString(i)
  {
    var r := IntToString(i);
    assert IsDigit(r[|r| - 1]);
    assert r[0] == '-' || IsDigit(r[0]);
    StripUnchanged(r);
  }

  lemma {:induction false} ParseSignedToString(i: int)
    ensures ParseSigned(IntToString(i)) == Some(i)
  {
    var r := IntToString(i);
    if i < 0 {
      var d := NatToString(-i);
      assert r[1..] == d;
      NatOfNatToString(-i);
    } else {
      NatOfNatToString(i);
      ParseSignedOfDigits(r);
    }
  }

  /** Reading back the text `str(i)` with `int()` gives `i`. */
  lemma {:induction false} ParseIntToString(i: int)
    ensures ParseInt(IntToString(i)) == Some(i)
  {
    IntToStringStripped(i);
    ParseSignedToString(i);
  }

  lemma {:induction false} ParseIntOfDigits(s: string)
    requires IsDigitString(s)
    ensures ParseInt(s) == Some(NatOf(s) as int)
  {
    assert IsDigit(s[0]) && IsDigit(s[|s| - 1]);
    StripUnchanged(s);
    ParseSignedOfDigits(s);
  }

  // ---------------------------------------------------------------------
  // re.search(r"/(\d{N,})", s).group(1)
  // ---------------------------------------------------------------------

  /** Length of the run of digits starting at `i`. */
  function DigitRun(s: string, i: nat): (n: nat)
    requires i <= |s|
    ensures i + n <= |s| && AllDigits(s[i..i + n])
    ensures i + n == |s| || !IsDigit(s[i + n])
    decreases |s| - i
  {
    if i < |s| && IsDigit(s[i]) then 1 + DigitRun(s, i + 1) else 0
  }

  predicate SlashRunAt(s: string, i: nat, minLen: nat) {
    i < |s| && s[i] == '/' && DigitRun(s, i + 1) >= minLen
  }

  function SlashRunFrom(s: string, minLen: nat, from: nat): (r: Option<string>)
    requires from <= |s|
    ensures r.Some? ==> |r.value| >= minLen && AllDigits(r.value)
    decreases |s| - from
  {
    if from == |s| then None
    else if SlashRunAt(s, from, minLen) then Some(s[from + 1..from + 1 + DigitRun(s, from + 1)])
    else SlashRunFrom(s, minLen, from + 1)
  }

  /**
   * `re.search(r"/(\d{minLen,})", s)`: the whole digit run after the
   * leftmost '/' that is followed by at least `minLen` digits.
   */
  function SlashDigits(s: string, minLen: nat): (r: Option<string>)
    ensures r.Some? ==> |r.value| >= minLen && AllDigits(r.value)
  {
    SlashRunFrom(s, minLen, 0)
  }

  /** The extractor finds the leftmost qualifying '/' and the maximal digit run after it. */
  lemma {:induction false} SlashRunFromSpec(s: string, minLen: nat, from: nat)
    requires from <= |s|
    ensures SlashRunFrom(s, minLen, from).None? <==> forall i :: from <= i < |s| ==> !SlashRunAt(s, i, minLen)
    ensures SlashRunFrom(s, minLen, from).Some? ==>
      exists i :: from <= i < |s| && SlashRunAt(s, i, minLen)
        && (forall j :: from <= j < i ==> !SlashRunAt(s, j, minLen))
        && SlashRunFrom(s, minLen, from).value == s[i + 1..i + 1 + DigitRun(s, i + 1)]
    decreases |s| - from
  {
    if from < |s| && !SlashRunAt(s, from, minLen) {
      SlashRunFromSpec(s, minLen, from + 1);
      if SlashRunFrom(s, minLen, from).Some? {
        var i :| from + 1 <= i < |s| && SlashRunAt(s, i, minLen)
          && (forall j :: from + 1 <= j < i ==> !SlashRunAt(s, j, minLen))
          && SlashRunFrom(s, minLen, from + 1).value == s[i + 1..i + 1 + DigitRun(s, i + 1)];
        assert forall j :: from <= j < i ==> !SlashRunAt(s, j, minLen);
      }
    }
  }

  lemma SlashDigitsSpec(s: string, minLen: nat)
    ensures SlashDigits(s, minLen).None? <==> forall i :: 0 <= i < |s| ==> !SlashRunAt(s, i, minLen)
    ensures SlashDigits(s, minLen).Some? ==>
      exists i :: 0 <= i < |s| && SlashRunAt(s, i, minLen)
        && (forall j :: 0 <= j < i ==> !SlashRunAt(s, j, minLen))
        && SlashDigits(s, minLen).value == s[i + 1..i + 1 + DigitRun(s, i + 1)]
  {
    SlashRunFromSpec(s, minLen, 0);
  }

  // ---------------------------------------------------------------------
  // Python's string order (code point by code point)
  // ---------------------------------------------------------------------

  predicate StrLess(a: string, b: string) {
    if |a| == 0 then |b| > 0
    else if |b| == 0 then false
    else if a[0] != b[0] then a[0] < b[0]
    else StrLess(a[1..], b[1..])
  }

  predicate StrLessEq(a: string, b: string) {
    a == b || StrLess(a, b)
  }

  lemma {:induction false} StrLessIrreflexive(a: string)
    ensures !StrLess(a, a)
  {
    if |a| > 0 {
      StrLessIrreflexive(a[1..]);
    }
  }

  lemma {:induction false} StrLessTransitive(a: string, b: string, c: string)
    requires StrLess(a, b) && StrLess(b, c)
    ensures StrLess(a, c)
  {
    if |a| > 0 && |b| > 0 && |c| > 0 && a[0] == b[0] && b[0] == c[0] {
      StrLessTransitive(a[1..], b[1..], c[1..]);
    }
  }

  lemma {:induction false} StrLessTotal(a: string, b: string)
    ensures a == b || StrLess(a, b) || StrLess(b, a)
  {
    if |a| > 0 && |b| > 0 && a[0] == b[0] {
      StrLessTotal(a[1..], b[1..]);
      if a[1..] == b[1..] {
        assert a == [a[0]] + a[1..] && b == [b[0]] + b[1..];
      }
    }
  }
}
