/**
 * Calendar dates as the services see them: proleptic Gregorian dates,
 * their day numbers (`date.toordinal()`, 0001-01-01 is day 1), the ISO
 * text `date.isoformat()` produces, the `strptime("%Y-%m-%d")` parse and
 * the `"%y. %m. %d"` text the guarantee sheets use in their day cells.
 */
module Dates {
  import opened Common

  datatype Date = Date(year: int, month: int, day: int)

  predicate IsLeap(y: int) {
    y % 4 == 0 && (y % 100 != 0 || y % 400 == 0)
  }

  function DaysInMonth(y: int, m: int): (n: int)
    requires 1 <= m <= 12
    ensures 28 <= n <= 31
  {
    if m == 2 then (if IsLeap(y) then 29 else 28)
    else if m == 4 || m == 6 || m == 9 || m == 11 then 30
    else 31
  }

  function DaysInYear(y: int): int {
    if IsLeap(y) then 366 else 365
  }

  predicate ValidDate(d: Date) {
    d.year >= 1 && 1 <= d.month <= 12 && 1 <= d.day <= DaysInMonth(d.year, d.month)
  }

  function DaysBeforeYear(y: int): nat
    requires y >= 1
  {
    if y == 1 then 0 else DaysBeforeYear(y - 1) + DaysInYear(y - 1)
  }

  function DaysBeforeMonth(y: int, m: int): nat
    requires 1 <= m <= 12
  {
    if m == 1 then 0 else DaysBeforeMonth(y, m - 1) + DaysInMonth(y, m - 1)
  }

  lemma {:induction false} DaysBeforeDecember(y: int)
    ensures DaysBeforeMonth(y, 12) + 31 == DaysInYear(y)
  {
    assert DaysBeforeMonth(y, 12) == DaysBeforeMonth(y, 11) + 30;
    assert DaysBeforeMonth(y, 11) == DaysBeforeMonth(y, 10) + 31;
    assert DaysBeforeMonth(y, 10) == DaysBeforeMonth(y, 9) + 30;
    assert DaysBeforeMonth(y, 9) == DaysBeforeMonth(y, 8) + 31;
    assert DaysBeforeMonth(y, 8) == DaysBeforeMonth(y, 7) + 31;
    assert DaysBeforeMonth(y, 7) == DaysBeforeMonth(y, 6) + 30;
    assert DaysBeforeMonth(y, 6) == DaysBeforeMonth(y, 5) + 31;
    assert DaysBeforeMonth(y, 5) == DaysBeforeMonth(y, 4) + 30;
    assert DaysBeforeMonth(y, 4) == DaysBeforeMonth(y, 3) + 31;
    assert DaysBeforeMonth(y, 3) == DaysBeforeMonth(y, 2) + DaysInMonth(y, 2);
    assert DaysBeforeMonth(y, 2) == 31;
  }

  /** `date.toordinal()`. */
  function ToOrdinal(d: Date): int
    requires ValidDate(d)
  {
    DaysBeforeYear(d.year) + DaysBeforeMonth(d.year, d.month) + d.day
  }

  /** Splits a 0-based day count starting at the first day of year `y` into a year and a day of that year. */
  function YearOf(k: nat, y: int): (r: (int, nat))
    requires y >= 1
    ensures r.0 >= y && r.1 < DaysInYear(r.0)
    ensures DaysBeforeYear(r.0) + r.1 == DaysBeforeYear(y) + k
    decreases k
  {
    if k < DaysInYear(y) then (y, k) else YearOf(k - DaysInYear(y), y + 1)
  }

  /** Splits a 0-based day of year, counted from the first day of month `m`, into a month and a day of month. */
  function MonthOf(k: nat, y: int, m: int): (r: (int, int))
    requires 1 <= m <= 12
    requires DaysBeforeMonth(y, m) + k < DaysInYear(y)
    ensures m <= r.0 <= 12 && 1 <= r.1 <= DaysInMonth(y, r.0)
    ensures DaysBeforeMonth(y, r.0) + r.1 == DaysBeforeMonth(y, m) + k + 1
    decreases 12 - m
  {
    if k < DaysInMonth(y, m) then (m, k + 1)
    else
      DaysBeforeDecember(y);
      MonthOf(k - DaysInMonth(y, m), y, m + 1)
  }

  /** `date.fromordinal(n)`. */
  function FromOrdinal(n: int): (d: Date)
    requires n >= 1
    ensures ValidDate(d)
  {
    var (y, k) := YearOf(n - 1, 1);
    var (m, day) := MonthOf(k, y, 1);
    Date(y, m, day)
  }

  /** Day numbers and dates correspond: converting a day number to a date and back gives the same number. */
  lemma OrdinalRoundTrip(n: int)
    requires n >= 1
    ensures ToOrdinal(FromOrdinal(n)) == n
  {
  }

  /** `date.weekday()`: Monday is 0 and Sunday is 6. */
  function Weekday(n: int): (w: int)
    ensures 0 <= w < 7
  {
    (n + 6) % 7
  }

  /** Weekdays repeat every seven days, and day 1 (0001-01-01) is a Monday. */
  lemma WeekdayPeriodic(n: int)
    ensures Weekday(n + 7) == Weekday(n)
    ensures Weekday(1) == 0
  {
  }

  // ---------------------------------------------------------------------
  // Text forms
  // ---------------------------------------------------------------------

  /** Two-digit zero-padded text of 0..99, as `%02d` / `%m` / `%d` print it. */
  function Pad2(n: int): (r: string)
    requires 0 <= n < 100
    ensures |r| == 2 && AllDigits(r) && NatOf(r) == n
  {
    var r := [DigitChar(n / 10), DigitChar(n % 10)];
    assert r[..1] == [DigitChar(n / 10)];
    assert r[..1][..0] == [];
    assert NatOf(r[..1]) == n / 10;
    r
  }

  /** Four-digit zero-padded year, as `date.isoformat()` prints it. */
  function Pad4(n: int): (r: string)
    requires 0 <= n < 10000
    ensures |r| == 4 && AllDigits(r) && NatOf(r) == n
  {
    var hi := Pad2(n / 100);
    var lo := Pad2(n % 100);
    var r := hi + lo;
    assert r[..3] == hi + [lo[0]];
    assert r[..2] == hi;
    r
  }

  /** `date.isoformat()`: "YYYY-MM-DD". */
  function Iso(d: Date): (s: string)
    requires ValidDate(d) && d.year <= 9999
    ensures |s| == 10 && s[4] == '-' && s[7] == '-'
  {
    Pad4(d.year) + "-" + Pad2(d.month) + "-" + Pad2(d.day)
  }

  /** `date.fromordinal(n).isoformat()`; none outside the years 1 to 9999, where Python raises OverflowError. */
  function IsoOfDay(n: int): (r: Option<string>)
    ensures r.Some? ==> n >= 1 && FromIsoFormat(r.value).Some? && ToOrdinal(FromIsoFormat(r.value).value) == n
  {
    if n >= 1 && FromOrdinal(n).year <= 9999 then
      FromIsoFormatOfIso(FromOrdinal(n));
      OrdinalRoundTrip(n);
      Some(Iso(FromOrdinal(n)))
    else None
  }

  /** `date.strftime("%y. %m. %d")`, the day-cell date of the guarantee sheets. */
  function SheetDate(d: Date): (s: string)
    requires ValidDate(d)
    ensures |s| == 10 && s[2..4] == ". " && s[6..8] == ". "
  {
    Pad2(d.year % 100) + ". " + Pad2(d.month) + ". " + Pad2(d.day)
  }

  /** The `%m` field of `strptime`: "1".."9", "01".."09" or "10".."12". */
  function MonthField(t: string): (r: Option<int>)
    ensures r.Some? ==> 1 <= r.value <= 12
  {
    if (|t| == 1 || |t| == 2) && AllDigits(t) && 1 <= NatOf(t) <= 12 then Some(NatOf(t) as int) else None
  }

  /** The `%d` field of `strptime`: "1".."9", "01".."31", or a space-padded " 1".." 9". */
  function DayField(t: string): (r: Option<int>)
    ensures r.Some? ==> 1 <= r.value <= 31
  {
    if |t| == 2 && t[0] == ' ' && '1' <= t[1] <= '9' then Some((t[1] - '0') as int)
    else if (|t| == 1 || |t| == 2) && AllDigits(t) && 1 <= NatOf(t) <= 31 then Some(NatOf(t) as int)
    else None
  }

  /**
   * `datetime.strptime(s, "%Y-%m-%d").date()`: four-digit year, one- or
   * two-digit month and day, nothing left over, and a real calendar day;
   * anything else is a ValueError (None).
   */
  function ParseIso(s: string): (r: Option<Date>)
    ensures r.Some? ==> ValidDate(r.value) && r.value.year <= 9999
  {
    if |s| < 7 || !AllDigits(s[..4]) || s[4] != '-' then None
    else
      var k := if s[6] == '-' then 6 else if |s| > 7 && s[7] == '-' then 7 else 0;
      if k == 0 then None
      else
        match (MonthField(s[5..k]), DayField(s[k + 1..]))
        case (Some(m), Some(d)) =>
          var y := NatOf(s[..4]) as int;
          NatOfBound(s[..4]);
          if y >= 1 && d <= DaysInMonth(y, m) then Some(Date(y, m, d)) else None
        case _ => None
  }

  /** `strptime` reads back every date `isoformat` prints. */
  lemma ParseIsoOfIso(d: Date)
    requires ValidDate(d) && d.year <= 9999
    ensures ParseIso(Iso(d)) == Some(d)
  {
    var s := Iso(d);
    assert s[..4] == Pad4(d.year);
    assert s[5..7] == Pad2(d.month);
    assert s[8..] == Pad2(d.day);
  }

  /** `date.fromisoformat(s)` (before Python 3.11): exactly "YYYY-MM-DD", all digits, naming a real day. */
  function FromIsoFormat(s: string): (r: Option<Date>)
    ensures r.Some? ==> |s| == 10 && ValidDate(r.value) && r.value.year <= 9999
  {
    if |s| == 10 && s[4] == '-' && s[7] == '-' && AllDigits(s[8..]) then ParseIso(s) else None
  }

  /** `fromisoformat` reads back every date `isoformat` prints. */
  lemma FromIsoFormatOfIso(d: Date)
    requires ValidDate(d) && d.year <= 9999
    ensures FromIsoFormat(Iso(d)) == Some(d)
  {
    ParseIsoOfIso(d);
  }

  /** `strptime` takes a space-padded day, which `fromisoformat` refuses. */
  lemma SpacePaddedDay()
    ensures ParseIso("2025-01- 6") == Some(Date(2025, 1, 6))
    ensures FromIsoFormat("2025-01- 6") == None
  {
    var s := "2025-01- 6";
    var m := s[5..7];
    assert m == "01" && m[..1] == "0" && m[..1][..0] == [];
    assert NatOf(m[..1]) == 0 && NatOf(m) == 1;
    var y := s[..4];
    assert y == "2025";
    assert y[..3] == "202";
    assert y[..3][..2] == "20";
    assert y[..3][..2][..1] == "2";
    assert y[..3][..2][..1][..0] == [];
    assert NatOf(y[..3][..2][..1]) == 2;
    assert NatOf(y[..3][..2]) == 20;
    assert NatOf(y[..3]) == 202;
    assert NatOf(y) == 2025;
    assert s[8..] == " 6";
  }

  /** A month outside 1..12 is refused. */
  lemma ParseIsoRejectsMonth13()
    ensures ParseIso("2025-13-01") == None
  {
    var t := "2025-13-01"[5..7];
    assert t == "13" && t[..1] == "1" && t[..1][..0] == [];
    assert NatOf(t) == 13;
  }

  /** A day past the end of its month is refused. */
  lemma ParseIsoRejectsFeb30()
    ensures ParseIso("2025-02-30") == None
  {
    var s := "2025-02-30";
    var m := s[5..7];
    var d := s[8..];
    assert m == "02" && m[..1] == "0" && m[..1][..0] == [];
    assert d == "30" && d[..1] == "3" && d[..1][..0] == [];
    assert NatOf(m[..1]) == 0 && NatOf(d[..1]) == 3;
    assert NatOf(m) == 2 && NatOf(d) == 30;
  }
}
