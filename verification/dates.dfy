/** Calendar dates as Python's `datetime` holds them (midnight of a day in the
    proleptic Gregorian calendar, years 1 to 9999), the day numbering that makes
    `+ timedelta(days=N)` and date differences integer arithmetic, and the
    month-abbreviation table behind `strptime(..., '%b')`. */
module Dates {
  import opened Wrappers

  datatype Ymd = Ymd(year: int, month: int, day: int)

  const MinYear: int := 1
  const MaxYear: int := 9999

  predicate IsLeapYear(y: int) {
    y % 4 == 0 && (y % 100 != 0 || y % 400 == 0)
  }

  function DaysInMonth(y: int, m: int): int
    requires 1 <= m <= 12
  {
    if m == 2 then (if IsLeapYear(y) then 29 else 28)
    else if m == 4 || m == 6 || m == 9 || m == 11 then 30
    else 31
  }

  function DaysInYear(y: int): int {
    if IsLeapYear(y) then 366 else 365
  }

  /** What `datetime(year, month, day)` accepts without raising `ValueError`. */
  predicate IsCalendarDate(d: Ymd) {
    && MinYear <= d.year <= MaxYear
    && 1 <= d.month <= 12
    && 1 <= d.day <= DaysInMonth(d.year, d.month)
  }

  type Date = d: Ymd | IsCalendarDate(d) witness Ymd(1, 1, 1)

  /** Days in the years before `y`; year 1 starts the count. */
  function DaysBeforeYear(y: int): int
    requires y >= 1
  {
    var p := y - 1;
    p * 365 + p / 4 - p / 100 + p / 400
  }

  /** Days in the months of year `y` before month `m`. */
  function DaysBeforeMonth(y: int, m: int): int
    requires 1 <= m <= 12
  {
    var common := [0, 31, 59, 90, 120, 151, 181, 212, 243, 273, 304, 334];
    common[m - 1] + (if m > 2 && IsLeapYear(y) then 1 else 0)
  }

  /** Ordinal of the last day Python's `datetime` can hold, 9999-12-31. */
  const MaxOrdinal: int := 3652059

  /** Python's `date.toordinal()`: 0001-01-01 is day 1. */
  function Ordinal(d: Date): (n: int)
    ensures 1 <= n <= MaxOrdinal
  {
    DaysBeforeYearBounds(d.year);
    DaysBeforeMonthStep(d.year, d.month);
    DaysBeforeMonthMonotone(d.year, d.month, 12);
    DaysBeforeYearMonotone(d.year + 1, MaxYear + 1);
    DaysBeforeYear(d.year) + DaysBeforeMonth(d.year, d.month) + d.day
  }

  // ---------------------------------------------------------------------------
  // The day count is exact

  lemma DaysBeforeYearStep(y: int)
    requires y >= 1
    ensures DaysBeforeYear(y + 1) == DaysBeforeYear(y) + DaysInYear(y)
  {
    QuotientStep4(y);
    QuotientStep100(y);
    QuotientStep400(y);
  }

  /** Going from `y - 1` to `y`, a quotient grows by one exactly at multiples. */
  lemma QuotientStep4(y: int)
    ensures y / 4 - (y - 1) / 4 == (if y % 4 == 0 then 1 else 0)
  {
  }

  lemma QuotientStep100(y: int)
    ensures y / 100 - (y - 1) / 100 == (if y % 100 == 0 then 1 else 0)
  {
  }

  lemma QuotientStep400(y: int)
    ensures y / 400 - (y - 1) / 400 == (if y % 400 == 0 then 1 else 0)
  {
  }

  lemma {:induction false} DaysBeforeYearMonotone(a: int, b: int)
    requires 1 <= a <= b
    ensures DaysBeforeYear(a) + 365 * (b - a) <= DaysBeforeYear(b)
    decreases b - a
  {
    if a < b {
      DaysBeforeYearMonotone(a, b - 1);
      DaysBeforeYearStep(b - 1);
    }
  }

  lemma DaysBeforeYearBounds(y: int)
    requires y >= 1
    ensures DaysBeforeYear(y) >= 0
    ensures DaysBeforeYear(MaxYear + 1) == MaxOrdinal
  {
  }

  lemma DaysBeforeMonthStep(y: int, m: int)
    requires 1 <= m <= 12
    ensures m < 12 ==> DaysBeforeMonth(y, m + 1) == DaysBeforeMonth(y, m) + DaysInMonth(y, m)
    ensures m == 12 ==> DaysBeforeMonth(y, m) + DaysInMonth(y, m) == DaysInYear(y)
  {
  }

  lemma DaysBeforeMonthMonotone(y: int, m1: int, m2: int)
    requires 1 <= m1 <= m2 <= 12
    ensures DaysBeforeMonth(y, m1) + (if m1 < m2 then DaysInMonth(y, m1) else 0) <= DaysBeforeMonth(y, m2)
  {
  }

  /** Lexicographic (year, month, day) order: the order in which `datetime`
      values at midnight compare. */
  predicate Precedes(a: Date, b: Date) {
    || a.year < b.year
    || (a.year == b.year && a.month < b.month)
    || (a.year == b.year && a.month == b.month && a.day < b.day)
  }

  /** A date's ordinal lies within the days of its year. */
  lemma OrdinalWithinYear(d: Date)
    ensures DaysBeforeYear(d.year) < Ordinal(d) <= DaysBeforeYear(d.year + 1)
  {
    DaysBeforeMonthStep(d.year, d.month);
    DaysBeforeMonthMonotone(d.year, d.month, 12);
    DaysBeforeYearStep(d.year);
  }

  lemma PrecedesOrdinal(a: Date, b: Date)
    requires Precedes(a, b)
    ensures Ordinal(a) < Ordinal(b)
  {
    if a.year < b.year {
      OrdinalWithinYear(a);
      OrdinalWithinYear(b);
      DaysBeforeYearMonotone(a.year + 1, b.year);
    } else if a.month < b.month {
      DaysBeforeMonthMonotone(a.year, a.month, b.month);
    }
  }

  /** Comparing day numbers is comparing the dates themselves, so every date
      comparison of the source can be stated on ordinals. */
  lemma OrdinalOrder(a: Date, b: Date)
    ensures Ordinal(a) < Ordinal(b) <==> Precedes(a, b)
    ensures Ordinal(a) == Ordinal(b) <==> a == b
  {
    if Precedes(a, b) {
      PrecedesOrdinal(a, b);
    } else if Precedes(b, a) {
      PrecedesOrdinal(b, a);
    } else {
      assert a == b;
    }
  }

  /** The calendar day after `d`. */
  function NextDay(d: Date): Ymd {
    if d.day < DaysInMonth(d.year, d.month) then Ymd(d.year, d.month, d.day + 1)
    else if d.month < 12 then Ymd(d.year, d.month + 1, 1)
    else Ymd(d.year + 1, 1, 1)
  }

  /** Consecutive calendar days get consecutive ordinals, so adding a
      `timedelta` of N days moves the ordinal by exactly N. */
  lemma OrdinalOfNextDay(d: Date)
    requires IsCalendarDate(NextDay(d))
    ensures Ordinal(NextDay(d)) == Ordinal(d) + 1
  {
    DaysBeforeMonthStep(d.year, d.month);
    if d.day == DaysInMonth(d.year, d.month) && d.month == 12 {
      DaysBeforeYearStep(d.year);
    }
  }

  // ---------------------------------------------------------------------------
  // strptime(s, '%b').month

  /** The C-locale month abbreviations. */
  const MonthAbbreviations: seq<string> :=
    ["JAN", "FEB", "MAR", "APR", "MAY", "JUN", "JUL", "AUG", "SEP", "OCT", "NOV", "DEC"]

  function UpperChar(c: char): char {
    if 'a' <= c <= 'z' then (c as int - 32) as char else c
  }

  /** ASCII upper-casing, the case folding `strptime`'s case-insensitive match uses. */
  function Upper(s: string): (r: string)
    ensures |r| == |s|
    ensures forall k :: 0 <= k < |s| ==> r[k] == UpperChar(s[k])
  {
    seq(|s|, k requires 0 <= k < |s| => UpperChar(s[k]))
  }

  function MonthSearch(u: string, m: nat): (r: Option<int>)
    requires m <= 12
    ensures r.Some? ==> m < r.value <= 12 && u == MonthAbbreviations[r.value - 1]
    ensures r.None? ==> forall j :: m <= j < 12 ==> u != MonthAbbreviations[j]
    decreases 12 - m
  {
    if m == 12 then None
    else if u == MonthAbbreviations[m] then Some(m + 1)
    else MonthSearch(u, m + 1)
  }

  /** `strptime(s, '%b').month`: the month whose abbreviation `s` spells in any
      letter case; `None` where `strptime` raises `ValueError`. */
  /** `s` is, in any case, the abbreviation of month `m`. */
  predicate AbbreviatesMonth(s: string, m: int) {
    1 <= m <= 12 && Upper(s) == MonthAbbreviations[m - 1]
  }

  function MonthNumber(s: string): (r: Option<int>)
    ensures r.Some? ==> 1 <= r.value <= 12 && Upper(s) == MonthAbbreviations[r.value - 1]
    ensures r.None? <==> forall j :: 0 <= j < 12 ==> Upper(s) != MonthAbbreviations[j]
  {
    MonthSearch(Upper(s), 0)
  }

  /** No two months share an abbreviation. */
  lemma AbbreviationsDistinct(i: nat, j: nat)
    requires i < 12 && j < 12 && i != j
    ensures MonthAbbreviations[i] != MonthAbbreviations[j]
  {
  }

  lemma MonthSearchFinds(m: int)
    requires 1 <= m <= 12
    ensures MonthSearch(MonthAbbreviations[m - 1], 0) == Some(m)
  {
    var r := MonthSearch(MonthAbbreviations[m - 1], 0);
    if r.Some? && r.value != m {
      AbbreviationsDistinct(r.value - 1, m - 1);
    }
  }

  /** Each abbreviation, in upper or lower case, names its own month. */
  lemma MonthNumberOfAbbreviation(m: int)
    requires 1 <= m <= 12
    ensures MonthNumber(MonthAbbreviations[m - 1]) == Some(m)
    ensures MonthNumber(Lower(MonthAbbreviations[m - 1])) == Some(m)
  {
    var a := MonthAbbreviations[m - 1];
    assert |a| == 3 && forall k :: 0 <= k < 3 ==> 'A' <= a[k] <= 'Z';
    assert Upper(a) == a;
    assert Upper(Lower(a)) == a;
    MonthSearchFinds(m);
  }

  function Lower(s: string): (r: string)
    ensures |r| == |s|
  {
    seq(|s|, k requires 0 <= k < |s| => if 'A' <= s[k] <= 'Z' then (s[k] as int + 32) as char else s[k])
  }
}
