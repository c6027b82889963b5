/**
 * Calendar dates as Python's `datetime.date` has them (proleptic Gregorian, years 1 to 9999),
 * their chronological order, the day number `date.toordinal()` that `today - timedelta(days=14)`
 * works on, the period keys the aggregator groups by, and `sorted()` on dates.
 */
module Dates {
  import opened Collections

  datatype Date = Date(year: int, month: int, day: int)

  predicate IsLeap(y: int) {
    y % 4 == 0 && (y % 100 != 0 || y % 400 == 0)
  }

  function DaysInMonth(y: int, m: int): int
    requires 1 <= m <= 12
  {
    if m == 2 then (if IsLeap(y) then 29 else 28)
    else if m == 4 || m == 6 || m == 9 || m == 11 then 30
    else 31
  }

  function DaysInYear(y: int): int {
    if IsLeap(y) then 366 else 365
  }

  predicate Valid(d: Date) {
    1 <= d.year <= 9999 && 1 <= d.month <= 12 && 1 <= d.day <= DaysInMonth(d.year, d.month)
  }

  /** A date Python's `datetime` can represent. */
  type CalendarDate = d: Date | Valid(d) witness Date(1, 1, 1)

  /** Chronological (lexicographic year, month, day) order, strict. */
  predicate Before(a: Date, b: Date) {
    a.year < b.year || (a.year == b.year && (a.month < b.month || (a.month == b.month && a.day < b.day)))
  }

  predicate AtOrBefore(a: Date, b: Date) {
    a == b || Before(a, b)
  }

  /** Days in the years before `y`. */
  function DaysBeforeYear(y: int): int
    requires y >= 1
  {
    var p := y - 1;
    p * 365 + p / 4 - p / 100 + p / 400
  }

  /** Days in the months of year `y` before month `m`. */
  function DaysBeforeMonth(y: int, m: int): int
    requires 1 <= m <= 12
  {
    [0, 31, 59, 90, 120, 151, 181, 212, 243, 273, 304, 334][m - 1] + (if m > 2 && IsLeap(y) then 1 else 0)
  }

  /** `date.toordinal()`: 1 for 0001-01-01, one more for every following day. */
  function Ordinal(d: CalendarDate): int {
    DaysBeforeYear(d.year) + DaysBeforeMonth(d.year, d.month) + d.day
  }

  lemma YearStep(y: int)
    requires y >= 1
    ensures DaysBeforeYear(y + 1) == DaysBeforeYear(y) + DaysInYear(y)
  {
    var p := y - 1;
    DivStep(p, 4);
    DivStep(p, 100);
    DivStep(p, 400);
    ModChain(y);
    assert DaysBeforeYear(y + 1) == y * 365 + y / 4 - y / 100 + y / 400;
  }

  lemma ModChain(y: int)
    ensures y % 400 == 0 ==> y % 100 == 0
    ensures y % 100 == 0 ==> y % 4 == 0
  {
    if y % 400 == 0 {
      var q := y / 400;
      assert y == 400 * q;
      HundredDivides(q);
    }
    if y % 100 == 0 {
      var q := y / 100;
      assert y == 100 * q;
      FourDivides(q);
    }
  }

  /** A multiple of 400 is a multiple of 100. */
  lemma HundredDivides(q: int)
    ensures (400 * q) % 100 == 0
  {
    assert 400 * q == 100 * (4 * q);
  }

  /** A multiple of 100 is a multiple of 4. */
  lemma FourDivides(q: int)
    ensures (100 * q) % 4 == 0
  {
    assert 100 * q == 4 * (25 * q);
  }

  /** Stepping the numerator by one bumps a quotient by a constant exactly at its multiples. */
  lemma DivStep(p: int, d: int)
    requires p >= 0 && (d == 4 || d == 100 || d == 400)
    ensures (p + 1) / d == p / d + (if (p + 1) % d == 0 then 1 else 0)
  {
    if d == 4 {
      assert (p + 1) / 4 == p / 4 + (if (p + 1) % 4 == 0 then 1 else 0);
    } else if d == 100 {
      assert (p + 1) / 100 == p / 100 + (if (p + 1) % 100 == 0 then 1 else 0);
    } else {
      assert (p + 1) / 400 == p / 400 + (if (p + 1) % 400 == 0 then 1 else 0);
    }
  }

  lemma {:induction false} YearsMonotone(y1: int, y2: int)
    requires 1 <= y1 < y2
    ensures DaysBeforeYear(y1) + DaysInYear(y1) <= DaysBeforeYear(y2)
    decreases y2 - y1
  {
    YearStep(y1);
    if y1 + 1 < y2 {
      YearsMonotone(y1 + 1, y2);
    }
  }

  lemma MonthsMonotone(y: int, m1: int, m2: int)
    requires 1 <= m1 < m2 <= 12
    ensures DaysBeforeMonth(y, m1) + DaysInMonth(y, m1) <= DaysBeforeMonth(y, m2)
  {
  }

  lemma DayOfYearBound(d: CalendarDate)
    ensures DaysBeforeMonth(d.year, d.month) + d.day <= DaysInYear(d.year)
  {
  }

  /** The day number orders dates exactly as the calendar does, and tells different dates apart. */
  lemma OrdinalOrder(a: CalendarDate, b: CalendarDate)
    ensures Before(a, b) <==> Ordinal(a) < Ordinal(b)
    ensures a == b <==> Ordinal(a) == Ordinal(b)
  {
    OrdinalMonotone(a, b);
    OrdinalMonotone(b, a);
  }

  lemma OrdinalMonotone(a: CalendarDate, b: CalendarDate)
    ensures Before(a, b) ==> Ordinal(a) < Ordinal(b)
  {
    if Before(a, b) {
      if a.year < b.year {
        DayOfYearBound(a);
        YearsMonotone(a.year, b.year);
      } else if a.month < b.month {
        MonthsMonotone(a.year, a.month, b.month);
      }
    }
  }

  /** `datetime(y, m, 1)` for `month_key(dt) == (y, m)`: the first day of the month of `d`. */
  function MonthStart(d: CalendarDate): (r: CalendarDate)
    ensures r.year == d.year && r.month == d.month && r.day == 1
  {
    Date(d.year, d.month, 1)
  }

  /** `datetime(y, 1, 1)` for `dt.year == y`: the first day of the year of `d`. */
  function YearStart(d: CalendarDate): (r: CalendarDate)
    ensures r.year == d.year && r.month == 1 && r.day == 1
  {
    Date(d.year, 1, 1)
  }

  /** Two dates share a month bucket exactly when `month_key` gives the same `(year, month)`,
      the bucket starts no later than the date, and bucketing keeps chronological order. */
  lemma MonthStartIsMonthKey(a: CalendarDate, b: CalendarDate)
    ensures MonthStart(a) == MonthStart(b) <==> (a.year, a.month) == (b.year, b.month)
    ensures AtOrBefore(MonthStart(a), a)
    ensures AtOrBefore(a, b) ==> AtOrBefore(MonthStart(a), MonthStart(b))
  {
  }

  lemma YearStartIsYearKey(a: CalendarDate, b: CalendarDate)
    ensures YearStart(a) == YearStart(b) <==> a.year == b.year
    ensures AtOrBefore(YearStart(a), a)
    ensures AtOrBefore(a, b) ==> AtOrBefore(YearStart(a), YearStart(b))
  {
  }

  predicate Ascending(s: seq<Date>) {
    forall i, j :: 0 <= i < j < |s| ==> AtOrBefore(s[i], s[j])
  }

  predicate StrictlyAscending(s: seq<Date>) {
    forall i, j :: 0 <= i < j < |s| ==> Before(s[i], s[j])
  }

  lemma PrependAscending(a: Date, t: seq<Date>)
    requires Ascending(t) && forall j :: 0 <= j < |t| ==> AtOrBefore(a, t[j])
    ensures Ascending([a] + t)
    ensures StrictlyAscending(t) && (forall j :: 0 <= j < |t| ==> Before(a, t[j])) ==> StrictlyAscending([a] + t)
  {
    var r := [a] + t;
    assert forall j :: 1 <= j < |r| ==> r[j] == t[j - 1];
  }

  function InsertDate(x: Date, s: seq<Date>): (r: seq<Date>)
    requires Ascending(s)
    ensures Ascending(r)
    ensures multiset(r) == multiset(s) + multiset{x}
    ensures StrictlyAscending(s) && x !in s ==> StrictlyAscending(r)
  {
    if s == [] || AtOrBefore(x, s[0]) then
      PrependAscending(x, s);
      [x] + s
    else
      var t := InsertDate(x, s[1..]);
      InsertAfterHead(x, s, t);
      [s[0]] + t
  }

  lemma InsertAfterHead(x: Date, s: seq<Date>, t: seq<Date>)
    requires s != [] && Ascending(s) && !AtOrBefore(x, s[0])
    requires Ascending(t) && multiset(t) == multiset(s[1..]) + multiset{x}
    requires StrictlyAscending(s[1..]) && x !in s[1..] ==> StrictlyAscending(t)
    ensures Ascending([s[0]] + t)
    ensures multiset([s[0]] + t) == multiset(s) + multiset{x}
    ensures StrictlyAscending(s) && x !in s ==> StrictlyAscending([s[0]] + t)
  {
    assert s == [s[0]] + s[1..];
    forall j | 0 <= j < |t|
      ensures AtOrBefore(s[0], t[j])
      ensures StrictlyAscending(s) ==> Before(s[0], t[j])
    {
      assert t[j] in multiset(t);
    }
    PrependAscending(s[0], t);
  }

  /** Python's `sorted()` on dates (an insertion sort): ordered, a permutation of the input,
      and strictly ordered when the input has no repeats. */
  function SortDates(s: seq<Date>): (r: seq<Date>)
    ensures Ascending(r)
    ensures multiset(r) == multiset(s)
    ensures Distinct(s) ==> StrictlyAscending(r)
  {
    if s == [] then []
    else
      var t := SortDates(s[1..]);
      SortStep(s, t);
      InsertDate(s[0], t)
  }

  lemma SortStep(s: seq<Date>, t: seq<Date>)
    requires s != [] && multiset(t) == multiset(s[1..]) && (Distinct(s[1..]) ==> StrictlyAscending(t))
    ensures multiset(t) + multiset{s[0]} == multiset(s)
    ensures Distinct(s) ==> StrictlyAscending(t) && s[0] !in t
  {
    assert s == [s[0]] + s[1..];
    if Distinct(s) {
      assert Distinct(s[1..]) by {
        forall i, j | 0 <= i < j < |s| - 1 ensures s[1..][i] != s[1..][j] {
          assert s[1..][i] == s[i + 1] && s[1..][j] == s[j + 1];
        }
      }
      forall j | 0 <= j < |s| - 1 ensures s[1..][j] != s[0] {
        assert s[1..][j] == s[j + 1];
      }
      assert s[0] !in multiset(s[1..]);
    }
  }
}
