/**
 The proleptic Gregorian calendar as day numbers (day 1 is 0001-01-01, a Monday), with the ISO weeks
 of section 4.1.4 of ISO 8601:2004. A date is its day number; year, month and day are read off it.
 */
module Calendar {
  import opened Text

  type Date = int

  predicate Leap(y: int) {
    y % 4 == 0 && (y % 100 != 0 || y % 400 == 0)
  }

  function YearLength(y: int): nat { if Leap(y) then 366 else 365 }

  /** The number of days before January 1 of year `y`, counted from 0001-01-01. */
  function DaysBefore(y: int): int {
    365 * (y - 1) + (y - 1) / 4 - (y - 1) / 100 + (y - 1) / 400
  }

  lemma QuotientStep(y: int, k: nat)
    requires k > 1
    ensures y / k == (y - 1) / k + if y % k == 0 then 1 else 0
  {
    var q, r := y / k, y % k;
    assert y == k * q + r;
    if r == 0 {
      assert y - 1 == k * (q - 1) + (k - 1);
      QuotientIs(y - 1, k, q - 1, k - 1);
    } else {
      assert y - 1 == k * q + (r - 1);
      QuotientIs(y - 1, k, q, r - 1);
    }
  }

  lemma {:induction false} QuotientIs(x: int, k: int, q: int, r: int)
    requires k > 0 && x == k * q + r && 0 <= r < k
    ensures x / k == q && x % k == r
  {
    var d := q - x / k;
    assert k * d == x % k - r;
    MultipleIsFar(k, d);
  }

  lemma MultipleIsFar(k: int, d: int)
    requires k > 0
    ensures d > 0 ==> k * d >= k
    ensures d < 0 ==> k * d <= -k
  {
  }

  lemma YearStep(y: int)
    ensures DaysBefore(y + 1) == DaysBefore(y) + YearLength(y)
  {
    QuotientStep(y, 4);
    QuotientStep(y, 100);
    QuotientStep(y, 400);
    Mod100(y);
  }

  lemma Mod100(y: int)
    ensures y % 400 == 0 ==> y % 100 == 0
    ensures y % 100 == 0 ==> y % 4 == 0
  {
    if y % 400 == 0 { QuotientIs(y, 100, 4 * (y / 400), 0); }
    if y % 100 == 0 { QuotientIs(y, 4, 25 * (y / 100), 0); }
  }

  lemma {:induction false} YearsApart(y: int, z: int)
    requires y < z
    ensures DaysBefore(y) + 365 <= DaysBefore(y + 1) <= DaysBefore(z)
    decreases z - y
  {
    hide DaysBefore;
    YearStep(y);
    if y + 1 < z {
      YearsApart(y + 1, z);
    }
  }

  // ---------- The year of a day ----------

  function YearUp(n: Date, y: int): (r: int)
    requires DaysBefore(y) < n
    ensures DaysBefore(r) < n <= DaysBefore(r + 1)
    decreases n - DaysBefore(y)
  {
    YearStep(y);
    if n <= DaysBefore(y + 1) then y else YearUp(n, y + 1)
  }

  function YearDown(n: Date, y: int): (r: int)
    requires n <= DaysBefore(y + 1)
    ensures DaysBefore(r) < n <= DaysBefore(r + 1)
    decreases DaysBefore(y + 1) - n
  {
    YearStep(y);
    if DaysBefore(y) < n then y else YearDown(n, y - 1)
  }

  function Year(n: Date): (y: int)
    ensures DaysBefore(y) < n <= DaysBefore(y + 1)
  {
    if n > 0 then YearUp(n, 1) else YearDown(n, 0)
  }

  lemma {:induction false} YearIs(n: Date, y: int)
    requires DaysBefore(y) < n <= DaysBefore(y + 1)
    ensures Year(n) == y
  {
    hide DaysBefore;
    var r := Year(n);
    if r < y { YearsApart(r, y); }
    if y < r { YearsApart(y, r); }
  }

  // ---------- Months ----------

  function MonthLength(y: int, m: int): nat {
    if m == 2 then (if Leap(y) then 29 else 28)
    else if m == 4 || m == 6 || m == 9 || m == 11 then 30
    else 31
  }

  /** The days of year `y` before month `m`. */
  function MonthStart(y: int, m: nat): nat
    requires 1 <= m <= 13
    decreases m
  {
    if m == 1 then 0 else MonthStart(y, m - 1) + MonthLength(y, m - 1)
  }

  lemma YearOfMonths(y: int)
    ensures MonthStart(y, 13) == YearLength(y)
  {
    assert MonthStart(y, 4) == 31 + MonthLength(y, 2) + 31;
    assert MonthStart(y, 7) == MonthStart(y, 4) + 91;
    assert MonthStart(y, 10) == MonthStart(y, 7) + 92;
    assert MonthStart(y, 13) == MonthStart(y, 10) + 92;
  }

  lemma {:induction false} MonthsApart(y: int, m: nat, k: nat)
    requires 1 <= m < k <= 13
    ensures MonthStart(y, m) + 28 <= MonthStart(y, m + 1) <= MonthStart(y, k)
    decreases k
  {
    if m + 1 < k { MonthsApart(y, m, k - 1); }
  }

  function Ordinal(n: Date): (o: nat)
    ensures 1 <= o <= YearLength(Year(n))
  {
    YearStep(Year(n));
    n - DaysBefore(Year(n))
  }

  function MonthFrom(y: int, o: nat, m: nat): (r: nat)
    requires 1 <= m <= 12 && MonthStart(y, m) < o <= MonthStart(y, 13)
    ensures m <= r <= 12 && MonthStart(y, r) < o <= MonthStart(y, r + 1)
    decreases 12 - m
  {
    if o <= MonthStart(y, m + 1) then m else MonthFrom(y, o, m + 1)
  }

  function Month(n: Date): (m: nat)
    ensures 1 <= m <= 12
    ensures MonthStart(Year(n), m) < Ordinal(n) <= MonthStart(Year(n), m + 1)
  {
    YearOfMonths(Year(n));
    MonthFrom(Year(n), Ordinal(n), 1)
  }

  function Day(n: Date): (d: nat)
    ensures 1 <= d <= MonthLength(Year(n), Month(n))
  {
    Ordinal(n) - MonthStart(Year(n), Month(n))
  }

  const MIN_YEAR := -262143
  const MAX_YEAR := 262142

  predicate IsYmd(y: int, m: nat, d: nat) {
    1 <= m <= 12 && 1 <= d <= MonthLength(y, m)
  }

  function DayNumber(y: int, m: nat, d: nat): Date
    requires IsYmd(y, m, d)
  {
    DaysBefore(y) + MonthStart(y, m) + d
  }

  /** `NaiveDate::from_ymd_opt`. */
  function FromYmd(y: int, m: nat, d: nat): Option<Date> {
    if IsYmd(y, m, d) && MIN_YEAR <= y <= MAX_YEAR then Some(DayNumber(y, m, d)) else None
  }

  /** `NaiveDate::MIN` and `NaiveDate::MAX`: January 1 and December 31 of the end years. */
  const MIN_DATE: Date := DaysBefore(MIN_YEAR) + 1
  const MAX_DATE: Date := DaysBefore(MAX_YEAR + 1)

  /** The dates a `NaiveDate` can hold. */
  predicate InRange(n: Date) { MIN_DATE <= n <= MAX_DATE }

  lemma {:induction false} RangeOfYears(n: Date)
    ensures InRange(n) <==> MIN_YEAR <= Year(n) <= MAX_YEAR
  {
    hide DaysBefore;
    var y := Year(n);
    YearStep(y);
    if y < MIN_YEAR - 1 { YearsApart(y + 1, MIN_YEAR); }
    if MIN_YEAR < y { YearsApart(MIN_YEAR, y); }
    if y < MAX_YEAR { YearsApart(y + 1, MAX_YEAR + 1); }
    if MAX_YEAR + 1 < y { YearsApart(MAX_YEAR + 1, y); }
  }

  /** The first date is a Thursday and the last a Monday: both end weeks are cut off. */
  lemma EndWeekdays()
    ensures Weekday(MIN_DATE) == 3 && Weekday(MAX_DATE) == 0
  {
  }

  /** Year, month and day name exactly one date, and every date has them. */
  lemma {:induction false} YmdOfDay(n: Date)
    ensures IsYmd(Year(n), Month(n), Day(n)) && DayNumber(Year(n), Month(n), Day(n)) == n
  {
  }

  lemma {:induction false} DayOfYmd(y: int, m: nat, d: nat)
    requires IsYmd(y, m, d)
    ensures var n := DayNumber(y, m, d); Year(n) == y && Month(n) == m && Day(n) == d
  {
    hide DaysBefore;
    var n := DayNumber(y, m, d);
    YearOfMonths(y);
    YearStep(y);
    assert MonthStart(y, m + 1) == MonthStart(y, m) + MonthLength(y, m);
    if m < 12 { MonthsApart(y, m + 1, 13); }
    YearIs(n, y);
    var r := Month(n);
    if r < m { MonthsApart(y, r, m); }
    if m < r { MonthsApart(y, m, r); }
  }

  /**
   The closed form of the proleptic Gregorian calendar: years counted from March 1, so that the leap day is the
   last of its year, four hundred of which have 146097 days, and months of 30.6 days on average from then on.
   */
  lemma {:induction false} DayNumberInClosedForm(y: int, m: nat, d: nat)
    requires IsYmd(y, m, d)
    ensures var c, k := if m <= 2 then y - 1 else y, if m <= 2 then m + 9 else m - 3;
      DayNumber(y, m, d) == 365 * c + c / 4 - c / 100 + c / 400 + (153 * k + 2) / 5 + d - 306
  {
    YearStep(y);
    assert MonthStart(y, 1) == 0 && MonthStart(y, 2) == 31 && MonthStart(y, 3) == 31 + MonthLength(y, 2);
    assert MonthStart(y, 4) == MonthStart(y, 3) + 31 && MonthStart(y, 5) == MonthStart(y, 4) + 30;
    assert MonthStart(y, 6) == MonthStart(y, 5) + 31 && MonthStart(y, 7) == MonthStart(y, 6) + 30;
    assert MonthStart(y, 8) == MonthStart(y, 7) + 31 && MonthStart(y, 9) == MonthStart(y, 8) + 31;
    assert MonthStart(y, 10) == MonthStart(y, 9) + 30 && MonthStart(y, 11) == MonthStart(y, 10) + 31;
    assert MonthStart(y, 12) == MonthStart(y, 11) + 30;
  }

  // ---------- ISO weeks ----------

  /** Days since Monday. */
  function Weekday(n: Date): (w: nat)
    ensures w < 7
  {
    (n - 1) % 7
  }

  function MondayOf(n: Date): Date { n - Weekday(n) }

  /** The year and number of a week are those of its Thursday. */
  function ThursdayOf(n: Date): Date { MondayOf(n) + 3 }

  function IsoYear(n: Date): int { Year(ThursdayOf(n)) }

  function IsoWeek(n: Date): nat { (Ordinal(ThursdayOf(n)) - 1) / 7 + 1 }

  const THURSDAY := 3
  const WEDNESDAY := 2

  /** A year has 53 weeks when it starts on a Thursday, or is a leap year and starts on a Wednesday. */
  function IsoWeeks(y: int): nat {
    var first := Weekday(DaysBefore(y) + 1);
    if first == THURSDAY || (Leap(y) && first == WEDNESDAY) then 53 else 52
  }

  /** `NaiveDate::from_isoywd_opt` for a Monday: week 1 is the week of January 4. */
  function FromIsoWeek(y: int, w: nat): Option<Date> {
    if 1 <= w <= IsoWeeks(y) then
      var monday := MondayOf(DaysBefore(y) + 4) + 7 * (w - 1);
      if InRange(monday) then Some(monday) else None
    else None
  }

  lemma {:induction false} WeekdayShift(n: Date, k: int)
    ensures Weekday(n + 7 * k) == Weekday(n)
  {
    QuotientIs(n + 7 * k - 1, 7, (n - 1) / 7 + k, (n - 1) % 7);
  }

  lemma {:induction false} WeekdayNear(n: Date, j: int)
    requires 0 <= Weekday(n) + j < 7
    ensures Weekday(n + j) == Weekday(n) + j && MondayOf(n + j) == MondayOf(n)
  {
    QuotientIs(n + j - 1, 7, (n - 1) / 7, Weekday(n) + j);
  }

  /** The days of one week share its Monday. */
  lemma {:induction false} SameWeek(n: Date, k: Date)
    requires MondayOf(n) <= k <= MondayOf(n) + 6
    ensures MondayOf(k) == MondayOf(n)
  {
    WeekdayNear(n, k - n);
  }

  /** The week of January 4 is that of the year's first Thursday. */
  lemma {:induction false} FirstWeekOf(y: int, first: nat)
    requires 1 <= first <= 7 && Weekday(DaysBefore(y) + first) == THURSDAY
    ensures MondayOf(DaysBefore(y) + 4) == DaysBefore(y) + first - 3
  {
    hide DaysBefore, Weekday;
    WeekdayNear(DaysBefore(y) + first, 4 - first);
  }

  /** No Thursday of a year is in a week past the year's last. */
  lemma {:induction false} WeekCount(y: int, first: nat, w: nat)
    requires 1 <= first <= 7 && Weekday(DaysBefore(y) + first) == THURSDAY
    requires first + 7 * (w - 1) <= YearLength(y)
    ensures w <= IsoWeeks(y)
  {
    hide DaysBefore, Weekday, Leap;
    if first <= 4 { WeekdayNear(DaysBefore(y) + first, 1 - first); }
  }

  lemma {:induction false} WeekOfThursday(n: Date, y: int, first: nat, w: nat)
    requires 1 <= first <= 7 && 1 <= w && ThursdayOf(n) == DaysBefore(y) + first + 7 * (w - 1)
    requires first + 7 * (w - 1) <= YearLength(y)
    ensures FromIsoWeek(y, w) == if InRange(MondayOf(n)) then Some(MondayOf(n)) else None
  {
    hide DaysBefore, InRange, Weekday, IsoWeeks, YearLength;
    SameWeek(n, ThursdayOf(n));
    WeekdayShift(DaysBefore(y) + first, w - 1);
    FirstWeekOf(y, first);
    WeekCount(y, first, w);
  }

  /** The Monday of a date's ISO week is found from its ISO year and week number, unless it is out of range. */
  lemma {:induction false} IsoRoundTrip(n: Date)
    ensures FromIsoWeek(IsoYear(n), IsoWeek(n)) == if InRange(MondayOf(n)) then Some(MondayOf(n)) else None
  {
    hide DaysBefore, Year, InRange, Weekday, YearLength, FromIsoWeek, MondayOf;
    var o := Ordinal(ThursdayOf(n));
    WeekOfThursday(n, IsoYear(n), (o - 1) % 7 + 1, IsoWeek(n));
  }

  /** A week that is found has the year and number it was asked for. */
  lemma {:induction false} FoundWeek(y: int, w: nat)
    requires FromIsoWeek(y, w).Some?
    ensures var m := FromIsoWeek(y, w).value;
      Weekday(m) == 0 && IsoYear(m) == y && IsoWeek(m) == w
  {
    hide DaysBefore, InRange, Year, Leap;
    var start := MondayOf(DaysBefore(y) + 4);
    var m := start + 7 * (w - 1);
    SameWeek(DaysBefore(y) + 4, start);
    WeekdayShift(start, w - 1);
    FirstThursday(y);
    var first := start + 3 - DaysBefore(y);
    assert ThursdayOf(m) == DaysBefore(y) + first + 7 * (w - 1);
    LastWeek(y, first, w);
    ThursdayInYear(y, first, w);
  }

  lemma {:induction false} FirstThursday(y: int)
    ensures 1 <= MondayOf(DaysBefore(y) + 4) + 3 - DaysBefore(y) <= 7
  {
    hide DaysBefore;
  }

  /** The last week a year is given has its Thursday in that year. */
  lemma {:induction false} LastWeek(y: int, first: nat, w: nat)
    requires 1 <= first <= 7 && first == MondayOf(DaysBefore(y) + 4) + 3 - DaysBefore(y) && 1 <= w <= IsoWeeks(y)
    ensures first + 7 * (w - 1) <= YearLength(y)
  {
    hide DaysBefore, Leap;
    if w == 53 {
      assert first <= if Leap(y) then 2 else 1 by { FirstOfYear(y, first); }
    }
  }

  lemma {:induction false} FirstOfYear(y: int, first: nat)
    requires 1 <= first <= 7 && first == MondayOf(DaysBefore(y) + 4) + 3 - DaysBefore(y)
    ensures Weekday(DaysBefore(y) + 1) == (if first <= 4 then 4 - first else 11 - first)
  {
    hide DaysBefore;
  }

  lemma {:induction false} ThursdayInYear(y: int, first: nat, w: nat)
    requires 1 <= first <= 7 && 1 <= w && first + 7 * (w - 1) <= YearLength(y)
    ensures var t := DaysBefore(y) + first + 7 * (w - 1);
      Year(t) == y && (Ordinal(t) - 1) / 7 + 1 == w
  {
    hide DaysBefore, Leap;
    YearStep(y);
    YearIs(DaysBefore(y) + first + 7 * (w - 1), y);
    QuotientIs(first + 7 * (w - 1) - 1, 7, w - 1, first - 1);
  }
}
