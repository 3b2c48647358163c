/** Calendar periods: the key of the period a date falls in, its bounds, and the way back from a key. */
module Periodic {
  import opened Text
  import opened Decimal
  import opened Calendar

  datatype PeriodKind = Daily | Weekly | Monthly | Quarterly | Yearly

  datatype Bounds = Bounds(start: Date, end: Date)

  // ---------- Keys ----------

  /** `%Y` and `%G`: four digits, with a sign outside years 0 to 9999. */
  function YearText(y: int): string {
    if 0 <= y <= 9999 then Pad(y, 4)
    else if y > 0 then "+" + Pad(y, 4)
    else "-" + Pad(-y, 4)
  }

  /** `{}` of an `i32`. */
  function PrintInt(n: int): string {
    if n < 0 then "-" + Print(-n) else Print(n)
  }

  function Quarter(n: Date): (q: nat)
    ensures 1 <= q <= 4
  {
    (Month(n) - 1) / 3 + 1
  }

  function QuarterMonth(n: Date): (m: nat)
    ensures 1 <= m <= 10
  {
    (Month(n) - 1) / 3 * 3 + 1
  }

  function CurrentKey(kind: PeriodKind, n: Date): string {
    match kind
    case Daily => YearText(Year(n)) + "-" + (Pad(Month(n), 2) + "-" + Pad(Day(n), 2))
    case Weekly => YearText(IsoYear(n)) + "-W" + Pad(IsoWeek(n), 2)
    case Monthly => YearText(Year(n)) + "-" + Pad(Month(n), 2)
    case Quarterly => PrintInt(Year(n)) + "-Q" + Print(Quarter(n))
    case Yearly => YearText(Year(n))
  }

  // ---------- Bounds ----------

  function FirstOfMonth(y: int, m: nat): Date
    requires 1 <= m <= 12
  {
    DayNumber(y, m, 1)
  }

  function LastOfMonth(y: int, m: nat): Date
    requires 1 <= m <= 12
  {
    if m == 12 then FirstOfMonth(y + 1, 1) - 1 else FirstOfMonth(y, m + 1) - 1
  }

  function PeriodBounds(kind: PeriodKind, n: Date): Bounds {
    match kind
    case Daily => Bounds(n, n)
    case Weekly => Bounds(MondayOf(n), MondayOf(n) + 6)
    case Monthly => Bounds(FirstOfMonth(Year(n), Month(n)), LastOfMonth(Year(n), Month(n)))
    case Quarterly =>
      var start := QuarterMonth(n);
      Bounds(FirstOfMonth(Year(n), start), LastOfMonth(Year(n), start + 2))
    case Yearly => Bounds(DayNumber(Year(n), 1, 1), DayNumber(Year(n), 12, 31))
  }

  // ---------- Bounds within the range of dates ----------

  /** What a date computation yields: a value, or the panic of `unwrap` or of date arithmetic out of range. */
  datatype Checked<+T> = Panic | Within(value: T)

  /** `NaiveDate + Duration`. */
  function PlusDays(n: Date, k: int): Checked<Date> {
    if InRange(n + k) then Within(n + k) else Panic
  }

  /** `NaiveDate::from_ymd_opt(..).unwrap()`. */
  function UnwrapYmd(y: int, m: nat, d: nat): Checked<Date> {
    match FromYmd(y, m, d)
    case None => Panic
    case Some(n) => Within(n)
  }

  /** `last_day_of_month`: the day before the first of the next month. */
  function LastDayOfMonth(y: int, m: nat): Checked<Date> {
    match if m == 12 then UnwrapYmd(y + 1, 1, 1) else UnwrapYmd(y, m + 1, 1)
    case Panic => Panic
    case Within(next) => PlusDays(next, -1)
  }

  function BothEnds(start: Checked<Date>, end: Checked<Date>): Checked<Bounds> {
    match (start, end)
    case (Within(a), Within(b)) => Within(Bounds(a, b))
    case _ => Panic
  }

  /** `period_bounds`. */
  function BoundsOf(kind: PeriodKind, n: Date): Checked<Bounds> {
    match kind
    case Daily => Within(Bounds(n, n))
    case Weekly =>
      (match PlusDays(n, -(Weekday(n) as int))
       case Panic => Panic
       case Within(start) => BothEnds(Within(start), PlusDays(start, 6)))
    case Monthly => BothEnds(UnwrapYmd(Year(n), Month(n), 1), LastDayOfMonth(Year(n), Month(n)))
    case Quarterly =>
      var start := QuarterMonth(n);
      BothEnds(UnwrapYmd(Year(n), start, 1), LastDayOfMonth(Year(n), start + 2))
    case Yearly => BothEnds(UnwrapYmd(Year(n), 1, 1), UnwrapYmd(Year(n), 12, 31))
  }

  // ---------- From keys ----------

  /** Unchecked `u32` arithmetic, as the release build does it. */
  function Wrap32(n: nat): nat { n % 0x1_0000_0000 }

  datatype Scan = NoScan | Scan(value: nat, rest: string)

  /** The longest run of digits at the front, up to `max` of them. */
  function LeadingDigits(s: string, max: nat): (k: nat)
    ensures k <= |s| && k <= max && AllDigits(s[..k])
  {
    if s == [] || max == 0 || !IsDigit(s[0]) then 0
    else
      var k := LeadingDigits(s[1..], max - 1);
      assert forall i :: 1 <= i <= k ==> s[i] == s[1..][..k][i - 1];
      k + 1
  }

  function ScanNumber(s: string, max: nat): Scan {
    var k := LeadingDigits(s, max);
    if k == 0 then NoScan else Scan(Value(s[..k]), s[k..])
  }

  datatype YearScan = NoYear | YearScan(year: int, after: string)

  /** The numeric item `%Y`: at most four digits, or any number of them after a sign. */
  function ScanYear(s: string): YearScan {
    var t := TrimStart(s);
    if StartsWith(t, '-') || StartsWith(t, '+') then
      match ScanNumber(t[1..], |t|)
      case NoScan => NoYear
      case Scan(v, rest) => if t[0] == '-' then YearScan(-(v as int), rest) else YearScan(v, rest)
    else
      match ScanNumber(t, 4)
      case NoScan => NoYear
      case Scan(v, rest) => YearScan(v, rest)
  }

  /** `NaiveDate::parse_from_str(_, "%Y-%m-%d")`. */
  function ParseYmd(s: string): Option<Date> {
    match ScanYear(s)
    case NoYear => None
    case YearScan(y, afterYear) =>
      if !StartsWith(afterYear, '-') then None
      else
        match ScanNumber(TrimStart(afterYear[1..]), 2)
        case NoScan => None
        case Scan(m, afterMonth) =>
          if !StartsWith(afterMonth, '-') then None
          else
            match ScanNumber(TrimStart(afterMonth[1..]), 2)
            case NoScan => None
            case Scan(d, rest) => if rest != [] then None else FromYmd(y, m, d)
  }

  function ParseIsoWeekStart(key: string): Option<Date> {
    match SplitOnce(key, "-W")
    case NoSplit => None
    case Split(year, week) =>
      match (ParseI32(year), ParseU32(week))
      case (Some(y), Some(w)) => FromIsoWeek(y, w)
      case _ => None
  }

  /** The date a key stands for, before it is widened to its period. */
  function DateForKey(kind: PeriodKind, key: string): Option<Date> {
    match kind
    case Daily => ParseYmd(key)
    case Weekly => ParseIsoWeekStart(key)
    case Monthly =>
      (match SplitOnce(key, "-")
       case NoSplit => None
       case Split(year, month) =>
         match (ParseI32(year), ParseU32(month))
         case (Some(y), Some(m)) => FromYmd(y, m, 1)
         case _ => None)
    case Quarterly =>
      (match SplitOnce(key, "-Q")
       case NoSplit => None
       case Split(year, quarter) =>
         match (ParseI32(year), ParseU32(quarter))
         case (Some(y), Some(q)) => if q == 0 then None else FromYmd(y, Wrap32(Wrap32((q - 1) * 3) + 1), 1)
         case _ => None)
    case Yearly =>
      (match ParseI32(key)
       case Some(y) => FromYmd(y, 1, 1)
       case None => None)
  }

  datatype Lookup = LookupPanics | NoPeriod | Period(bounds: Bounds)

  function LookupOf(b: Checked<Bounds>): Lookup {
    match b
    case Panic => LookupPanics
    case Within(bounds) => Period(bounds)
  }

  /** `bounds_for_key`. */
  function BoundsForKey(kind: PeriodKind, key: string): Lookup {
    match DateForKey(kind, key)
    case None => NoPeriod
    case Some(n) => LookupOf(BoundsOf(kind, n))
  }

  // ---------- Periods share keys and bounds ----------

  predicate InBounds(b: Bounds, n: Date) { b.start <= n <= b.end }

  lemma {:induction false} MonthEnd(y: int, m: nat)
    requires 1 <= m <= 12
    ensures LastOfMonth(y, m) == DaysBefore(y) + MonthStart(y, m + 1)
  {
    hide DaysBefore;
    YearStep(y);
    YearOfMonths(y);
    assert MonthStart(y + 1, 1) == 0;
  }

  lemma {:induction false} MonthOfDay(n: Date, y: int, m: nat)
    requires 1 <= m <= 12 && DaysBefore(y) + MonthStart(y, m) < n <= DaysBefore(y) + MonthStart(y, m + 1)
    ensures Year(n) == y && Month(n) == m
  {
    DayOfYmd(y, m, n - DaysBefore(y) - MonthStart(y, m));
  }

  lemma {:induction false} QuarterStart(y: int, q: nat)
    requires 1 <= q <= 4
    ensures MonthStart(y, 3 * q - 2) <= MonthStart(y, 3 * q - 1) <= MonthStart(y, 3 * q) <= MonthStart(y, 3 * q + 1)
  {
    MonthsApart(y, 3 * q - 2, 3 * q - 1);
    MonthsApart(y, 3 * q - 1, 3 * q);
    MonthsApart(y, 3 * q, 3 * q + 1);
  }

  lemma {:induction false} BoundsOfQuarter(n: Date)
    ensures var b, q, y := PeriodBounds(Quarterly, n), Quarter(n), Year(n);
      b.start == DaysBefore(y) + MonthStart(y, 3 * q - 2) + 1 && b.end == DaysBefore(y) + MonthStart(y, 3 * q + 1)
  {
    hide DaysBefore, Year, Month;
    MonthEnd(Year(n), 3 * Quarter(n));
  }

  lemma {:induction false} InOwnQuarter(n: Date)
    ensures InBounds(PeriodBounds(Quarterly, n), n)
  {
    hide DaysBefore, Year, Month, MonthStart;
    YmdOfDay(n);
    var m, q := Month(n), Quarter(n);
    BoundsOfQuarter(n);
    QuarterStart(Year(n), q);
    assert m == 3 * q - 2 || m == 3 * q - 1 || m == 3 * q;
  }

  lemma {:induction false} InOwnYear(n: Date)
    ensures InBounds(PeriodBounds(Yearly, n), n)
  {
    hide DaysBefore, Year;
    var y := Year(n);
    YearStep(y);
    YearOfMonths(y);
    assert MonthStart(y, 12) + 31 == MonthStart(y, 13);
  }

  /** Every date lies in its own period. */
  lemma {:induction false} DateInBounds(kind: PeriodKind, n: Date)
    ensures InBounds(PeriodBounds(kind, n), n)
  {
    hide DaysBefore, Year, Month, MonthStart;
    match kind {
      case Daily =>
      case Weekly =>
      case Monthly =>
        YmdOfDay(n);
        MonthEnd(Year(n), Month(n));
      case Quarterly => InOwnQuarter(n);
      case Yearly => InOwnYear(n);
    }
  }

  lemma {:induction false} SameMonth(n: Date, k: Date)
    requires InBounds(PeriodBounds(Monthly, n), k)
    ensures Year(k) == Year(n) && Month(k) == Month(n)
  {
    hide DaysBefore, Year, Month;
    MonthEnd(Year(n), Month(n));
    MonthOfDay(k, Year(n), Month(n));
  }

  lemma {:induction false} SameQuarter(n: Date, k: Date)
    requires InBounds(PeriodBounds(Quarterly, n), k)
    ensures Year(k) == Year(n) && Quarter(k) == Quarter(n)
  {
    hide DaysBefore, Year, Month, MonthStart;
    var y, q := Year(n), Quarter(n);
    BoundsOfQuarter(n);
    QuarterStart(y, q);
    var o := k - DaysBefore(y);
    var j := if o <= MonthStart(y, 3 * q - 1) then 3 * q - 2 else if o <= MonthStart(y, 3 * q) then 3 * q - 1 else 3 * q;
    MonthOfDay(k, y, j);
  }

  lemma {:induction false} SameYear(n: Date, k: Date)
    requires InBounds(PeriodBounds(Yearly, n), k)
    ensures Year(k) == Year(n)
  {
    hide DaysBefore, Year;
    var y := Year(n);
    YearStep(y);
    YearOfMonths(y);
    assert MonthStart(y, 12) + 31 == MonthStart(y, 13);
    YearIs(k, y);
  }

  /** The other dates of a period have the same period and the same key. */
  lemma {:induction false} SamePeriod(kind: PeriodKind, n: Date, k: Date)
    requires InBounds(PeriodBounds(kind, n), k)
    ensures PeriodBounds(kind, k) == PeriodBounds(kind, n)
    ensures CurrentKey(kind, k) == CurrentKey(kind, n)
  {
    hide DaysBefore, Year, Month, Pad, Print, YearText, MonthStart, DayNumber;
    match kind {
      case Daily =>
      case Weekly => SameWeek(n, k);
      case Monthly => SameMonth(n, k);
      case Quarterly => SameQuarter(n, k);
      case Yearly => SameYear(n, k);
    }
  }

  // ---------- Periods the range cannot close ----------

  /** The dates whose period reaches past the range, or whose period's end is looked for past it. */
  predicate Unclosed(kind: PeriodKind, n: Date) {
    match kind
    case Daily => false
    case Weekly => n == MAX_DATE || n <= MIN_DATE + 3
    case Monthly => Year(n) == MAX_YEAR && Month(n) == 12
    case Quarterly => Year(n) == MAX_YEAR && Quarter(n) == 4
    case Yearly => false
  }

  lemma {:induction false} LastDay(y: int, m: nat)
    requires MIN_YEAR <= y <= MAX_YEAR && 1 <= m <= 12
    ensures LastDayOfMonth(y, m) == if y == MAX_YEAR && m == 12 then Panic else Within(LastOfMonth(y, m))
  {
    hide DaysBefore, InRange, MonthStart, DayNumber;
    if y != MAX_YEAR || m != 12 { LastInRange(y, m); }
  }

  lemma {:induction false} LastInRange(y: int, m: nat)
    requires MIN_YEAR <= y <= MAX_YEAR && 1 <= m <= 12
    ensures InRange(LastOfMonth(y, m))
  {
    hide DaysBefore, InRange, MonthStart, Year, LastOfMonth, DayNumber;
    MonthEnd(y, m);
    MonthLast(y, m);
    DayOfYmd(y, m, MonthLength(y, m));
    RangeOfYears(LastOfMonth(y, m));
  }

  lemma MonthLast(y: int, m: nat)
    requires 1 <= m <= 12
    ensures DaysBefore(y) + MonthStart(y, m + 1) == DayNumber(y, m, MonthLength(y, m))
  {
  }

  lemma {:induction false} WeekWithin(n: Date)
    requires InRange(n)
    ensures MondayOf(n) < MIN_DATE <==> n <= MIN_DATE + 3
    ensures MondayOf(n) + 6 > MAX_DATE <==> n == MAX_DATE
  {
    hide DaysBefore;
    EndWeekdays();
    if n <= MIN_DATE + 3 { WeekdayNear(MIN_DATE, n - MIN_DATE); }
    if n == MIN_DATE + 4 || n == MIN_DATE + 5 { WeekdayAfter(n); }
    if n == MAX_DATE { assert MondayOf(n) == MAX_DATE; }
    if MAX_DATE - 6 <= n < MAX_DATE { WeekdayShift(MAX_DATE, -1); WeekdayNear(MAX_DATE - 7, n - (MAX_DATE - 7)); }
  }

  lemma WeekdayAfter(n: Date)
    requires MIN_DATE + 4 <= n <= MIN_DATE + 5
    ensures MondayOf(n) >= MIN_DATE
  {
  }

  /** For a date within the range, its period's bounds are computed exactly when the range can close them. */
  lemma {:induction false} BoundsOfDate(kind: PeriodKind, n: Date)
    requires InRange(n)
    ensures BoundsOf(kind, n) == if Unclosed(kind, n) then Panic else Within(PeriodBounds(kind, n))
  {
    hide DaysBefore, Year, Month, MonthStart, InRange, LastDayOfMonth, LastOfMonth, Weekday;
    RangeOfYears(n);
    var y, m := Year(n), Month(n);
    match kind {
      case Daily =>
      case Weekly => WeekBounds(n);
      case Monthly => LastDay(y, m);
      case Quarterly => LastDay(y, (m - 1) / 3 * 3 + 3);
      case Yearly =>
    }
  }

  lemma {:induction false} WeekBounds(n: Date)
    requires InRange(n)
    ensures BoundsOf(Weekly, n) == if Unclosed(Weekly, n) then Panic else Within(PeriodBounds(Weekly, n))
  {
    hide DaysBefore, Weekday;
    WeekWithin(n);
  }
}
