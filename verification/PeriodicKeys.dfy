/** Keys, bounds and dates agree: a key parses back to the bounds it was made from, and names one period. */
module PeriodicKeys {
  import opened Text
  import opened Decimal
  import opened Calendar
  import opened Periodic

  lemma {:induction false} LeadingDigitsIs(a: string, b: string, max: nat)
    requires AllDigits(a) && |a| <= max && (|a| == max || b == [] || !IsDigit(b[0]))
    ensures LeadingDigits(a + b, max) == |a|
  {
    if a != [] {
      assert (a + b)[1..] == a[1..] + b;
      LeadingDigitsIs(a[1..], b, max - 1);
    } else {
      assert a + b == b;
    }
  }

  lemma DigitNotSpace(c: char)
    ensures IsDigit(c) ==> !IsSpace(c)
  {
  }

  lemma {:induction false} ScanDigits(a: string, b: string, max: nat)
    requires a != [] && AllDigits(a) && |a| <= max && (|a| == max || b == [] || !IsDigit(b[0]))
    ensures ScanNumber(a + b, max) == Scan(Value(a), b)
    ensures TrimStart(a + b) == a + b && !StartsWith(a + b, '-') && !StartsWith(a + b, '+')
  {
    hide LeadingDigits, Value;
    LeadingDigitsIs(a, b, max);
    assert (a + b)[..|a|] == a && (a + b)[|a|..] == b;
    assert (a + b)[0] == a[0] && IsDigit(a[0]);
    DigitNotSpace(a[0]);
  }

  /** A sign, if there is one, and digits. */
  ghost predicate Signed(a: string) {
    && a != [] && AllDigits(a[1..])
    && (IsDigit(a[0]) || (|a| > 1 && (a[0] == '-' || a[0] == '+')))
  }

  lemma {:induction false} SplitAfterYear(a: string, pat: string, b: string)
    requires Signed(a) && |pat| == 2 && pat[0] == '-' && !IsDigit(pat[1])
    ensures SplitOnce(a + pat + b, pat) == Split(a, b)
  {
    var s := a + pat + b;
    forall j | 0 <= j < |a|
      ensures !At(s, pat, j)
    {
      AtIndex(s, pat, j, 0);
      AtIndex(s, pat, j, 1);
      assert s[j] == a[j];
      if j > 0 { assert a[j] == a[1..][j - 1]; }
      if j == 0 && a[0] == '-' { assert s[1] == a[1] == a[1..][0]; }
    }
    SplitOnceIs(a, pat, b);
  }

  lemma {:induction false} SplitAtDash(a: string, b: string)
    requires '-' !in a
    ensures SplitOnce(a + "-" + b, "-") == Split(a, b)
  {
    var s := a + "-" + b;
    forall j | 0 <= j < |a|
      ensures !At(s, "-", j)
    {
      assert s[j] == a[j];
      AtFirst(s, "-", j);
    }
    SplitOnceIs(a, "-", b);
  }

  // ---------- Years as text ----------

  lemma {:induction false} ParseYearText(y: int)
    requires -MAX_I32 <= y <= MAX_I32
    ensures ParseI32(YearText(y)) == Some(y) && Signed(YearText(y)) && (y >= 0 ==> '-' !in YearText(y))
  {
    hide Pad, Value;
    var digits := Pad(if y < 0 then -y else y, 4);
    assert ("-" + digits)[1..] == digits && ("+" + digits)[1..] == digits;
  }

  lemma {:induction false} ParsePrintInt(y: int)
    requires -MAX_I32 <= y <= MAX_I32
    ensures ParseI32(PrintInt(y)) == Some(y) && Signed(PrintInt(y))
  {
    hide Print, Value;
    var digits := Print(if y < 0 then -y else y);
    assert ("-" + digits)[1..] == digits;
  }

  lemma {:induction false} ScanSignedYear(sign: char, digits: string, rest: string)
    requires (sign == '-' || sign == '+') && digits != [] && AllDigits(digits) && rest != [] && !IsDigit(rest[0])
    ensures ScanYear([sign] + digits + rest) == YearScan(if sign == '-' then -(Value(digits) as int) else Value(digits), rest)
  {
    hide Value, ScanNumber, IsSpace, LeadingDigits;
    SignNotSpace();
    var s := [sign] + digits + rest;
    assert s[1..] == digits + rest;
    ScanDigits(digits, rest, |s|);
  }

  lemma {:induction false} ScanYearText(y: int, rest: string)
    requires rest != [] && !IsDigit(rest[0])
    ensures ScanYear(YearText(y) + rest) == YearScan(y, rest)
  {
    hide Pad, Value, ScanNumber, TrimStart;
    if 0 <= y <= 9999 {
      YearWidth(y);
      ScanDigits(Pad(y, 4), rest, 4);
    } else {
      hide ScanYear;
      ScanSignedYear(if y < 0 then '-' else '+', Pad(if y < 0 then -y else y, 4), rest);
    }
  }

  lemma SignNotSpace()
    ensures !IsSpace('-') && !IsSpace('+')
  {
  }

  lemma YearWidth(y: nat)
    requires y <= 9999
    ensures |Pad(y, 4)| == 4
  {
    assert Power10(4) == 10000;
    PadLength(y, 4);
  }

  lemma {:induction false} YmdRoundTrip(y: int, m: nat, d: nat)
    requires m <= 99 && d <= 99
    ensures ParseYmd(YearText(y) + "-" + (Pad(m, 2) + "-" + Pad(d, 2))) == FromYmd(y, m, d)
  {
    hide Pad, Value, TrimStart, FromYmd, ScanNumber, YearText, ScanYear;
    Widths(m, d);
    var ms, ds := Pad(m, 2), Pad(d, 2);
    var tail := ms + "-" + ds;
    Assoc(YearText(y), "-", tail);
    Assoc(ms, "-", ds);
    ScanYearText(y, "-" + tail);
    ScanDigits(ms, "-" + ds, 2);
    ScanDigits(ds, [], 2);
    assert ds + [] == ds;
    assert ("-" + tail)[1..] == tail && ("-" + ds)[1..] == ds;
  }

  lemma Widths(m: nat, d: nat)
    requires m <= 99 && d <= 99
    ensures |Pad(m, 2)| == 2 && |Pad(d, 2)| == 2
  {
    assert Power10(2) == 100;
    PadLength(m, 2);
    PadLength(d, 2);
  }

  // ---------- The way back, kind by kind ----------

  /** The years of dates in range, and of their weeks. */
  predicate SmallYear(y: int) { MIN_YEAR - 1 <= y <= MAX_YEAR + 1 }

  lemma {:induction false} SmallYears(n: Date)
    requires InRange(n)
    ensures SmallYear(Year(n)) && SmallYear(IsoYear(n))
  {
    hide Year, DaysBefore;
    RangeOfYears(n);
    var y, t := Year(n), ThursdayOf(n);
    var z := Year(t);
    assert n - 3 <= t <= n + 3;
    YearStep(y - 1);
    YearStep(y);
    YearStep(y + 1);
    if z < y - 1 { YearsApart(z, y - 1); }
    if y + 1 < z { YearsApart(y + 1, z); }
  }

  lemma {:induction false} DayForKey(n: Date)
    requires InRange(n)
    ensures DateForKey(Daily, CurrentKey(Daily, n)) == Some(n)
  {
    hide Year, Month, Day, DaysBefore, Pad, ParseYmd, MonthStart, YearText, InRange;
    YmdOfDay(n);
    RangeOfYears(n);
    YmdRoundTrip(Year(n), Month(n), Day(n));
  }

  lemma {:induction false} WeekForKey(y: int, w: nat)
    requires SmallYear(y) && w <= 53
    ensures DateForKey(Weekly, YearText(y) + "-W" + Pad(w, 2)) == FromIsoWeek(y, w)
  {
    hide Pad, SplitOnce, ParseU32, ParseI32, FromIsoWeek, YearText;
    ParseYearText(y);
    ParsePad(w, 2);
    SplitAfterYear(YearText(y), "-W", Pad(w, 2));
  }

  lemma {:induction false} MonthForKey(y: int, m: nat)
    requires SmallYear(y) && m <= 12
    ensures DateForKey(Monthly, YearText(y) + "-" + Pad(m, 2)) == if y >= 0 then FromYmd(y, m, 1) else None
  {
    hide Pad, SplitOnce, ParseU32, ParseI32, FromYmd, YearText;
    if y >= 0 {
      ParseYearText(y);
      ParsePad(m, 2);
      SplitAtDash(YearText(y), Pad(m, 2));
    } else {
      var s := YearText(y) + "-" + Pad(m, 2);
      NegativeYearText(y);
      assert s == "" + "-" + s[1..];
      SplitAtDash("", s[1..]);
      EmptyIsNoYear();
    }
  }

  lemma NegativeYearText(y: int)
    requires y < 0
    ensures YearText(y) == "-" + Pad(-y, 4)
  {
  }

  lemma EmptyIsNoYear()
    ensures ParseI32("") == None
  {
  }

  lemma {:induction false} QuarterForKey(y: int, q: nat)
    requires SmallYear(y) && 1 <= q <= 4
    ensures DateForKey(Quarterly, PrintInt(y) + "-Q" + Print(q)) == FromYmd(y, 3 * q - 2, 1)
  {
    hide Print, SplitOnce, ParseU32, ParseI32, FromYmd, PrintInt;
    ParsePrintInt(y);
    ParsePrint(q);
    SplitAfterYear(PrintInt(y), "-Q", Print(q));
  }

  lemma {:induction false} YearForKey(y: int)
    requires SmallYear(y)
    ensures DateForKey(Yearly, YearText(y)) == FromYmd(y, 1, 1)
  {
    hide ParseI32, FromYmd, YearText;
    ParseYearText(y);
  }

  lemma FirstIsYmd(y: int, m: nat)
    requires 1 <= m <= 12 && MIN_YEAR <= y <= MAX_YEAR
    ensures FromYmd(y, m, 1) == Some(FirstOfMonth(y, m))
  {
  }

  /** Monthly keys of negative years, and the key of the week cut off at the first date, do not parse. */
  predicate ReadsBack(kind: PeriodKind, n: Date) {
    match kind
    case Monthly => Year(n) >= 0
    case Weekly => n > MIN_DATE + 3
    case _ => true
  }

  /** A key stands for the first day of its period. */
  lemma {:induction false} DateForCurrentKey(kind: PeriodKind, n: Date)
    requires InRange(n)
    ensures DateForKey(kind, CurrentKey(kind, n)) == if ReadsBack(kind, n) then Some(PeriodBounds(kind, n).start) else None
  {
    hide Year, Month, Day, DaysBefore, Pad, Print, YearText, PrintInt, ParseYmd, ParseIsoWeekStart, DateForKey, InRange,
      FromIsoWeek, MonthStart, IsoYear, IsoWeek, FirstOfMonth, DayNumber, IsYmd, MonthLength, FromYmd;
    var y, m := Year(n), Month(n);
    SmallYears(n);
    RangeOfYears(n);
    match kind {
      case Daily =>
        DayForKey(n);
      case Weekly =>
        IsoRoundTrip(n);
        IsoWeekSmall(n);
        WeekForKey(IsoYear(n), IsoWeek(n));
        MondayInRange(n);
      case Monthly =>
        MonthForKey(y, m);
        FirstIsYmd(y, m);
      case Quarterly =>
        QuarterForKey(y, Quarter(n));
        FirstIsYmd(y, 3 * Quarter(n) - 2);
      case Yearly =>
        YearForKey(y);
        FirstIsYmd(y, 1);
        FirstDay(y);
    }
  }

  lemma {:induction false} MondayInRange(n: Date)
    requires InRange(n)
    ensures InRange(MondayOf(n)) <==> n > MIN_DATE + 3
  {
    WeekWithin(n);
  }

  lemma FirstDay(y: int)
    ensures IsYmd(y, 1, 1) && FirstOfMonth(y, 1) == DayNumber(y, 1, 1)
  {
  }

  lemma IsoWeekSmall(n: Date)
    ensures 1 <= IsoWeek(n) <= 53
  {
  }

  // ---------- Keys and bounds ----------

  lemma {:induction false} StartInRange(kind: PeriodKind, n: Date)
    requires InRange(n) && ReadsBack(kind, n)
    ensures InRange(PeriodBounds(kind, n).start) && ReadsBack(kind, PeriodBounds(kind, n).start)
    ensures Unclosed(kind, PeriodBounds(kind, n).start) <==> Unclosed(kind, n)
  {
    hide Year, Month, DaysBefore, MonthStart, InRange, PeriodBounds;
    var k := PeriodBounds(kind, n).start;
    DateInBounds(kind, n);
    RangeOfYears(n);
    RangeOfYears(k);
    match kind {
      case Daily => assert k == n by { DailyStart(n); }
      case Weekly => WeekStart(n);
      case Monthly => SameMonth(n, k);
      case Quarterly => SameQuarter(n, k);
      case Yearly => SameYear(n, k);
    }
  }

  lemma DailyStart(n: Date)
    ensures PeriodBounds(Daily, n) == Bounds(n, n)
  {
  }

  lemma {:induction false} WeekStart(n: Date)
    requires InRange(n) && ReadsBack(Weekly, n)
    ensures var k := PeriodBounds(Weekly, n).start;
      InRange(k) && ReadsBack(Weekly, k) && (Unclosed(Weekly, k) <==> Unclosed(Weekly, n))
  {
    hide Weekday, DaysBefore;
    var k := MondayOf(n);
    EndWeekdays();
    WeekWithin(n);
    SameWeek(n, k);
    WeekWithin(k);
  }

  /**
   For every date: the key of its period does what computing the bounds of that period does, be it the bounds
   or a panic; only the keys that do not read back name no period.
   */
  lemma {:induction false} KeyRoundTrip(kind: PeriodKind, n: Date)
    requires InRange(n)
    ensures BoundsForKey(kind, CurrentKey(kind, n)) == if ReadsBack(kind, n) then LookupOf(BoundsOf(kind, n)) else NoPeriod
  {
    hide PeriodBounds, CurrentKey, DateForKey, Year, BoundsOf, Unclosed, InRange;
    DateForCurrentKey(kind, n);
    if ReadsBack(kind, n) {
      var k := PeriodBounds(kind, n).start;
      StartInRange(kind, n);
      BoundsOfDate(kind, n);
      BoundsOfDate(kind, k);
      DateInBounds(kind, n);
      SamePeriod(kind, n, k);
    }
  }

  lemma {:induction false} CommonYearsReadBack(kind: PeriodKind, n: Date)
    requires 1 <= Year(n) <= 9999
    ensures InRange(n) && ReadsBack(kind, n) && !Unclosed(kind, n)
  {
    hide Year;
    RangeOfYears(n);
    assert n > 0 by { if Year(n) > 1 { YearsApart(1, Year(n)); } }
    assert n < MAX_DATE by { YearsApart(Year(n), 10000); YearsApart(10000, MAX_YEAR + 1); }
  }

  /** In years 1 to 9999 nothing is excepted. */
  lemma {:induction false} CommonKeyRoundTrip(kind: PeriodKind, n: Date)
    requires 1 <= Year(n) <= 9999
    ensures BoundsForKey(kind, CurrentKey(kind, n)) == Period(PeriodBounds(kind, n))
  {
    hide PeriodBounds, CurrentKey, BoundsForKey, Year, BoundsOf, Unclosed, InRange, ReadsBack;
    CommonYearsReadBack(kind, n);
    KeyRoundTrip(kind, n);
    BoundsOfDate(kind, n);
  }

  /** Two keys that do not read back are equal only for one period. */
  lemma {:induction false} UnreadKeys(kind: PeriodKind, n: Date, k: Date)
    requires InRange(n) && InRange(k) && !ReadsBack(kind, n) && !ReadsBack(kind, k)
    requires CurrentKey(kind, n) == CurrentKey(kind, k)
    ensures PeriodBounds(kind, n) == PeriodBounds(kind, k)
  {
    hide Year, Month, DaysBefore, MonthStart, Pad, YearText, Value, SplitOnce, LastOfMonth, InRange;
    match kind {
      case Weekly => FirstWeek(n); FirstWeek(k);
      case Monthly =>
        MonthlyParts(n);
        MonthlyParts(k);
    }
  }

  lemma {:induction false} FirstWeek(n: Date)
    requires InRange(n) && n <= MIN_DATE + 3
    ensures MondayOf(n) == MondayOf(MIN_DATE)
  {
    hide DaysBefore;
    EndWeekdays();
    WeekdayNear(MIN_DATE, n - MIN_DATE);
  }

  /** The key of a month before year 0, less its sign, splits into year and month. */
  lemma {:induction false} MonthlyParts(n: Date)
    requires Year(n) < 0
    ensures var key := CurrentKey(Monthly, n);
      && key != [] && SplitOnce(key[1..], "-") == Split(Pad(-Year(n), 4), Pad(Month(n), 2))
      && Value(Pad(-Year(n), 4)) == -Year(n) && Value(Pad(Month(n), 2)) == Month(n)
  {
    hide Year, Month, Pad, Value, SplitOnce;
    var y, m := Pad(-Year(n), 4), Pad(Month(n), 2);
    assert ("-" + y + "-" + m)[1..] == y + "-" + m;
    SplitAtDash(y, m);
  }

  /** Two dates have the same key exactly when one lies in the other's bounds; keys and bounds both partition the dates. */
  lemma {:induction false} KeysPartition(kind: PeriodKind, n: Date, k: Date)
    requires InRange(n) && InRange(k)
    ensures CurrentKey(kind, n) == CurrentKey(kind, k) <==> InBounds(PeriodBounds(kind, n), k)
    ensures CurrentKey(kind, n) == CurrentKey(kind, k) <==> PeriodBounds(kind, n) == PeriodBounds(kind, k)
  {
    hide PeriodBounds, CurrentKey, BoundsForKey, Year, InRange, ReadsBack, DateForKey;
    DateForCurrentKey(kind, n);
    DateForCurrentKey(kind, k);
    DateInBounds(kind, n);
    DateInBounds(kind, k);
    if InBounds(PeriodBounds(kind, n), k) {
      SamePeriod(kind, n, k);
    } else if CurrentKey(kind, n) == CurrentKey(kind, k) {
      if ReadsBack(kind, n) {
        SamePeriod(kind, n, PeriodBounds(kind, n).start);
        SamePeriod(kind, k, PeriodBounds(kind, k).start);
      } else {
        UnreadKeys(kind, n, k);
      }
    }
  }

  // ---------- Any key ----------

  lemma {:induction false} FromYmdDate(y: int, m: nat, d: nat)
    ensures var r := FromYmd(y, m, d);
      r.Some? ==> InRange(r.value) && Year(r.value) == y
  {
    hide Year, Month, DaysBefore, InRange, MonthStart;
    var r := FromYmd(y, m, d);
    if r.Some? {
      DayOfYmd(y, m, d);
      RangeOfYears(r.value);
    }
  }

  lemma {:induction false} WeekStartDate(y: int, w: nat)
    ensures var r := FromIsoWeek(y, w);
      r.Some? ==> InRange(r.value) && MondayOf(r.value) == r.value
  {
    hide DaysBefore, InRange, Weekday;
    var n := DaysBefore(y) + 4;
    SameWeek(n, MondayOf(n));
    WeekdayShift(MondayOf(n), w - 1);
  }

  lemma {:induction false} NoDashBefore(key: string)
    ensures var r := SplitOnce(key, "-");
      r.Split? && ParseI32(r.before).Some? ==> ParseI32(r.before).value >= 0
  {
    hide Value;
    var r := SplitOnce(key, "-");
    if r.Split? && r.before != [] {
      assert !At(key, "-", 0);
      assert key[0..1] == [key[0]];
    }
  }

  /** The date a key stands for is in range, and has a key that reads back. */
  lemma {:induction false} KeyDate(kind: PeriodKind, key: string, n: Date)
    requires DateForKey(kind, key) == Some(n)
    ensures InRange(n) && ReadsBack(kind, n)
  {
    hide DaysBefore, Year, Month, Value, SplitOnce, InRange, ParseI32, ParseU32, FromYmd, FromIsoWeek, ScanYear, ScanNumber, TrimStart;
    match kind {
      case Daily => DailyDate(key, n);
      case Weekly =>
        var parts := SplitOnce(key, "-W");
        WeekStartDate(ParseI32(parts.before).value, ParseU32(parts.after).value);
        MondayInRange(n);
      case Monthly =>
        var parts := SplitOnce(key, "-");
        FromYmdDate(ParseI32(parts.before).value, ParseU32(parts.after).value, 1);
        NoDashBefore(key);
      case Quarterly =>
        var parts := SplitOnce(key, "-Q");
        FromYmdDate(ParseI32(parts.before).value, Wrap32(Wrap32((ParseU32(parts.after).value - 1) * 3) + 1), 1);
      case Yearly =>
        FromYmdDate(ParseI32(key).value, 1, 1);
    }
  }

  lemma {:induction false} DailyDate(key: string, n: Date)
    requires ParseYmd(key) == Some(n)
    ensures InRange(n)
  {
    hide DaysBefore, Year, Value, InRange, FromYmd, ScanYear, ScanNumber, TrimStart;
    var y := ScanYear(key);
    var m := ScanNumber(TrimStart(y.after[1..]), 2);
    var d := ScanNumber(TrimStart(m.rest[1..]), 2);
    FromYmdDate(y.year, m.value, d.value);
  }

  /** Looking up a key panics exactly when it stands for a date whose period the range cannot close. */
  lemma {:induction false} KeyPanics(kind: PeriodKind, key: string)
    ensures BoundsForKey(kind, key).LookupPanics? <==> DateForKey(kind, key).Some? && Unclosed(kind, DateForKey(kind, key).value)
  {
    hide DateForKey, BoundsOf, Unclosed, InRange, PeriodBounds;
    var d := DateForKey(kind, key);
    if d.Some? {
      KeyDate(kind, key, d.value);
      BoundsOfDate(kind, d.value);
    }
  }

  /**
   Whatever key is accepted, in its canonical form or not, its bounds are those of a genuine period, and
   the canonical key of that period is accepted for the same bounds.
   */
  lemma {:induction false} AcceptedKey(kind: PeriodKind, key: string, b: Bounds)
    requires BoundsForKey(kind, key) == Period(b)
    ensures InRange(b.start) && InRange(b.end) && b.start <= b.end
    ensures forall n :: InBounds(b, n) ==> PeriodBounds(kind, n) == b
    ensures BoundsForKey(kind, CurrentKey(kind, b.start)) == Period(b)
  {
    hide DateForKey, BoundsOf, Unclosed, InRange, PeriodBounds, CurrentKey, ReadsBack;
    var d := DateForKey(kind, key).value;
    KeyDate(kind, key, d);
    BoundsOfDate(kind, d);
    DateInBounds(kind, d);
    forall n | InBounds(b, n)
      ensures PeriodBounds(kind, n) == b
    {
      SamePeriod(kind, d, n);
    }
    StartInRange(kind, d);
    BoundsOfDate(kind, b.start);
    KeyRoundTrip(kind, b.start);
    EndInRange(kind, d);
  }

  /** A period the range can close ends within it. */
  lemma {:induction false} EndInRange(kind: PeriodKind, n: Date)
    requires InRange(n) && !Unclosed(kind, n)
    ensures InRange(PeriodBounds(kind, n).end)
  {
    hide Year, Month, DaysBefore, MonthStart, InRange, PeriodBounds;
    var k := PeriodBounds(kind, n).end;
    DateInBounds(kind, n);
    RangeOfYears(n);
    RangeOfYears(k);
    match kind {
      case Daily => DailyStart(n);
      case Weekly => WeekEnd(n);
      case Monthly => SameMonth(n, k);
      case Quarterly => SameQuarter(n, k);
      case Yearly => SameYear(n, k);
    }
  }

  lemma {:induction false} WeekEnd(n: Date)
    requires InRange(n) && !Unclosed(Weekly, n)
    ensures InRange(PeriodBounds(Weekly, n).end)
  {
    hide Weekday, DaysBefore;
    WeekWithin(n);
  }

  // ---------- What keys look like ----------

  /** `width` digits with a value, at an offset of a text. */
  ghost predicate DigitsAt(s: string, at: nat, width: nat, value: int) {
    at + width <= |s| && AllDigits(s[at..at + width]) && Value(s[at..at + width]) == value
  }

  /**
   The keys of dates whose years have four digits or fewer: "YYYY-MM-DD", "GGGG-Wvv" with the year and number of the
   ISO week, "YYYY-MM", and "YYYY".
   */
  lemma {:induction false} KeyShapes(n: Date)
    requires 0 <= Year(n) <= 9999 && 0 <= IsoYear(n) <= 9999
    ensures var key := CurrentKey(Daily, n);
      |key| == 10 && key[4] == '-' && key[7] == '-'
      && DigitsAt(key, 0, 4, Year(n)) && DigitsAt(key, 5, 2, Month(n)) && DigitsAt(key, 8, 2, Day(n))
    ensures var key := CurrentKey(Weekly, n);
      |key| == 8 && key[4..6] == "-W" && DigitsAt(key, 0, 4, IsoYear(n)) && DigitsAt(key, 6, 2, IsoWeek(n))
    ensures var key := CurrentKey(Monthly, n);
      |key| == 7 && key[4] == '-' && DigitsAt(key, 0, 4, Year(n)) && DigitsAt(key, 5, 2, Month(n))
    ensures var key := CurrentKey(Yearly, n);
      |key| == 4 && DigitsAt(key, 0, 4, Year(n))
  {
    hide Year, Month, Day, IsoYear, IsoWeek, Pad, Value, DaysBefore, MonthStart;
    YearWidth(Year(n));
    YearWidth(IsoYear(n));
    DaySmall(n);
    IsoWeekSmall(n);
    Widths(Month(n), Day(n));
    Widths(IsoWeek(n), 0);
    var y, m, d := Pad(Year(n), 4), Pad(Month(n), 2), Pad(Day(n), 2);
    DailyShape(y, m, d);
    var g, w := Pad(IsoYear(n), 4), Pad(IsoWeek(n), 2);
    assert (g + "-W" + w)[0..4] == g && (g + "-W" + w)[4..6] == "-W" && (g + "-W" + w)[6..8] == w;
    assert (y + "-" + m)[0..4] == y && (y + "-" + m)[5..7] == m;
    assert y[0..4] == y;
  }

  lemma DaySmall(n: Date)
    ensures Day(n) <= 31
  {
  }

  lemma DailyShape(y: string, m: string, d: string)
    requires |y| == 4 && |m| == 2 && |d| == 2
    ensures var key := y + "-" + (m + "-" + d);
      |key| == 10 && key[4] == '-' && key[7] == '-' && key[0..4] == y && key[5..7] == m && key[8..10] == d
  {
  }

  /** A quarterly key: the year as it is, and the number of the quarter, whose months are the three up to its triple. */
  lemma {:induction false} QuarterlyShape(n: Date)
    requires Year(n) >= 0
    ensures var key := CurrentKey(Quarterly, n);
      exists w :: 0 < w && |key| == w + 3 && key[w..w + 2] == "-Q" && (w > 1 ==> key[0] != '0')
               && DigitsAt(key, 0, w, Year(n)) && DigitsAt(key, w + 2, 1, Quarter(n))
    ensures 3 * Quarter(n) - 2 <= Month(n) <= 3 * Quarter(n)
  {
    hide Year, Month, Print, Value;
    var y, q := Print(Year(n)), Print(Quarter(n));
    var w := |y|;
    var key := CurrentKey(Quarterly, n);
    OneDigit(Quarter(n));
    NoLeadingZero(Year(n));
    assert key == y + "-Q" + q;
    assert key[0..w] == y && key[w..w + 2] == "-Q" && key[w + 2..w + 3] == q;
    assert DigitsAt(key, 0, w, Year(n)) && DigitsAt(key, w + 2, 1, Quarter(n));
  }

  lemma OneDigit(q: nat)
    requires q < 10
    ensures |Print(q)| == 1
  {
  }

  lemma {:induction false} NoLeadingZero(n: nat)
    ensures |Print(n)| > 1 ==> Print(n)[0] != '0'
  {
    if n >= 10 {
      NoLeadingZero(n / 10);
      FirstOfOne(n / 10);
    }
  }

  lemma FirstOfOne(n: nat)
    ensures 0 < n < 10 ==> Print(n) == [DigitChar(n)] && Print(n)[0] != '0'
  {
  }

  // ---------- Keys that are refused, or read otherwise than they look ----------

  /** Nothing may follow a daily key. */
  lemma {:induction false} TrailingTextRefused(y: int, m: nat, d: nat, extra: string)
    requires m <= 99 && d <= 99 && extra != []
    ensures ParseYmd(YearText(y) + "-" + (Pad(m, 2) + "-" + (Pad(d, 2) + extra))) == None
  {
    hide Pad, Value, TrimStart, FromYmd, ScanNumber, YearText, ScanYear;
    Widths(m, d);
    var ms, ds := Pad(m, 2), Pad(d, 2);
    var tail := ms + "-" + (ds + extra);
    Assoc(YearText(y), "-", tail);
    Assoc(ms, "-", ds + extra);
    ScanYearText(y, "-" + tail);
    ScanDigits(ms, "-" + (ds + extra), 2);
    ScanDigits(ds, extra, 2);
    assert ("-" + tail)[1..] == tail && ("-" + (ds + extra))[1..] == ds + extra;
  }

  /** The year, month and day of a daily key each have a digit. */
  lemma {:induction false} EmptyFieldRefused(y: int, m: nat, sign: string, rest: string)
    requires m <= 99 && sign in {"", "+", "-"} && (rest == [] || (!IsDigit(rest[0]) && !IsSpace(rest[0])))
    requires sign == "" && rest != [] ==> rest[0] != '+' && rest[0] != '-'
    ensures ParseYmd(sign + rest) == None
    ensures ParseYmd(YearText(y) + "-" + rest) == None
    ensures ParseYmd(YearText(y) + "-" + (Pad(m, 2) + "-" + rest)) == None
  {
    hide Pad, Value, FromYmd, YearText, ScanYear, IsSpace;
    NoNumber(rest, 2);
    EmptyYear(sign, rest);
    Widths(m, 0);
    Assoc(YearText(y), "-", rest);
    ScanYearText(y, "-" + rest);
    assert ("-" + rest)[1..] == rest;
    var ms := Pad(m, 2);
    var tail := ms + "-" + rest;
    Assoc(YearText(y), "-", tail);
    Assoc(ms, "-", rest);
    ScanYearText(y, "-" + tail);
    ScanDigits(ms, "-" + rest, 2);
    assert ("-" + tail)[1..] == tail;
  }

  lemma NoNumber(rest: string, max: nat)
    requires rest == [] || (!IsDigit(rest[0]) && !IsSpace(rest[0]))
    ensures TrimStart(rest) == rest && ScanNumber(rest, max) == NoScan
  {
    hide IsSpace;
  }

  lemma {:induction false} EmptyYear(sign: string, rest: string)
    requires sign in {"", "+", "-"} && (rest == [] || (!IsDigit(rest[0]) && !IsSpace(rest[0])))
    requires sign == "" && rest != [] ==> rest[0] != '+' && rest[0] != '-'
    ensures ScanYear(sign + rest) == NoYear
  {
    hide IsSpace, ScanNumber, TrimStart;
    if sign == "" {
      assert sign + rest == rest;
      NoNumber(rest, 4);
    } else {
      SignedNothing(sign[0], rest);
      assert sign + rest == [sign[0]] + rest;
    }
  }

  lemma NothingToTrim(s: string)
    requires s != [] && !IsSpace(s[0])
    ensures TrimStart(s) == s
  {
  }

  lemma SignedYear(s: string)
    requires s != [] && (s[0] == '-' || s[0] == '+') && TrimStart(s) == s && ScanNumber(s[1..], |s|) == NoScan
    ensures ScanYear(s) == NoYear
  {
    hide TrimStart, ScanNumber;
  }

  lemma {:induction false} SignedNothing(sign: char, rest: string)
    requires (sign == '-' || sign == '+') && (rest == [] || (!IsDigit(rest[0]) && !IsSpace(rest[0])))
    ensures ScanYear([sign] + rest) == NoYear
  {
    hide *;
    SignNotSpace();
    var s := [sign] + rest;
    assert s[1..] == rest;
    NothingToTrim(s);
    NoNumber(rest, |s|);
    SignedYear(s);
  }

  /** The first month of a quarter is computed in 32 bits, so this quarter of a year is read as the one that holds March. */
  lemma {:induction false} WrappedQuarter(y: int)
    requires 1 <= y <= 9999
    ensures DateForKey(Quarterly, PrintInt(y) + "-Q" + Print(1431655767)) == FromYmd(y, 3, 1)
  {
    hide Print, SplitOnce, ParseU32, ParseI32, FromYmd, PrintInt;
    ParsePrintInt(y);
    ParsePrint(1431655767);
    SplitAfterYear(PrintInt(y), "-Q", Print(1431655767));
  }
}
