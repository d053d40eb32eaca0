/** The build timestamp: days since the epoch to a proleptic Gregorian date by exact integer
    arithmetic over the 400-year cycle, checked against the calendar's own rules. */
module CivilDate {
  datatype Date = Date(year: int, month: int, day: int)
  datatype DateTime = DateTime(date: Date, hour: int, minute: int, second: int)

  // ---------------------------------------------------------------- the computation

  function YearOfEra(doe: int): int {
    (doe - doe / 1460 + doe / 36_524 - doe / 146_096) / 365
  }

  /** Days before year `yoe` of an era, years starting in March. */
  function EraDays(yoe: int): int {
    365 * yoe + yoe / 4 - yoe / 100
  }

  function CivilFromDays(days: int): Date {
    var z := days + 719_468;
    CivilOfEra(z / 146_097, z % 146_097)
  }

  function CivilOfEra(era: int, doe: int): Date {
    var yoe := YearOfEra(doe);
    DateOfMarchYear(yoe + era * 400, doe - EraDays(yoe))
  }

  /** Month and day from the day of a year that starts in March. */
  function DateOfMarchYear(y: int, doy: int): Date {
    var mp := (5 * doy + 2) / 153;
    var d := doy - (153 * mp + 2) / 5 + 1;
    var m := if mp < 10 then mp + 3 else mp - 9;
    Date(if m <= 2 then y + 1 else y, m, d)
  }

  function BuiltAt(secs: int): DateTime {
    var days := secs / 86_400;
    var rem := secs % 86_400;
    DateTime(CivilFromDays(days), rem / 3600, (rem % 3600) / 60, rem % 60)
  }

  // ---------------------------------------------------------------- the calendar

  predicate IsLeap(year: int) {
    year % 4 == 0 && (year % 100 != 0 || year % 400 == 0)
  }

  function DaysInMonth(year: int, month: int): int {
    if month == 2 then (if IsLeap(year) then 29 else 28)
    else if month == 4 || month == 6 || month == 9 || month == 11 then 30
    else 31
  }

  predicate Valid(date: Date) {
    1 <= date.month <= 12 && 1 <= date.day <= DaysInMonth(date.year, date.month)
  }

  predicate ValidTime(t: DateTime) {
    Valid(t.date) && 0 <= t.hour < 24 && 0 <= t.minute < 60 && 0 <= t.second < 60
  }

  /** The calendar day after a date. */
  function NextDay(date: Date): Date {
    if date.day < DaysInMonth(date.year, date.month) then date.(day := date.day + 1)
    else if date.month < 12 then Date(date.year, date.month + 1, 1)
    else Date(date.year + 1, 1, 1)
  }

  function DaysBeforeMonth(year: int, month: int): int
    requires 1 <= month <= 12
    decreases month
  {
    if month == 1 then 0 else DaysBeforeMonth(year, month - 1) + DaysInMonth(year, month - 1)
  }

  function DaysInYear(year: int): int {
    365 + if IsLeap(year) then 1 else 0
  }

  /** Days from the start of year 1, counted year by year in either direction. */
  function DaysBeforeYear(year: int): int
    decreases if year >= 1 then year else 2 - year
  {
    if year == 1 then 0
    else if year > 1 then DaysBeforeYear(year - 1) + DaysInYear(year - 1)
    else DaysBeforeYear(year + 1) - DaysInYear(year)
  }

  /** The closed form of the same count. */
  function LeapFormula(n: int): int {
    365 * n + n / 4 - n / 100 + n / 400
  }

  /** Days since 1970-01-01, counted by whole years, whole months and days. */
  function DayNumber(date: Date): int
    requires 1 <= date.month <= 12
  {
    DaysBeforeYear(date.year) + DaysBeforeMonth(date.year, date.month) + date.day - 1 - 719_162
  }

  // ---------------------------------------------------------------- one era

  /** A day of an era as century, leap cycle, year of the cycle and day of that year. */
  ghost predicate Split(doe: int, c: int, q: int, k: int, r: int) {
    && 0 <= c < 4 && 0 <= q < 25 && 0 <= k < 4 && 0 <= r
    && doe == 36_524 * c + 1461 * q + 365 * k + r
    && (r <= 364 || (r == 365 && k == 3 && (q < 24 || c == 3)))
  }

  lemma SplitEra(doe: int) returns (c: int, q: int, k: int, r: int)
    requires 0 <= doe < 146_097
    ensures Split(doe, c, q, k, r)
  {
    c := if doe / 36_524 < 4 then doe / 36_524 else 3;
    var inCentury := doe - 36_524 * c;
    q := inCentury / 1461;
    var inCycle := inCentury - 1461 * q;
    k := if inCycle / 365 < 4 then inCycle / 365 else 3;
    r := inCycle - 365 * k;
  }

  lemma SplitYear(doe: int, c: int, q: int, k: int, r: int)
    requires Split(doe, c, q, k, r)
    ensures EraDays(100 * c + 4 * q + k) == doe - r
    ensures 0 <= 100 * c + 4 * q + k < 400
  {
    var y := 100 * c + 4 * q + k;
    assert y / 4 == 25 * c + q;
    assert y / 100 == c;
  }

  /** The leap cycles and centuries the formula subtracts. */
  lemma SplitCycles(doe: int, c: int, q: int, t: int)
    requires doe == 1460 * (25 * c + q) + t
    ensures doe / 1460 == 25 * c + q + t / 1460
  {
  }

  lemma SplitCenturies(doe: int, c: int, q: int, k: int, r: int)
    requires Split(doe, c, q, k, r)
    ensures doe / 36_524 - doe / 146_096 == c
  {
    var u := doe - 36_524 * c;
    assert 0 <= u <= 36_524;
    if u == 36_524 {
      assert c == 3 && doe == 146_096;
    } else {
      assert doe / 36_524 == c;
    }
  }

  lemma SplitFormula(doe: int, c: int, q: int, k: int, r: int)
    requires Split(doe, c, q, k, r)
    ensures YearOfEra(doe) == 100 * c + 4 * q + k
  {
    var t := 24 * c + q + 365 * k + r;
    SplitCycles(doe, c, q, t);
    SplitCenturies(doe, c, q, k, r);
    var n := doe - doe / 1460 + doe / 36_524 - doe / 146_096;
    assert n == 365 * (100 * c + 4 * q + k) + (r - t / 1460);
    SplitRemainder(c, q, k, r, t);
    YearQuotient(n, 100 * c + 4 * q + k, r - t / 1460);
  }

  lemma SplitRemainder(c: int, q: int, k: int, r: int, t: int)
    requires 0 <= c < 4 && 0 <= q < 25 && 0 <= k < 4 && 0 <= r && t == 24 * c + q + 365 * k + r
    requires r <= 364 || (r == 365 && k == 3 && (q < 24 || c == 3))
    ensures 0 <= r - t / 1460 < 365
  {
    assert 0 <= t < 2920;
  }

  lemma YearQuotient(n: int, y: int, d: int)
    requires n == 365 * y + d && 0 <= d < 365
    ensures n / 365 == y
  {
  }

  lemma LeapEnd(c: int, q: int)
    requires 0 <= c < 4 && 0 <= q < 25 && (q < 24 || c == 3)
    ensures IsLeap(100 * c + 4 * q + 4)
  {
    var y := 100 * c + 4 * q + 4;
    assert y == 4 * (25 * c + q + 1);
    if q < 24 { assert y / 100 == c; }
  }

  /** The year formula finds the year whose days contain the given day of the era. */
  lemma YearOfEraExact(doe: int)
    requires 0 <= doe < 146_097
    ensures var yoe := YearOfEra(doe);
            && 0 <= yoe < 400
            && EraDays(yoe) <= doe
            && doe <= EraDays(yoe) + 364 + if IsLeap(yoe + 1) then 1 else 0
  {
    var c, q, k, r := SplitEra(doe);
    SplitYear(doe, c, q, k, r);
    SplitFormula(doe, c, q, k, r);
    if r == 365 { LeapEnd(c, q); }
  }

  // ---------------------------------------------------------------- months

  /** Day and month of a March-based year. */
  lemma MonthExact(doy: int, year: int)
    requires 0 <= doy <= 364 + if IsLeap(year + 1) then 1 else 0
    ensures var date := DateOfMarchYear(year, doy);
            && Valid(date) && date.year == (if date.month <= 2 then year + 1 else year)
            && DaysBeforeMonth(date.year, date.month) + date.day - 1
               == if date.month <= 2 then doy - 306 else doy + 59 + if IsLeap(year) then 1 else 0
  {
    var mp := (5 * doy + 2) / 153;
    MonthTable(year);
    MonthTable(year + 1);
    if mp == 0 {} else if mp == 1 {} else if mp == 2 {} else if mp == 3 {} else if mp == 4 {} else if mp == 5 {}
    else if mp == 6 {} else if mp == 7 {} else if mp == 8 {} else if mp == 9 {} else if mp == 10 {} else {}
  }

  lemma MonthTable(y: int)
    ensures var l := if IsLeap(y) then 1 else 0;
            && DaysBeforeMonth(y, 1) == 0 && DaysBeforeMonth(y, 2) == 31 && DaysBeforeMonth(y, 3) == 59 + l
            && DaysBeforeMonth(y, 4) == 90 + l && DaysBeforeMonth(y, 5) == 120 + l && DaysBeforeMonth(y, 6) == 151 + l
            && DaysBeforeMonth(y, 7) == 181 + l && DaysBeforeMonth(y, 8) == 212 + l && DaysBeforeMonth(y, 9) == 243 + l
            && DaysBeforeMonth(y, 10) == 273 + l && DaysBeforeMonth(y, 11) == 304 + l && DaysBeforeMonth(y, 12) == 334 + l
  {
    assert DaysBeforeMonth(y, 3) == DaysBeforeMonth(y, 2) + DaysInMonth(y, 2);
    assert DaysBeforeMonth(y, 5) == DaysBeforeMonth(y, 4) + 30;
    assert DaysBeforeMonth(y, 7) == DaysBeforeMonth(y, 6) + 30;
    assert DaysBeforeMonth(y, 9) == DaysBeforeMonth(y, 8) + 31;
    assert DaysBeforeMonth(y, 11) == DaysBeforeMonth(y, 10) + 31;
  }

  // ---------------------------------------------------------------- the whole conversion

  lemma StepBy4(y: int)
    ensures y / 4 - (y - 1) / 4 == if y % 4 == 0 then 1 else 0
  {
  }

  lemma StepBy100(y: int)
    ensures y / 100 - (y - 1) / 100 == if y % 100 == 0 then 1 else 0
  {
  }

  lemma StepBy400(y: int)
    ensures y / 400 - (y - 1) / 400 == if y % 400 == 0 then 1 else 0
  {
  }

  lemma CenturiesAreFourths(y: int)
    requires y % 100 == 0
    ensures y % 4 == 0
  {
    var k := y / 100;
    assert y == 4 * (25 * k);
  }

  lemma FourthCenturies(y: int)
    requires y % 400 == 0
    ensures y % 100 == 0
  {
    var k := y / 400;
    assert y == 100 * (4 * k);
  }

  lemma FormulaStep(y: int)
    ensures LeapFormula(y) == LeapFormula(y - 1) + DaysInYear(y)
  {
    StepBy4(y);
    StepBy100(y);
    StepBy400(y);
    if y % 400 == 0 { FourthCenturies(y); }
    if y % 100 == 0 { CenturiesAreFourths(y); }
  }

  /** Counting year by year agrees with the closed form, before year 1 as well. */
  lemma {:induction false} YearsByFormula(year: int)
    ensures DaysBeforeYear(year) == LeapFormula(year - 1)
    decreases if year >= 1 then year else 2 - year
  {
    if year > 1 {
      YearsByFormula(year - 1);
      FormulaStep(year - 1);
    } else if year < 1 {
      YearsByFormula(year + 1);
      FormulaStep(year);
    }
  }

  lemma YearStep(y: int)
    ensures DaysBeforeYear(y + 1) == DaysBeforeYear(y) + DaysInYear(y)
  {
  }

  lemma Shift(n: int, era: int)
    ensures (n + era * 400) / 4 == n / 4 + 100 * era && (n + era * 400) % 4 == n % 4
    ensures (n + era * 400) / 100 == n / 100 + 4 * era && (n + era * 400) % 100 == n % 100
    ensures (n + era * 400) / 400 == n / 400 + era && (n + era * 400) % 400 == n % 400
  {
  }

  /** Leap years recur with every era. */
  lemma EraLeaps(era: int, yoe: int)
    ensures IsLeap(yoe + era * 400 + 1) <==> IsLeap(yoe + 1)
  {
    Shift(yoe + 1, era);
  }

  /** Years of an era against years of the calendar. */
  lemma YearDays(era: int, yoe: int)
    requires 0 <= yoe < 400
    ensures DaysBeforeYear(yoe + era * 400 + 1) == 146_097 * era + EraDays(yoe)
  {
    Shift(yoe, era);
    YearsByFormula(yoe + era * 400 + 1);
  }

  lemma MarchYearExact(y: int, doy: int)
    requires 0 <= doy <= 364 + if IsLeap(y + 1) then 1 else 0
    ensures Valid(DateOfMarchYear(y, doy))
    ensures DayNumber(DateOfMarchYear(y, doy)) == DaysBeforeYear(y + 1) + doy - 719_468
  {
    MonthExact(doy, y);
    YearStep(y);
  }

  /** Where the computation places a day of an era: within its March-based year. */
  lemma EraDayExact(era: int, doe: int)
    requires 0 <= doe < 146_097
    ensures var yoe := YearOfEra(doe);
            var y, doy := yoe + era * 400, doe - EraDays(yoe);
            && 0 <= doy <= 364 + (if IsLeap(y + 1) then 1 else 0)
            && DaysBeforeYear(y + 1) + doy == 146_097 * era + doe
  {
    YearOfEraExact(doe);
    YearDays(era, YearOfEra(doe));
    EraLeaps(era, YearOfEra(doe));
  }

  /** The date is day `doy` of the year that starts in March of `y`, `n` days after 0000-03-01. */
  ghost predicate Placed(date: Date, n: int) {
    exists y, doy :: date == DateOfMarchYear(y, doy)
      && 0 <= doy <= 364 + (if IsLeap(y + 1) then 1 else 0) && DaysBeforeYear(y + 1) + doy == n
  }

  lemma EraPlaced(era: int, doe: int)
    requires 0 <= doe < 146_097
    ensures Placed(CivilOfEra(era, doe), 146_097 * era + doe)
  {
    var yoe := YearOfEra(doe);
    EraDayExact(era, doe);
    assert CivilOfEra(era, doe) == DateOfMarchYear(yoe + era * 400, doe - EraDays(yoe));
  }

  lemma PlacedExact(date: Date, n: int)
    requires Placed(date, n)
    ensures Valid(date) && DayNumber(date) == n - 719_468
  {
    var y, doy :| date == DateOfMarchYear(y, doy)
      && 0 <= doy <= 364 + (if IsLeap(y + 1) then 1 else 0) && DaysBeforeYear(y + 1) + doy == n;
    MarchYearExact(y, doy);
  }

  /** For every integer number of days the result is a date of the calendar, and counting its
      days from the epoch gives the number back. */
  lemma CivilIsExact(days: int)
    ensures Valid(CivilFromDays(days)) && DayNumber(CivilFromDays(days)) == days
  {
    var z := days + 719_468;
    EraPlaced(z / 146_097, z % 146_097);
    PlacedExact(CivilFromDays(days), z);
  }

  /** Counting days tells valid dates apart, in calendar order. */
  predicate Before(a: Date, b: Date) {
    a.year < b.year || (a.year == b.year && (a.month < b.month || (a.month == b.month && a.day < b.day)))
  }

  lemma {:induction false} MonthsGrow(y: int, a: int, b: int)
    requires 1 <= a < b <= 12
    ensures DaysBeforeMonth(y, a) + DaysInMonth(y, a) <= DaysBeforeMonth(y, b)
    decreases b
  {
    if a < b - 1 { MonthsGrow(y, a, b - 1); }
  }

  lemma {:induction false} YearsGrow(a: int, b: int)
    requires a <= b
    ensures DaysBeforeYear(a) + 365 * (b - a) <= DaysBeforeYear(b)
    decreases b - a
  {
    if a < b {
      YearsGrow(a, b - 1);
      YearStep(b - 1);
    }
  }

  lemma YearTotal(date: Date)
    requires Valid(date)
    ensures 0 <= DaysBeforeMonth(date.year, date.month) + date.day - 1 < 365 + if IsLeap(date.year) then 1 else 0
  {
    MonthTable(date.year);
  }

  lemma DayNumberOrders(a: Date, b: Date)
    requires Valid(a) && Valid(b) && Before(a, b)
    ensures DayNumber(a) < DayNumber(b)
  {
    if a.year < b.year {
      YearTotal(a);
      YearTotal(b);
      YearStep(a.year);
      YearsGrow(a.year + 1, b.year);
    } else if a.month < b.month {
      MonthsGrow(a.year, a.month, b.month);
    }
  }

  lemma DayNumberNext(date: Date)
    requires Valid(date)
    ensures Valid(NextDay(date)) && DayNumber(NextDay(date)) == DayNumber(date) + 1
  {
    YearStep(date.year);
    MonthTable(date.year);
    MonthTable(date.year + 1);
  }

  /** Valid dates with the same day number are the same date. */
  lemma DayNumberUnique(a: Date, b: Date)
    requires Valid(a) && Valid(b) && DayNumber(a) == DayNumber(b)
    ensures a == b
  {
    if Before(a, b) { DayNumberOrders(a, b); }
    if Before(b, a) { DayNumberOrders(b, a); }
  }

  /** The conversion inverts the day count on every valid date. */
  lemma CivilInvertsDayNumber(date: Date)
    requires Valid(date)
    ensures CivilFromDays(DayNumber(date)) == date
  {
    CivilIsExact(DayNumber(date));
    DayNumberUnique(CivilFromDays(DayNumber(date)), date);
  }

  /** Each further day is the calendar day after. */
  lemma CivilFollowsTheCalendar(days: int)
    ensures CivilFromDays(days + 1) == NextDay(CivilFromDays(days))
  {
    CivilIsExact(days);
    CivilIsExact(days + 1);
    SuccessorUnique(CivilFromDays(days), CivilFromDays(days + 1));
  }

  lemma SuccessorUnique(a: Date, b: Date)
    requires Valid(a) && Valid(b) && DayNumber(b) == DayNumber(a) + 1
    ensures b == NextDay(a)
  {
    DayNumberNext(a);
    DayNumberUnique(b, NextDay(a));
  }

  /** Day zero is 1970-01-01. */
  lemma EpochDay()
    ensures CivilFromDays(0) == Date(1970, 1, 1)
  {
    YearsByFormula(1970);
    assert DayNumber(Date(1970, 1, 1)) == 0;
    CivilInvertsDayNumber(Date(1970, 1, 1));
  }

  // ---------------------------------------------------------------- timestamps

  function SecondsOf(t: DateTime): int
    requires 1 <= t.date.month <= 12
  {
    86_400 * DayNumber(t.date) + 3600 * t.hour + 60 * t.minute + t.second
  }

  predicate Earlier(a: DateTime, b: DateTime) {
    || Before(a.date, b.date)
    || (a.date == b.date && (a.hour < b.hour || (a.hour == b.hour && (a.minute < b.minute || (a.minute == b.minute && a.second < b.second)))))
  }

  /** Every second has a valid timestamp that gives the second back. */
  lemma TimestampInverts(secs: int)
    ensures ValidTime(BuiltAt(secs)) && SecondsOf(BuiltAt(secs)) == secs
  {
    CivilIsExact(secs / 86_400);
    TimeOfDay(secs);
  }

  lemma TimeOfDay(secs: int)
    ensures var rem := secs % 86_400;
            && 0 <= rem / 3600 < 24 && 0 <= (rem % 3600) / 60 < 60 && 0 <= rem % 60 < 60
            && 86_400 * (secs / 86_400) + 3600 * (rem / 3600) + 60 * ((rem % 3600) / 60) + rem % 60 == secs
  {
  }

  lemma EarlierIsSmaller(a: DateTime, b: DateTime)
    requires ValidTime(a) && ValidTime(b) && Earlier(a, b)
    ensures SecondsOf(a) < SecondsOf(b)
  {
    if Before(a.date, b.date) { DayNumberOrders(a.date, b.date); }
  }

  /** Timestamps grow strictly with the clock. */
  lemma TimestampsIncrease(a: int, b: int)
    requires a < b
    ensures Earlier(BuiltAt(a), BuiltAt(b))
  {
    var s, t := BuiltAt(a), BuiltAt(b);
    TimestampInverts(a);
    TimestampInverts(b);
    if !Earlier(s, t) && Earlier(t, s) { EarlierIsSmaller(t, s); }
  }
}
