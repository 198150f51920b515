/**
 The civil-date arithmetic of `format_date_in`, against the proleptic Gregorian
 calendar (month lengths of section 5.7 and leap years of Appendix C of RFC 3339).

 The code counts years from March. It never adds one to the year for January and
 February, so the year it shows is exact from March to December only.
 */
module CivilDate {

  datatype Date = Date(year: int, month: int, day: int)

  /** Intermediate values of the computation. */
  datatype March = March(era: int, yoe: int, mp: int, day: int)

  function EpochDays(epochS: int): int {
    epochS / 86_400
  }

  function YearOfEra(doe: int): int {
    (doe - doe / 1460 + doe / 36_524 - doe / 146_096) / 365
  }

  function ToMarch(days: int): March {
    var z := days + 719_468;
    var era := z / 146_097;
    var doe := z % 146_097;
    var yoe := YearOfEra(doe);
    var doy := doe - (365 * yoe + yoe / 4 - yoe / 100);
    var mp := (5 * doy + 2) / 153;
    March(era, yoe, mp, doy - (153 * mp + 2) / 5 + 1)
  }

  function CalendarMonth(mp: int): int {
    if mp < 10 then mp + 3 else mp - 9
  }

  /** The year, month and day the program prints. */
  function ShownDate(days: int): Date {
    var m := ToMarch(days);
    Date(m.yoe + m.era * 400, CalendarMonth(m.mp), m.day)
  }

  // ------------------------------------------------------------- calendar

  predicate Leap(y: int) {
    y % 4 == 0 && (y % 100 != 0 || y % 400 == 0)
  }

  function MonthLength(y: int, m: int): int {
    if m == 2 then (if Leap(y) then 29 else 28)
    else if m == 4 || m == 6 || m == 9 || m == 11 then 30
    else 31
  }

  predicate Valid(d: Date) {
    1 <= d.month <= 12 && 1 <= d.day <= MonthLength(d.year, d.month)
  }

  function NextDay(d: Date): Date {
    if d.day < MonthLength(d.year, d.month) then d.(day := d.day + 1)
    else if d.month < 12 then Date(d.year, d.month + 1, 1)
    else Date(d.year + 1, 1, 1)
  }

  function PreviousDay(d: Date): Date {
    if d.day > 1 then d.(day := d.day - 1)
    else if d.month > 1 then Date(d.year, d.month - 1, MonthLength(d.year, d.month - 1))
    else Date(d.year - 1, 12, 31)
  }

  /** The calendar date of a day, counted day by day from 1 January 1970. */
  function CalendarDate(days: int): Date
    decreases if days < 0 then -days else days
  {
    if days == 0 then Date(1970, 1, 1)
    else if days > 0 then NextDay(CalendarDate(days - 1))
    else PreviousDay(CalendarDate(days + 1))
  }

  // ------------------------------------------------- years that start in March

  /** Day of the era on which a March year starts. */
  function YearStart(yoe: int): int {
    365 * yoe + yoe / 4 - yoe / 100
  }

  /** Whether the February that ends this March year has 29 days. */
  predicate LeapEnd(yoe: int) {
    yoe % 4 == 3 && (yoe % 100 != 99 || yoe == 399)
  }

  function YearLength(yoe: int): int {
    if LeapEnd(yoe) then 366 else 365
  }

  lemma DivideSum(a: int, n: int, b: int)
    requires n > 0
    ensures (n * a + b) / n == a + b / n
  {
    var q := b / n;
    assert n * a + b == n * (a + q) + b % n;
    DivideExact(a + q, n, b % n);
  }

  lemma DivideExact(q: int, n: int, r: int)
    requires 0 <= r < n
    ensures (n * q + r) / n == q
  {
    var d := (n * q + r) / n;
    assert n * (d - q) <= r && n * (d - q) > r - n;
    assert d - q == 0 by {
      if d - q >= 1 { assert n * (d - q) >= n; }
      if d - q <= -1 { assert n * (d - q) <= -n; }
    }
  }

  /** The century, the four-year cycle and the year within it that hold a day of the era. */
  lemma EraParts(doe: int) returns (c: int, q: int, t: int, w: int)
    requires 0 <= doe < 146_097
    ensures 0 <= c <= 3 && 0 <= q <= 24 && 0 <= t <= 3 && 0 <= w <= 365
    ensures doe == 36_524 * c + 1461 * q + 365 * t + w
    ensures w == 365 ==> t == 3 && (q < 24 || c == 3)
    ensures doe / 36_524 - doe / 146_096 == c
  {
    c := if doe / 36_524 > 3 then 3 else doe / 36_524;
    var rest := doe - 36_524 * c;
    q := rest / 1461;
    t := if rest % 1461 / 365 > 3 then 3 else rest % 1461 / 365;
    w := rest % 1461 - 365 * t;
  }

  /** The year formula picks the year that contains the day of the era. */
  lemma YearOfEraExact(doe: int)
    requires 0 <= doe < 146_097
    ensures 0 <= YearOfEra(doe) <= 399
    ensures YearStart(YearOfEra(doe)) <= doe < YearStart(YearOfEra(doe)) + YearLength(YearOfEra(doe))
  {
    var c, q, t, w := EraParts(doe);
    var u := 24 * c + q + 365 * t + w;
    assert doe == 1460 * (25 * c + q) + u;
    DivideSum(25 * c + q, 1460, u);
    var years := 100 * c + 4 * q + t;
    assert doe - doe / 1460 + doe / 36_524 - doe / 146_096 == 365 * years + (w - u / 1460);
    DivideSum(years, 365, w - u / 1460);
    YearFits(c, q, t, w, u / 1460);
    assert YearOfEra(doe) == years;
    YearContains(c, q, t, w);
  }

  lemma YearFits(c: int, q: int, t: int, w: int, k: int)
    requires 0 <= c <= 3 && 0 <= q <= 24 && 0 <= t <= 3 && 0 <= w <= 365
    requires w == 365 ==> t == 3 && (q < 24 || c == 3)
    requires k == (24 * c + q + 365 * t + w) / 1460
    ensures (w - k) / 365 == 0
  {
    assert 0 <= k <= 1;
    if k == 0 && w == 365 {
      assert 24 * c + q + 365 * t + w >= 1460;
      assert false;
    }
  }

  lemma YearContains(c: int, q: int, t: int, w: int)
    requires 0 <= c <= 3 && 0 <= q <= 24 && 0 <= t <= 3 && 0 <= w <= 365
    requires w == 365 ==> t == 3 && (q < 24 || c == 3)
    ensures var y := 100 * c + 4 * q + t; var doe := 36_524 * c + 1461 * q + 365 * t + w;
            YearStart(y) <= doe < YearStart(y) + YearLength(y)
  {
    var y := 100 * c + 4 * q + t;
    assert y / 100 == c && y / 4 == 25 * c + q;
  }

  lemma YearStartStep(y: int)
    requires 0 <= y < 399
    ensures YearStart(y + 1) == YearStart(y) + YearLength(y)
  {
  }

  lemma {:induction false} YearStartMonotone(a: int, b: int)
    requires 0 <= a < b <= 399
    ensures YearStart(a) + YearLength(a) <= YearStart(b)
    decreases b
  {
    YearStartStep(b - 1);
    if a < b - 1 {
      YearStartMonotone(a, b - 1);
    }
  }

  function MonthStart(mp: int): int {
    (153 * mp + 2) / 5
  }

  /** Days of month `mp` of a March year: March is 0, February 11. */
  function MarchMonthLength(yoe: int, mp: int): int {
    if mp == 11 then YearLength(yoe) - MonthStart(11) else MonthStart(mp + 1) - MonthStart(mp)
  }

  ghost predicate ValidMarch(m: March) {
    && 0 <= m.yoe <= 399 && 0 <= m.mp <= 11
    && 1 <= m.day <= MarchMonthLength(m.yoe, m.mp)
  }

  /** The inverse: the day a March date stands for. */
  function FromMarch(m: March): int {
    146_097 * m.era + YearStart(m.yoe) + MonthStart(m.mp) + m.day - 1 - 719_468
  }

  lemma MonthOfDay(doy: int)
    requires 0 <= doy <= 365
    ensures var mp := (5 * doy + 2) / 153;
            0 <= mp <= 11 && MonthStart(mp) <= doy && (mp < 11 ==> doy < MonthStart(mp + 1))
  {
  }

  lemma MonthUnique(doy: int, mp: int)
    requires 0 <= mp <= 11 && 0 <= doy <= 365 && MonthStart(mp) <= doy && (mp < 11 ==> doy < MonthStart(mp + 1))
    ensures (5 * doy + 2) / 153 == mp
  {
  }

  /** Every day has a March date, and that date stands for the day. */
  lemma ToMarchExact(days: int)
    ensures ValidMarch(ToMarch(days)) && FromMarch(ToMarch(days)) == days
  {
    var z := days + 719_468;
    var doe := z % 146_097;
    YearOfEraExact(doe);
    MonthOfDay(doe - YearStart(YearOfEra(doe)));
  }

  /** Every March date is the date of the day it stands for. */
  lemma FromMarchExact(m: March)
    requires ValidMarch(m)
    ensures ToMarch(FromMarch(m)) == m
  {
    var doy := MonthStart(m.mp) + m.day - 1;
    assert 0 <= doy < YearLength(m.yoe);
    var doe := YearStart(m.yoe) + doy;
    assert 0 <= doe < 146_097 by {
      if m.yoe < 399 { YearStartMonotone(m.yoe, 399); }
    }
    YearOfEraExact(doe);
    var y := YearOfEra(doe);
    if y < m.yoe { YearStartMonotone(y, m.yoe); }
    if m.yoe < y { YearStartMonotone(m.yoe, y); }
    MonthUnique(doy, m.mp);
    var z := FromMarch(m) + 719_468;
    assert z == 146_097 * m.era + doe;
    DivideExact(m.era, 146_097, doe);
  }

  /** The calendar date of a March date. */
  function Calendar(m: March): Date {
    Date(400 * m.era + m.yoe + (if m.mp >= 10 then 1 else 0), CalendarMonth(m.mp), m.day)
  }

  function NextMarch(m: March): March {
    if m.day < MarchMonthLength(m.yoe, m.mp) then m.(day := m.day + 1)
    else if m.mp < 11 then m.(mp := m.mp + 1, day := 1)
    else if m.yoe < 399 then March(m.era, m.yoe + 1, 0, 1)
    else March(m.era + 1, 0, 0, 1)
  }

  lemma MarchLengths(m: March)
    requires ValidMarch(m)
    ensures MarchMonthLength(m.yoe, m.mp) == MonthLength(Calendar(m).year, Calendar(m).month)
  {
    if m.mp == 11 {
      FebruaryLengths(m.era, m.yoe);
      hide LeapEnd, Leap;
    }
  }

  lemma FebruaryLengths(era: int, yoe: int)
    requires 0 <= yoe <= 399
    ensures LeapEnd(yoe) <==> Leap(400 * era + yoe + 1)
  {
    var y := 400 * era + yoe + 1;
    DivideSum(100 * era, 4, yoe + 1);
    DivideSum(4 * era, 100, yoe + 1);
    DivideSum(era, 400, yoe + 1);
    assert y % 4 == (yoe + 1) % 4 && y % 100 == (yoe + 1) % 100 && y % 400 == (yoe + 1) % 400;
  }

  /** The next March date is the calendar's next day, and one day later. */
  lemma NextMarchIsNextDay(m: March)
    requires ValidMarch(m)
    ensures ValidMarch(NextMarch(m)) && FromMarch(NextMarch(m)) == FromMarch(m) + 1
    ensures Calendar(NextMarch(m)) == NextDay(Calendar(m))
    ensures Valid(Calendar(m))
  {
    MarchLengths(m);
    if m.mp == 11 && m.yoe < 399 {
      YearStartStep(m.yoe);
    }
  }

  lemma CorrectedSteps(days: int)
    ensures Calendar(ToMarch(days + 1)) == NextDay(Calendar(ToMarch(days)))
    ensures Valid(Calendar(ToMarch(days)))
  {
    hide ToMarch, FromMarch, NextMarch, Calendar, NextDay, Valid, ValidMarch;
    var m := ToMarch(days);
    ToMarchExact(days);
    NextMarchIsNextDay(m);
    FromMarchExact(NextMarch(m));
  }

  lemma PreviousUndoesNext(d: Date)
    requires Valid(d)
    ensures PreviousDay(NextDay(d)) == d
  {
  }

  lemma EpochStart(days: int)
    requires days == 0
    ensures ToMarch(days) == March(4, 369, 10, 1)
    ensures Calendar(ToMarch(days)) == Date(1970, 1, 1)
  {
    assert (days + 719_468) / 146_097 == 4 && (days + 719_468) % 146_097 == 135_080;
    assert YearOfEra(135_080) == 369;
  }

  lemma {:induction false} CorrectedIsCalendar(days: int)
    ensures Calendar(ToMarch(days)) == CalendarDate(days)
    decreases if days < 0 then -days else days
  {
    hide ToMarch, Calendar, NextDay, Valid, PreviousDay;
    if days == 0 {
      EpochStart(days);
    } else if days > 0 {
      CorrectedIsCalendar(days - 1);
      CorrectedSteps(days - 1);
    } else {
      CorrectedIsCalendar(days + 1);
      CorrectedSteps(days);
      PreviousUndoesNext(Calendar(ToMarch(days)));
    }
  }

  // -------------------------------------------------------------- results

  /** The day of a second is the one whose 86,400 seconds it is one of, also before 1970. */
  lemma EpochDayIff(epochS: int, day: int)
    ensures EpochDays(epochS) == day <==> 86_400 * day <= epochS < 86_400 * day + 86_400
  {
  }

  /** Day within the March year; 306 and later are January and February. */
  function DayOfMarchYear(days: int): int {
    var doe := (days + 719_468) % 146_097;
    doe - YearStart(YearOfEra(doe))
  }

  /**
   For every day before or after 1970 the month and day shown are the calendar's. The
   year shown is the calendar's exactly when fewer than 306 days have passed since the
   last 1 March, and one less otherwise.
   */
  lemma ShownDateIsCalendar(days: int)
    ensures ShownDate(days).month == CalendarDate(days).month && ShownDate(days).day == CalendarDate(days).day
    ensures ShownDate(days).year == CalendarDate(days).year <==> DayOfMarchYear(days) < 306
    ensures ShownDate(days).year == CalendarDate(days).year - (if CalendarDate(days).month <= 2 then 1 else 0)
  {
    CorrectedIsCalendar(days);
    ToMarchExact(days);
    var doe := (days + 719_468) % 146_097;
    YearOfEraExact(doe);
    MonthOfDay(DayOfMarchYear(days));
  }

  lemma MarchOfJanuary(days: int)
    requires days == 20_468
    ensures ToMarch(days) == March(5, 25, 10, 15)
  {
    assert (days + 719_468) / 146_097 == 5 && (days + 719_468) % 146_097 == 9451;
    assert YearOfEra(9451) == 25;
  }

  /** 15 January 2026 is shown as a day of 2025. */
  lemma JanuaryShowsPreviousYear(epochS: int)
    requires epochS == 1_768_435_200
    ensures CalendarDate(EpochDays(epochS)) == Date(2026, 1, 15)
    ensures ShownDate(EpochDays(epochS)) == Date(2025, 1, 15)
  {
    var days := EpochDays(epochS);
    MarchOfJanuary(days);
    CorrectedIsCalendar(days);
  }

  /** The day a shown date stands for, read with the year counted from March. */
  function DayOfShown(d: Date): int {
    FromMarch(March(d.year / 400, d.year % 400, if d.month >= 3 then d.month - 3 else d.month + 9, d.day))
  }

  /** Despite the year, nothing is lost: the shown date determines the day, so different days show differently. */
  lemma ShownDateInverse(days: int)
    ensures DayOfShown(ShownDate(days)) == days
  {
    ToMarchExact(days);
    var m := ToMarch(days);
    assert (m.yoe + m.era * 400) / 400 == m.era && (m.yoe + m.era * 400) % 400 == m.yoe;
  }

  lemma ShownDateInjective(a: int, b: int)
    requires ShownDate(a) == ShownDate(b)
    ensures a == b
  {
    ShownDateInverse(a);
    ShownDateInverse(b);
  }
}
