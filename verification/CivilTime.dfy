/** From civil time to microseconds since 1970. */
module CivilTime {
  const MICROS_PER_SECOND := 1_000_000
  const MICROS_PER_MINUTE := 60 * MICROS_PER_SECOND
  const MICROS_PER_HOUR := 60 * MICROS_PER_MINUTE
  const MICROS_PER_DAY := 24 * MICROS_PER_HOUR
  const TWO_TO_THE_64 := 0x1_0000_0000_0000_0000

  /** The offset is in seconds east of Greenwich. */
  datatype Civil = Civil(year: nat, month: nat, day: nat, hour: nat, minute: nat, second: nat, millisecond: nat,
      offset: int)

  predicate IsLeapYear(year: nat) {
    (year % 4 == 0 && year % 100 != 0) || year % 400 == 0
  }

  function DaysInMonth(year: nat, month: nat): nat
    requires month >= 1
  {
    if month == 2 then 28 + (if IsLeapYear(year) then 1 else 0) else 31 - (month - 1) % 7 % 2
  }

  /** The formula gives thirty days to April, June, September and November, and February its 28 or 29. */
  lemma MonthLengths(year: nat, month: nat)
    requires 1 <= month <= 12
    ensures DaysInMonth(year, month) ==
              if month in {4, 6, 9, 11} then 30 else if month != 2 then 31 else if IsLeapYear(year) then 29 else 28
  {
  }

  function YearDays(year: nat): nat {
    if IsLeapYear(year) then 366 else 365
  }

  /** Days from the start of 1970 to the start of the year, added up year by year. */
  function DaysBeforeYear(year: nat): nat {
    if year <= 1970 then 0 else DaysBeforeYear(year - 1) + YearDays(year - 1)
  }

  /** Days from the start of the year to the start of the month. */
  function DaysBeforeMonth(year: nat, month: nat): nat {
    if month <= 1 then 0 else DaysBeforeMonth(year, month - 1) + DaysInMonth(year, month - 1)
  }

  // ---------------------------------------------------------------- the year loop in closed form

  /** Leap years from year 1 up to, but not including, the given one. */
  function LeapsBefore(year: nat): int
    requires year >= 1
  {
    (year - 1) / 4 - (year - 1) / 100 + (year - 1) / 400
  }

  lemma LeapsStep(year: nat)
    requires year >= 1
    ensures LeapsBefore(year + 1) == LeapsBefore(year) + if IsLeapYear(year) then 1 else 0
  {
    Bump(year - 1, 4);
    Bump(year - 1, 100);
    Bump(year - 1, 400);
    Divides(year);
  }

  lemma Bump(y: nat, k: nat)
    requires k in {4, 100, 400}
    ensures (y + 1) / k == y / k + if (y + 1) % k == 0 then 1 else 0
  {
    var q, r := y / k, y % k;
    assert y == q * k + r;
    if r == k - 1 { assert y + 1 == (q + 1) * k; } else { assert y + 1 == q * k + (r + 1); }
  }

  lemma Divides(y: nat)
    ensures y % 400 == 0 ==> y % 100 == 0
    ensures y % 100 == 0 ==> y % 4 == 0
  {
    if y % 400 == 0 { assert y == y / 400 * 400 == y / 400 * 4 * 100; }
    if y % 100 == 0 { assert y == y / 100 * 100 == y / 100 * 25 * 4; }
  }

  lemma {:induction false} YearsClosedForm(year: nat)
    requires year >= 1970
    ensures DaysBeforeYear(year) == 365 * (year - 1970) + LeapsBefore(year) - LeapsBefore(1970)
  {
    if year > 1970 {
      YearsClosedForm(year - 1);
      LeapsStep(year - 1);
    }
  }

  lemma MonthsMakeYear(year: nat)
    ensures DaysBeforeMonth(year, 13) == YearDays(year)
  {
    assert DaysBeforeMonth(year, 4) == DaysBeforeMonth(year, 3) + 31 == DaysBeforeMonth(year, 2) + DaysInMonth(year,
           2) + 31;
    assert DaysBeforeMonth(year, 7) == DaysBeforeMonth(year, 6) + 30 == DaysBeforeMonth(year, 5) + 61
           == DaysBeforeMonth(year, 4) + 91;
    assert DaysBeforeMonth(year, 10) == DaysBeforeMonth(year, 9) + 30 == DaysBeforeMonth(year, 8) + 61
           == DaysBeforeMonth(year, 7) + 92;
    assert DaysBeforeMonth(year, 13) == DaysBeforeMonth(year, 12) + 31 == DaysBeforeMonth(year, 11) + 61
           == DaysBeforeMonth(year, 10) + 92;
  }

  // ---------------------------------------------------------------- days and micros

  ghost predicate ValidDate(c: Civil) {
    1970 <= c.year < 0x1_0000 && 1 <= c.month <= 12 && 1 <= c.day <= DaysInMonth(c.year, c.month)
  }

  ghost predicate Valid(c: Civil) {
    && ValidDate(c) && c.hour < 24 && c.minute < 60 && c.second < 60 && c.millisecond < 1000
    && -0x8000_0000 <= c.offset < 0x8000_0000
  }

  function Days(c: Civil): int {
    c.day - 1 + DaysBeforeYear(c.year) + DaysBeforeMonth(c.year, c.month)
  }

  function TimeOfDay(c: Civil): nat {
    c.hour * MICROS_PER_HOUR + c.minute * MICROS_PER_MINUTE + c.second * MICROS_PER_SECOND + c.millisecond * 1000
  }

  /** The exact number of microseconds, negative before 1970 in Greenwich. */
  function Exact(c: Civil): int {
    Days(c) * MICROS_PER_DAY + TimeOfDay(c) - c.offset * MICROS_PER_SECOND
  }

  /** What the 64-bit unsigned field holds. */
  function Micros(c: Civil): nat {
    Exact(c) % TWO_TO_THE_64
  }

  /** Earlier on the calendar and the clock, whatever the offset. */
  ghost predicate Before(a: Civil, b: Civil) {
    a.year < b.year || (a.year == b.year
        && (a.month < b.month || (a.month == b.month && (a.day < b.day || (a.day == b.day &&
    (a.hour < b.hour || (a.hour == b.hour && (a.minute < b.minute || (a.minute == b.minute && (a.second < b.second ||
    (a.second == b.second && a.millisecond < b.millisecond)))))))))))
  }

  lemma {:induction false} MonthsMono(year: nat, m: nat, n: nat)
    requires 1 <= m < n <= 13
    ensures DaysBeforeMonth(year, m) + DaysInMonth(year, m) <= DaysBeforeMonth(year, n)
    decreases n
  {
    if m < n - 1 { MonthsMono(year, m, n - 1); }
  }

  lemma {:induction false} YearsMono(a: nat, b: nat)
    requires 1970 <= a < b
    ensures DaysBeforeYear(a) + YearDays(a) <= DaysBeforeYear(b)
    decreases b
  {
    if a < b - 1 { YearsMono(a, b - 1); }
  }

  lemma DayInYear(c: Civil)
    requires ValidDate(c)
    ensures 0 <= DaysBeforeMonth(c.year, c.month) + c.day - 1 < YearDays(c.year)
  {
    MonthsMono(c.year, c.month, 13);
    MonthsMakeYear(c.year);
  }

  lemma DaysOrdered(a: Civil, b: Civil)
    requires ValidDate(a) && ValidDate(b)
    requires a.year < b.year || (a.year == b.year && (a.month < b.month || (a.month == b.month && a.day < b.day)))
    ensures Days(a) < Days(b)
  {
    if a.year < b.year {
      YearsMono(a.year, b.year);
      DayInYear(a);
      DayInYear(b);
    } else if a.month < b.month {
      MonthsMono(a.year, a.month, b.month);
    }
  }

  lemma TimeBelowDay(a: Civil)
    requires Valid(a)
    ensures a.millisecond * 1000 < MICROS_PER_SECOND
    ensures a.second * MICROS_PER_SECOND + a.millisecond * 1000 < MICROS_PER_MINUTE
    ensures a.minute * MICROS_PER_MINUTE + a.second * MICROS_PER_SECOND + a.millisecond * 1000 < MICROS_PER_HOUR
    ensures TimeOfDay(a) < MICROS_PER_DAY
  {
  }

  lemma TimeOrdered(a: Civil, b: Civil)
    requires Valid(a) && Valid(b)
    requires a.hour < b.hour || (a.hour == b.hour
             && (a.minute < b.minute || (a.minute == b.minute && (a.second < b.second ||
             (a.second == b.second && a.millisecond < b.millisecond)))))
    ensures TimeOfDay(a) < TimeOfDay(b)
  {
    hide Valid;
    TimeBelowDay(a);
    if a.hour < b.hour {
      assert a.hour * MICROS_PER_HOUR + MICROS_PER_HOUR <= b.hour * MICROS_PER_HOUR;
    } else if a.minute < b.minute {
      assert a.minute * MICROS_PER_MINUTE + MICROS_PER_MINUTE <= b.minute * MICROS_PER_MINUTE;
    } else if a.second < b.second {
      assert a.second * MICROS_PER_SECOND + MICROS_PER_SECOND <= b.second * MICROS_PER_SECOND;
    }
  }

  /** With equal offsets, earlier means fewer microseconds. */
  lemma ExactOrdered(a: Civil, b: Civil)
    requires Valid(a) && Valid(b) && a.offset == b.offset && Before(a, b)
    ensures Exact(a) < Exact(b)
  {
    TimeBelowDay(a);
    if a.year == b.year && a.month == b.month && a.day == b.day {
      TimeOrdered(a, b);
      assert Days(a) == Days(b);
    } else {
      DaysOrdered(a, b);
      DayApart(Days(a), Days(b));
    }
  }

  lemma DayApart(x: int, y: int)
    requires x < y
    ensures x * MICROS_PER_DAY + MICROS_PER_DAY <= y * MICROS_PER_DAY
  {
  }

  lemma {:induction false} YearBound(year: nat)
    ensures DaysBeforeYear(year) <= 366 * year
  {
    if year > 1970 { YearBound(year - 1); }
  }

  /** Nothing a civil time can hold comes near the upper end of the field. */
  lemma ExactBound(c: Civil)
    requires Valid(c)
    ensures -TWO_TO_THE_64 / 4 < Exact(c) < TWO_TO_THE_64 / 2
  {
    YearBound(c.year);
    DayInYear(c);
    TimeBelowDay(c);
    assert 0 <= Days(c) <= 366 * 0x1_0000 + 366;
  }

  lemma Wrapped(x: int)
    requires -TWO_TO_THE_64 / 4 < x < TWO_TO_THE_64 / 2
    ensures x % TWO_TO_THE_64 == if x < 0 then x + TWO_TO_THE_64 else x
  {
  }

  /** Whole seconds since the start of 1970 on the local calendar and clock. */
  function LocalSeconds(c: Civil): int {
    Days(c) * 86400 + c.hour * 3600 + c.minute * 60 + c.second
  }

  /** The number is a count of microseconds: a million for each local second, a thousand for each
      millisecond, less a million for each second of the offset. */
  lemma ExactCounts(c: Civil)
    ensures Exact(c) == 1000 * (LocalSeconds(c) * 1000 + c.millisecond) - 1_000_000 * c.offset
  {
    hide Days;
    DayCounts(Days(c));
  }

  lemma DayCounts(d: int)
    ensures d * MICROS_PER_DAY == 1_000_000 * (d * 86400)
  {
  }

  /** Within a day, differences are a thousand times those of the milliseconds of the day. */
  lemma SameDayDistance(a: Civil, b: Civil)
    requires a.year == b.year && a.month == b.month && a.day == b.day && a.offset == b.offset
    ensures Exact(b) - Exact(a)
         == 1000 * ((((b.hour * 60 + b.minute) * 60 + b.second) * 1000 + b.millisecond)
                    - (((a.hour * 60 + a.minute) * 60 + a.second) * 1000 + a.millisecond))
  {
    hide Days;
    ExactCounts(a);
    ExactCounts(b);
    assert Days(a) == Days(b) by { DaysByDate(a, b); }
  }

  /** The count starts with 1970 in Greenwich, and the same local time one second further east is
      one second earlier. */
  lemma EpochAndOffset(c: Civil)
    ensures Exact(Civil(1970, 1, 1, 0, 0, 0, 0, 0)) == 0
    ensures Exact(c) - Exact(c.(offset := c.offset + 1)) == 1_000_000
  {
    hide Days;
    assert Days(Civil(1970, 1, 1, 0, 0, 0, 0, 0)) == 0 by { FirstDay(); }
    ExactCounts(c);
    ExactCounts(c.(offset := c.offset + 1));
    assert Days(c.(offset := c.offset + 1)) == Days(c) by { DaysByDate(c, c.(offset := c.offset + 1)); }
  }

  lemma FirstDay()
    ensures Days(Civil(1970, 1, 1, 0, 0, 0, 0, 0)) == 0
  {
  }

  lemma DaysByDate(a: Civil, b: Civil)
    requires a.year == b.year && a.month == b.month && a.day == b.day
    ensures Days(a) == Days(b)
  {
  }

  /** A time lies before 1970 in Greenwich exactly if its offset is more than the local seconds since then. */
  lemma BelowEpoch(c: Civil)
    requires Valid(c)
    ensures Exact(c) < 0 <==> LocalSeconds(c) < c.offset
  {
    hide Days, ValidDate;
    var x := LocalSeconds(c) - c.offset;
    assert Exact(c) == x * MICROS_PER_SECOND + c.millisecond * 1000;
  }

  /**
   * The conversion is strictly monotone between two times with equal offsets, except that a
   * time before 1970 in Greenwich wraps around to the far future: the earlier time must be late
   * enough for its offset, or the later one too early as well.
   */
  lemma MicrosOrdered(a: Civil, b: Civil)
    requires Valid(a) && Valid(b) && a.offset == b.offset && Before(a, b)
    ensures Micros(a) < Micros(b) <==> a.offset <= LocalSeconds(a) || LocalSeconds(b) < b.offset
  {
    hide Exact, LocalSeconds, Valid;
    ExactOrdered(a, b);
    BelowEpoch(a);
    BelowEpoch(b);
    ExactBound(a);
    ExactBound(b);
    Wrapped(Exact(a));
    Wrapped(Exact(b));
  }

  lemma EpochEast(day: nat)
    requires 1 <= day <= 2
    ensures var c := Civil(1970, 1, day, 0, 0, 0, 0, 3600);
            Valid(c) && Exact(c) == (day - 1) * MICROS_PER_DAY - 3600 * MICROS_PER_SECOND
  {
  }

  /** One hour east of Greenwich, the first day of 1970 comes out after the second. */
  lemma WrapsBelowEpoch()
    ensures var a, b := Civil(1970, 1, 1, 0, 0, 0, 0, 3600), Civil(1970, 1, 2, 0, 0, 0, 0, 3600);
            && Valid(a) && Valid(b) && Before(a, b)
            && Micros(a) == 18_446_744_070_109_551_616 && Micros(b) == 82_800_000_000
  {
    hide Exact, Valid;
    EpochEast(1);
    EpochEast(2);
    Wrapped(-3_600_000_000);
    Wrapped(82_800_000_000);
  }

  /** Two valid times with equal offsets that convert to the same number are the same time. */
  lemma MicrosInjective(a: Civil, b: Civil)
    requires Valid(a) && Valid(b) && a.offset == b.offset && Micros(a) == Micros(b)
    ensures a == b
  {
    if Before(a, b) || Before(b, a) {
      NotEqual(a, b);
    }
  }

  lemma NotEqual(a: Civil, b: Civil)
    requires Valid(a) && Valid(b) && a.offset == b.offset && (Before(a, b) || Before(b, a))
    ensures Micros(a) != Micros(b)
  {
    hide Exact;
    if Before(a, b) { ExactOrdered(a, b); } else { ExactOrdered(b, a); }
    ExactBound(a);
    ExactBound(b);
    Wrapped(Exact(a));
    Wrapped(Exact(b));
  }

  /** The same time on the following day. */
  function NextDay(c: Civil): Civil
    requires c.month >= 1
  {
    if c.day < DaysInMonth(c.year, c.month) then c.(day := c.day + 1)
    else if c.month < 12 then c.(month := c.month + 1, day := 1)
    else c.(year := c.year + 1, month := 1, day := 1)
  }

  lemma NextDayExact(c: Civil)
    requires Valid(c)
    ensures Exact(NextDay(c)) == Exact(c) + MICROS_PER_DAY
    ensures Micros(NextDay(c)) == (Micros(c) + MICROS_PER_DAY) % TWO_TO_THE_64
    ensures c.year < 0xFFFF ==> Valid(NextDay(c))
  {
    var d := NextDay(c);
    if c.day < DaysInMonth(c.year, c.month) {
    } else if c.month < 12 {
      MonthLengths(c.year, d.month);
    } else {
      MonthsMakeYear(c.year);
      assert DaysBeforeMonth(c.year, 13) == DaysBeforeMonth(c.year, 12) + DaysInMonth(c.year, 12);
    }
    assert Days(d) == Days(c) + 1;
    ExactBound(c);
    Wrapped(Exact(c));
    NextWrapped(Exact(c));
  }

  lemma NextWrapped(x: int)
    requires -TWO_TO_THE_64 / 4 < x < TWO_TO_THE_64 / 2
    ensures (x + MICROS_PER_DAY) % TWO_TO_THE_64 == (x % TWO_TO_THE_64 + MICROS_PER_DAY) % TWO_TO_THE_64
  {
    Wrapped(x);
  }

  /** One millisecond later on the clock and the calendar. */
  function NextMillisecond(c: Civil): Civil
    requires c.month >= 1
  {
    if c.millisecond < 999 then c.(millisecond := c.millisecond + 1)
    else if c.second < 59 then c.(second := c.second + 1, millisecond := 0)
    else if c.minute < 59 then c.(minute := c.minute + 1, second := 0, millisecond := 0)
    else if c.hour < 23 then c.(hour := c.hour + 1, minute := 0, second := 0, millisecond := 0)
    else NextDay(c).(hour := 0, minute := 0, second := 0, millisecond := 0)
  }

  /** One more millisecond is a thousand microseconds later, over seconds, minutes, hours, days,
      months and years. */
  lemma NextMillisecondExact(c: Civil)
    requires Valid(c)
    ensures Exact(NextMillisecond(c)) == Exact(c) + 1000
    ensures Micros(NextMillisecond(c)) == (Micros(c) + 1000) % TWO_TO_THE_64
    ensures c.year < 0xFFFF ==> Valid(NextMillisecond(c))
  {
    hide Exact, NextDay;
    var d := NextMillisecond(c);
    if c.millisecond == 999 && c.second == 59 && c.minute == 59 && c.hour == 23 {
      NextDayExact(c);
      NextDayKeepsTime(c);
      SameDayDistance(d, NextDay(c));
    } else {
      SameDayDistance(c, d);
    }
    ExactBound(c);
    MillisecondWrapped(Exact(c));
  }

  lemma NextDayKeepsTime(c: Civil)
    requires c.month >= 1
    ensures var d := NextDay(c); d == c.(year := d.year, month := d.month, day := d.day)
  {
  }

  lemma MillisecondWrapped(x: int)
    requires -TWO_TO_THE_64 / 4 < x < TWO_TO_THE_64 / 2
    ensures (x + 1000) % TWO_TO_THE_64 == (x % TWO_TO_THE_64 + 1000) % TWO_TO_THE_64
  {
    Wrapped(x);
  }

  class UnixTime {
    var utcMicros: nat

    constructor (civil: Civil)
      ensures utcMicros == Micros(civil)
    {
      var days: int := civil.day - 1;
      var i := 1970;
      while i < civil.year
        invariant 1970 <= i && (i <= civil.year || civil.year < 1970)
        invariant days == civil.day - 1 + DaysBeforeYear(if i <= civil.year then i else civil.year)
      {
        days := days + 365 + (if IsLeapYear(i) then 1 else 0);
        i := i + 1;
      }
      var j := 1;
      while j < civil.month
        invariant 1 <= j && (j <= civil.month || civil.month == 0)
        invariant days == civil.day - 1 + DaysBeforeYear(civil.year) + DaysBeforeMonth(civil.year,
                  if j <= civil.month then j else civil.month)
      {
        days := days + DaysInMonth(civil.year, j);
        j := j + 1;
      }
      utcMicros := (days * MICROS_PER_DAY + civil.hour * MICROS_PER_HOUR + civil.minute * MICROS_PER_MINUTE
                    + civil.second * MICROS_PER_SECOND + civil.millisecond * 1000
                    + civil.offset * MICROS_PER_SECOND * -1) % TWO_TO_THE_64;
    }
  }
}
