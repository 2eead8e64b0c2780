/**
 The proleptic Gregorian calendar in UTC, as Go's time package computes it for Format, ISOWeek and AddDate.
 An instant is a number of nanoseconds since 0000-01-01T00:00:00Z, which was a Saturday; a day, a Monday-based
 week and a month are numbered by consecutive integers.
 */
module Calendar {
  import opened Decimal

  type Instant = int

  const SECOND: int := 1_000_000_000
  const DAY: int := 86_400 * SECOND

  function DayOf(t: Instant): int { t / DAY }

  function TimeOfDay(t: Instant): (r: int)
    ensures 0 <= r < DAY
    ensures t == DAY * DayOf(t) + r
  {
    t % DAY
  }

  function WholeSecond(t: Instant): Instant { t - t % SECOND }

  predicate IsLeap(y: int) { y % 4 == 0 && (y % 100 != 0 || y % 400 == 0) }

  /** How many multiples of n there are from 0 on and before y. */
  function Multiples(y: int, n: int): int
    requires n > 0
  {
    (y + n - 1) / n
  }

  /** The number of the first day of year y. */
  function YearStart(y: int): int
  {
    365 * y + Multiples(y, 4) - Multiples(y, 100) + Multiples(y, 400)
  }

  /** Days before month m (0 = January .. 12 = next January) within a year. */
  function DaysBefore(m: int, leap: bool): int
    requires 0 <= m <= 12
  {
    [0, 31, 59, 90, 120, 151, 181, 212, 243, 273, 304, 334, 365][m] + if leap && m >= 2 then 1 else 0
  }

  /** The number of the first day of a month; month 12 * y is January of year y. */
  function MonthStart(month: int): int
  {
    YearStart(month / 12) + DaysBefore(month % 12, IsLeap(month / 12))
  }

  lemma Next4(y: int)
    ensures Multiples(y + 1, 4) == Multiples(y, 4) + if y % 4 == 0 then 1 else 0
  {
  }

  lemma Next100(y: int)
    ensures Multiples(y + 1, 100) == Multiples(y, 100) + if y % 100 == 0 then 1 else 0
  {
  }

  lemma Next400(y: int)
    ensures Multiples(y + 1, 400) == Multiples(y, 400) + if y % 400 == 0 then 1 else 0
  {
  }

  lemma HundredsAreFours(y: int)
    ensures (y % 400 == 0 ==> y % 100 == 0) && (y % 100 == 0 ==> y % 4 == 0)
  {
  }

  lemma YearLength(y: int)
    ensures YearStart(y + 1) - YearStart(y) == if IsLeap(y) then 366 else 365
  {
    hide Multiples;
    Next4(y);
    Next100(y);
    Next400(y);
    HundredsAreFours(y);
  }

  lemma MonthLength(month: int)
    ensures 28 <= MonthStart(month + 1) - MonthStart(month) <= 31
  {
    var y, m := month / 12, month % 12;
    if m == 11 {
      assert (month + 1) / 12 == y + 1 && (month + 1) % 12 == 0;
      YearLength(y);
    } else {
      assert (month + 1) / 12 == y && (month + 1) % 12 == m + 1;
    }
  }

  /** Thirty days has September, April, June and November; all the rest have thirty-one, February apart. */
  lemma MonthLengths(y: int, m: int)
    requires 1 <= m <= 12
    ensures MonthStart(12 * y + m) - MonthStart(12 * y + m - 1)
         == if m in {4, 6, 9, 11} then 30 else if m != 2 then 31 else if IsLeap(y) then 29 else 28
  {
    var month := 12 * y + m - 1;
    assert month / 12 == y && month % 12 == m - 1;
    if m == 12 {
      assert (month + 1) / 12 == y + 1 && (month + 1) % 12 == 0;
      YearLength(y);
    } else {
      assert (month + 1) / 12 == y && (month + 1) % 12 == m;
    }
  }

  lemma {:induction false} MonthsAdvance(a: int, b: int)
    requires a <= b
    ensures MonthStart(a) + 28 * (b - a) <= MonthStart(b)
    decreases b - a
  {
    if a == b {
    } else {
      MonthLength(a);
      MonthsAdvance(a + 1, b);
    }
  }

  function MonthFrom(month: int, d: int): (r: int)
    requires MonthStart(month) <= d
    ensures MonthStart(r) <= d < MonthStart(r + 1)
    decreases d - MonthStart(month)
  {
    hide MonthStart;
    if d < MonthStart(month + 1) then month
    else MonthLength(month); MonthFrom(month + 1, d)
  }

  lemma StartBelow(d: int)
    ensures MonthStart(if d >= 0 then 0 else 12 * d) <= d
  {
    if d < 0 {
      assert (12 * d) / 12 == d && (12 * d) % 12 == 0;
    }
  }

  /** The month that day d falls in. */
  function MonthOf(d: int): (r: int)
    ensures MonthStart(r) <= d < MonthStart(r + 1)
  {
    hide MonthStart;
    StartBelow(d);
    MonthFrom(if d >= 0 then 0 else 12 * d, d)
  }

  lemma MonthOfIs(month: int, d: int)
    requires MonthStart(month) <= d < MonthStart(month + 1)
    ensures MonthOf(d) == month
  {
    hide MonthStart;
    var r := MonthOf(d);
    if r < month {
      MonthsAdvance(r + 1, month);
    } else if month < r {
      MonthsAdvance(month + 1, r);
    }
  }

  lemma MonthsInOrder(d: int, e: int)
    requires d <= e
    ensures MonthOf(d) <= MonthOf(e)
  {
    hide MonthStart;
    if MonthOf(e) < MonthOf(d) {
      MonthsAdvance(MonthOf(e) + 1, MonthOf(d));
    }
  }

  function YearOf(d: int): int { MonthOf(d) / 12 }

  function MonthInYear(d: int): (m: int)
    ensures 1 <= m <= 12
  {
    MonthOf(d) % 12 + 1
  }

  function DayInMonth(d: int): (r: int)
    ensures 1 <= r <= 31
  {
    MonthLength(MonthOf(d));
    d - MonthStart(MonthOf(d)) + 1
  }

  lemma JanuaryStartsYear(y: int)
    ensures MonthStart(12 * y) == YearStart(y)
  {
    assert (12 * y) / 12 == y && (12 * y) % 12 == 0;
  }

  lemma YearOfIs(d: int)
    ensures YearStart(YearOf(d)) <= d < YearStart(YearOf(d) + 1)
  {
    hide MonthStart, YearStart;
    var month := MonthOf(d);
    var y := month / 12;
    JanuaryStartsYear(y);
    JanuaryStartsYear(y + 1);
    MonthsAdvance(12 * y, month);
    MonthsAdvance(month + 1, 12 * (y + 1));
  }

  lemma {:induction false} YearsAdvance(a: int, b: int)
    requires a <= b
    ensures YearStart(a) + 365 * (b - a) <= YearStart(b)
    decreases b - a
  {
    if a == b {
    } else {
      YearLength(a);
      YearsAdvance(a + 1, b);
    }
  }

  function DayInYear(d: int): (r: int)
    ensures 0 <= r < 366
  {
    YearOfIs(d);
    YearLength(YearOf(d));
    d - YearStart(YearOf(d))
  }

  /** Weeks run from Monday to Sunday; day 2 was a Monday. */
  function WeekOf(d: int): int { (d + 5) / 7 }

  /** A new week begins exactly on the days that are whole weeks away from January 1, 2024, which was a Monday. */
  lemma WeeksBeginOnMonday(d: int)
    ensures WeekOf(d - 1) != WeekOf(d) <==> (d - YearStart(2024)) % 7 == 0
    ensures WeekOf(d) == WeekOf(d - 1) || WeekOf(d) == WeekOf(d - 1) + 1
  {
    assert YearStart(2024) % 7 == 2;
  }

  function ThursdayOf(week: int): int { 7 * week - 2 }

  /** The ISO 8601 year and number of a week are those of its Thursday. */
  function IsoYear(week: int): int { YearOf(ThursdayOf(week)) }

  function IsoNumber(week: int): (n: int)
    ensures 1 <= n <= 53
  {
    DayInYear(ThursdayOf(week)) / 7 + 1
  }

  /** ISO year and week number together identify the Monday-based week. */
  lemma IsoWeekIdentifies(v: int, w: int)
    ensures IsoYear(v) == IsoYear(w) && IsoNumber(v) == IsoNumber(w) <==> v == w
  {
    if IsoYear(v) == IsoYear(w) && IsoNumber(v) == IsoNumber(w) {
      var a, b := DayInYear(ThursdayOf(v)), DayInYear(ThursdayOf(w));
      assert a / 7 == b / 7;
      assert a - b == 7 * (v - w);
    }
  }

  lemma YearIs(y: int, d: int)
    requires YearStart(y) <= d < YearStart(y + 1)
    ensures YearOf(d) == y
  {
    hide YearStart, YearOf;
    YearOfIs(d);
    var z := YearOf(d);
    if z < y {
      YearsAdvance(z + 1, y);
    } else if y < z {
      YearsAdvance(y + 1, z);
    }
  }

  /** Section 2.2.10 of ISO 8601:2004: week one of a year is the week with January 4 in it. */
  lemma January4IsInWeekOne(y: int)
    ensures IsoYear(WeekOf(YearStart(y) + 3)) == y
    ensures IsoNumber(WeekOf(YearStart(y) + 3)) == 1
  {
    hide YearStart, YearOf;
    var th := ThursdayOf(WeekOf(YearStart(y) + 3));
    assert YearStart(y) <= th < YearStart(y) + 7;
    YearLength(y);
    YearIs(y, th);
  }

  /** time.Time.AddDate(0, months, days): the day of the month is kept and overflows into the following month. */
  function AddDate(t: Instant, months: int, days: int): Instant
  {
    var d := DayOf(t);
    DAY * (MonthStart(MonthOf(d) + months) + DayInMonth(d) - 1 + days) + TimeOfDay(t)
  }

  /**
   Going back some months keeps the time of day and, if the target month has it, the day of the month; otherwise the
   days that are too many run over into the month after it.
   */
  lemma MonthsBack(t: Instant, n: int)
    ensures var target := MonthOf(DayOf(t)) - n;
            var length := MonthStart(target + 1) - MonthStart(target);
            var v := AddDate(t, -n, 0);
            TimeOfDay(v) == TimeOfDay(t)
            && (DayInMonth(DayOf(t)) <= length ==>
                  MonthOf(DayOf(v)) == target && DayInMonth(DayOf(v)) == DayInMonth(DayOf(t)))
            && (DayInMonth(DayOf(t)) > length ==>
                  MonthOf(DayOf(v)) == target + 1 && DayInMonth(DayOf(v)) == DayInMonth(DayOf(t)) - length)
  {
    hide MonthStart, MonthOf;
    var target := MonthOf(DayOf(t)) - n;
    var d := MonthStart(target) + DayInMonth(DayOf(t)) - 1;
    MonthLength(target);
    MonthLength(target + 1);
    DayAndTime(d, TimeOfDay(t));
    MonthOfIs(if d < MonthStart(target + 1) then target else target + 1, d);
  }

  lemma DayAndTime(d: int, r: int)
    requires 0 <= r < DAY
    ensures DayOf(DAY * d + r) == d && TimeOfDay(DAY * d + r) == r
  {
  }

  lemma AddDaysIsShift(t: Instant, days: int)
    ensures AddDate(t, 0, days) == t + DAY * days
  {
    hide MonthOf, MonthStart;
  }

  // ---- the texts that identify a day, a week and a month ----

  /** Format("2006-01-02") */
  function DateText(d: int): string
  {
    IntText(YearOf(d), 4) + "-" + Pad(MonthInYear(d), 2) + "-" + Pad(DayInMonth(d), 2)
  }

  /** Format("2006-01") of the given month */
  function MonthText(month: int): string
  {
    IntText(month / 12, 4) + "-" + Pad(month % 12 + 1, 2)
  }

  /** Sprintf("%d-W%02d") of the ISO year and week */
  function WeekText(week: int): string
  {
    IntText(IsoYear(week), 1) + "-W" + Pad(IsoNumber(week), 2)
  }

  lemma MonthTextInjective(a: int, b: int)
    requires MonthText(a) == MonthText(b)
    ensures a == b
  {
    TwoDigits(a % 12 + 1);
    TwoDigits(b % 12 + 1);
    SplitAtSuffix(IntText(a / 12, 4) + "-", Pad(a % 12 + 1, 2), IntText(b / 12, 4) + "-", Pad(b % 12 + 1, 2));
    SplitAtSuffix(IntText(a / 12, 4), "-", IntText(b / 12, 4), "-");
    IntTextInjective(a / 12, b / 12, 4);
    ValueOfPad(a % 12 + 1, 2);
    ValueOfPad(b % 12 + 1, 2);
  }

  lemma DateTextParts(d: int)
    ensures DateText(d) == MonthText(MonthOf(d)) + "-" + Pad(DayInMonth(d), 2)
  {
    hide MonthOf, MonthStart, Pad, IntText;
  }

  lemma DateTextInjective(a: int, b: int)
    requires DateText(a) == DateText(b)
    ensures a == b
  {
    hide MonthOf, MonthStart, MonthText;
    var x, y := DayInMonth(a), DayInMonth(b);
    assert DateText(a) == MonthText(MonthOf(a)) + "-" + Pad(x, 2) by { DateTextParts(a); }
    assert DateText(b) == MonthText(MonthOf(b)) + "-" + Pad(y, 2) by { DateTextParts(b); }
    TwoDigits(x);
    TwoDigits(y);
    SplitAtSuffix(MonthText(MonthOf(a)) + "-", Pad(x, 2), MonthText(MonthOf(b)) + "-", Pad(y, 2));
    SplitAtSuffix(MonthText(MonthOf(a)), "-", MonthText(MonthOf(b)), "-");
    MonthTextInjective(MonthOf(a), MonthOf(b));
    ValueOfPad(x, 2);
    ValueOfPad(y, 2);
  }

  lemma WeekTextInjective(v: int, w: int)
    requires WeekText(v) == WeekText(w)
    ensures v == w
  {
    TwoDigits(IsoNumber(v));
    TwoDigits(IsoNumber(w));
    SplitAtSuffix(IntText(IsoYear(v), 1) + "-W", Pad(IsoNumber(v), 2),
                  IntText(IsoYear(w), 1) + "-W", Pad(IsoNumber(w), 2));
    SplitAtSuffix(IntText(IsoYear(v), 1), "-W", IntText(IsoYear(w), 1), "-W");
    IntTextInjective(IsoYear(v), IsoYear(w), 1);
    ValueOfPad(IsoNumber(v), 2);
    ValueOfPad(IsoNumber(w), 2);
    IsoWeekIdentifies(v, w);
  }
}
