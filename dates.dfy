/**
 * Calendar dates in the proleptic Gregorian calendar, as the JavaScript
 * `Date` getters report them (`getFullYear`, `getMonth` counting January as
 * 0, `getDate`, `getDay` counting Sunday as 0), and the arithmetic of the
 * `new Date(year, monthIndex, day)` constructor. Time of day and time zones
 * are not part of this model.
 */
module Dates {

  datatype Date = Date(year: int, month: int, day: int)

  predicate IsLeapYear(year: int)
  {
    year % 4 == 0 && (year % 100 != 0 || year % 400 == 0)
  }

  /** Length of month `month` (0 = January) of `year`. */
  function DaysInMonth(year: int, month: int): (n: int)
    requires 0 <= month < 12
    ensures 28 <= n <= 31
    ensures month == 1 ==> (n == 29 <==> IsLeapYear(year))
    ensures month != 1 ==> 30 <= n
  {
    if month == 1 then (if IsLeapYear(year) then 29 else 28)
    else if month == 3 || month == 5 || month == 8 || month == 10 then 30
    else 31
  }

  /** The number of days in the first `months` months of `year`. */
  function DaysBeforeMonth(year: int, months: int): int
    requires 0 <= months <= 12
  {
    if months == 0 then 0 else DaysBeforeMonth(year, months - 1) + DaysInMonth(year, months - 1)
  }

  /** A leap year has 366 days, any other year 365. */
  lemma {:induction false} YearLength(year: int)
    ensures DaysBeforeMonth(year, 12) == if IsLeapYear(year) then 366 else 365
  {
    var feb := DaysInMonth(year, 1);
    assert DaysBeforeMonth(year, 1) == 31;
    assert DaysBeforeMonth(year, 2) == 31 + feb;
    assert DaysBeforeMonth(year, 3) == 62 + feb;
    assert DaysBeforeMonth(year, 4) == 92 + feb;
    assert DaysBeforeMonth(year, 5) == 123 + feb;
    assert DaysBeforeMonth(year, 6) == 153 + feb;
    assert DaysBeforeMonth(year, 7) == 184 + feb;
    assert DaysBeforeMonth(year, 8) == 215 + feb;
    assert DaysBeforeMonth(year, 9) == 245 + feb;
    assert DaysBeforeMonth(year, 10) == 276 + feb;
    assert DaysBeforeMonth(year, 11) == 306 + feb;
  }

  /** A date that exists in the calendar. */
  predicate IsValid(d: Date)
  {
    0 <= d.month < 12 && 1 <= d.day <= DaysInMonth(d.year, d.month)
  }

  /** The day after `d`. */
  function NextDay(d: Date): (r: Date)
    requires IsValid(d)
    ensures IsValid(r)
  {
    if d.day < DaysInMonth(d.year, d.month) then Date(d.year, d.month, d.day + 1)
    else if d.month < 11 then Date(d.year, d.month + 1, 1)
    else Date(d.year + 1, 0, 1)
  }

  /**
   * Day `day` counted from the first of month `month` of `year`, where day 0
   * is the last day of the previous month, day -1 the one before, and days
   * past the end run on into the following months.
   */
  function Normalize(year: int, month: int, day: int): (r: Date)
    requires 0 <= month < 12
    ensures IsValid(r)
    ensures 1 <= day <= DaysInMonth(year, month) ==> r == Date(year, month, day)
    decreases (if day < 1 then 1 - day else 0), (if day < 1 then 0 else day)
  {
    if day < 1 then
      var py := if month == 0 then year - 1 else year;
      var pm := if month == 0 then 11 else month - 1;
      Normalize(py, pm, day + DaysInMonth(py, pm))
    else if day > DaysInMonth(year, month) then
      var ny := if month == 11 then year + 1 else year;
      var nm := if month == 11 then 0 else month + 1;
      Normalize(ny, nm, day - DaysInMonth(year, month))
    else Date(year, month, day)
  }

  /** The year the `Date` constructor uses: 0..99 are read as 1900..1999. */
  function ConstructorYear(year: int): int
  {
    if 0 <= year <= 99 then 1900 + year else year
  }

  /**
   * `new Date(year, monthIndex, day)` as seen through the getters: the
   * month index may lie outside 0..11 and carries into the year, the day
   * may lie outside the month and carries into neighbouring months.
   */
  function MakeDate(year: int, monthIndex: int, day: int): (r: Date)
    ensures IsValid(r)
  {
    var total := ConstructorYear(year) * 12 + monthIndex;
    Normalize(total / 12, total % 12, day)
  }

  /** The constructor reproduces every valid date outside the two-digit years. */
  lemma MakeDateOfValid(d: Date)
    requires IsValid(d) && !(0 <= d.year <= 99)
    ensures MakeDate(d.year, d.month, d.day) == d
  {
    var total := d.year * 12 + d.month;
    assert total / 12 == d.year && total % 12 == d.month;
  }

  /** Months outside 0..11 carry into the year, as `new Date(y, m + 1, 1)` does. */
  lemma MakeDateMonthCarry(year: int, monthIndex: int)
    requires !(0 <= year <= 99)
    ensures MakeDate(year, monthIndex, 1) ==
      Date((year * 12 + monthIndex) / 12, (year * 12 + monthIndex) % 12, 1)
  {
  }

  /** A day inside month `month` is kept as it is, in the constructor's year. */
  lemma MakeDateInMonth(year: int, month: int, day: int)
    requires 0 <= month < 12 && 1 <= day <= DaysInMonth(ConstructorYear(year), month)
    ensures MakeDate(year, month, day) == Date(ConstructorYear(year), month, day)
  {
    var total := ConstructorYear(year) * 12 + month;
    assert total / 12 == ConstructorYear(year) && total % 12 == month;
  }

  /** Day 0 of the next month is the last day of this month (`new Date(y, m + 1, 0)`). */
  lemma {:induction false} MakeDateDayZero(year: int, month: int)
    requires 0 <= month < 12
    ensures var y := ConstructorYear(year);
      MakeDate(year, month + 1, 0) == Date(y, month, DaysInMonth(y, month))
  {
    var y := ConstructorYear(year);
    var total := y * 12 + month + 1;
    if month == 11 {
      assert total / 12 == y + 1 && total % 12 == 0;
    } else {
      assert total / 12 == y && total % 12 == month + 1;
    }
  }

  /** Offsets of the months for the weekday formula (Sakamoto's table). */
  const MonthOffsets: seq<int> := [0, 3, 2, 5, 0, 3, 5, 1, 4, 6, 2, 4]

  /** `getDay()`: 0 is Sunday, 6 is Saturday. */
  function Weekday(d: Date): (w: int)
    requires 0 <= d.month < 12
    ensures 0 <= w < 7
  {
    WeekdayNumber(d) % 7
  }

  /** The weekday formula before reduction modulo 7; January and February count with the previous year. */
  function WeekdayNumber(d: Date): int
    requires 0 <= d.month < 12
  {
    var y := if d.month < 2 then d.year - 1 else d.year;
    YearTerm(y) + MonthOffsets[d.month] + d.day
  }

  function YearTerm(y: int): int
  {
    y + y / 4 - y / 100 + y / 400
  }

  /** 1 January 1970 was a Thursday. */
  lemma WeekdayEpoch()
    ensures Weekday(Date(1970, 0, 1)) == 4
  {
  }

  /** Going from `y - 1` to `y`, `y / k` grows by one exactly when `k` divides `y`. */
  lemma DivStep(y: int, k: int)
    requires k == 4 || k == 100 || k == 400
    ensures y / k - (y - 1) / k == if y % k == 0 then 1 else 0
  {
    var q, r := y / k, y % k;
    assert y == k * q + r && 0 <= r < k;
    if r == 0 {
      assert y - 1 == k * (q - 1) + (k - 1);
    } else {
      assert y - 1 == k * q + (r - 1);
    }
  }

  /** Leap years are counted by the `y/4 - y/100 + y/400` terms of the weekday formula. */
  lemma LeapStep(y: int)
    ensures YearTerm(y) - YearTerm(y - 1) == if IsLeapYear(y) then 2 else 1
  {
    DivStep(y, 4);
    DivStep(y, 100);
    DivStep(y, 400);
    if y % 400 == 0 {
      CenturyDivides(y);
      QuadDivides(y);
    } else if y % 100 == 0 {
      QuadDivides(y);
    }
  }

  lemma CenturyDivides(y: int)
    requires y % 400 == 0
    ensures y % 100 == 0
  {
    var q := y / 400;
    assert y == 100 * (4 * q);
  }

  lemma QuadDivides(y: int)
    requires y % 100 == 0
    ensures y % 4 == 0
  {
    var q := y / 100;
    assert y == 4 * (25 * q);
  }

  lemma Mod7Step(x: int, c: int)
    requires c % 7 == 1
    ensures (x + c) % 7 == (x % 7 + 1) % 7
  {
    var q, r := x / 7, x % 7;
    var qc := c / 7;
    assert x + c == 7 * (q + qc) + r + 1;
    if r == 6 {
      assert x + c == 7 * (q + qc + 1);
    }
  }

  /** Consecutive days fall on consecutive weekdays, across month and year ends. */
  lemma WeekdayNextDay(d: Date)
    requires IsValid(d)
    ensures Weekday(NextDay(d)) == (Weekday(d) + 1) % 7
  {
    var x := WeekdayNumber(d);
    var c := WeekdayNumber(NextDay(d)) - x;
    if d.day < DaysInMonth(d.year, d.month) {
      assert c == 1;
    } else if d.month == 1 {
      FebruaryEndStep(d);
    } else if d.month < 11 {
      MonthEndStep(d);
    } else {
      // 31 December to 1 January: both use the same shifted year
      assert c == 0 + 1 - 4 - 31;
    }
    Mod7Step(x, c);
  }

  /** From the last of February to 1 March the shifted year of the formula steps from `y - 1` to `y`. */
  lemma FebruaryEndStep(d: Date)
    requires IsValid(d) && d.month == 1 && d.day == DaysInMonth(d.year, 1)
    ensures (WeekdayNumber(NextDay(d)) - WeekdayNumber(d)) % 7 == 1
  {
    LeapStep(d.year);
    var step := YearTerm(d.year) - YearTerm(d.year - 1);
    if IsLeapYear(d.year) {
      assert step == 2 && d.day == 29;
    } else {
      assert step == 1 && d.day == 28;
    }
    assert NextDay(d) == Date(d.year, 2, 1);
    assert WeekdayNumber(NextDay(d)) == YearTerm(d.year) + 2 + 1;
    assert WeekdayNumber(d) == YearTerm(d.year - 1) + 3 + d.day;
    assert WeekdayNumber(NextDay(d)) - WeekdayNumber(d) == step - d.day;
    FebruaryShift(WeekdayNumber(NextDay(d)) - WeekdayNumber(d), step, d.day);
  }

  /** The weekday shift across the end of February: one day, in leap years and others alike. */
  lemma FebruaryShift(shift: int, step: int, day: int)
    requires (step == 2 && day == 29) || (step == 1 && day == 28)
    requires shift == step - day
    ensures shift % 7 == 1
  {
  }

  /** The last day of a month other than February or December, and the first of the next. */
  lemma MonthEndStep(d: Date)
    requires IsValid(d) && d.month < 11 && d.month != 1
    requires d.day == DaysInMonth(d.year, d.month)
    ensures (WeekdayNumber(NextDay(d)) - WeekdayNumber(d)) % 7 == 1
  {
    var m := d.month;
    var y := if m < 2 then d.year - 1 else d.year;
    var ny := if m + 1 < 2 then d.year - 1 else d.year;
    assert NextDay(d) == Date(d.year, m + 1, 1);
    assert WeekdayNumber(NextDay(d)) - WeekdayNumber(d) ==
      YearTerm(ny) - YearTerm(y) + MonthOffsets[m + 1] + 1 - MonthOffsets[m] - d.day;
    if m == 0 {
      assert ny == y;
    }
  }

  lemma ModSucc(a: int)
    ensures ((a - 1) % 7 + 1) % 7 == a % 7
  {
    var q, r := (a - 1) / 7, (a - 1) % 7;
    assert a == 7 * q + r + 1;
    if r == 6 {
      assert a == 7 * (q + 1);
    } else {
      assert a == 7 * q + (r + 1);
    }
  }

  /** Day `k + 1` of a month falls `k` weekdays after the first of that month. */
  lemma {:induction false} WeekdaysFollow(year: int, month: int, k: nat)
    requires 0 <= month < 12 && k < DaysInMonth(year, month)
    ensures Weekday(Date(year, month, k + 1)) == (Weekday(Date(year, month, 1)) + k) % 7
  {
    if k > 0 {
      WeekdaysFollow(year, month, k - 1);
      var d := Date(year, month, k);
      assert NextDay(d) == Date(year, month, k + 1);
      WeekdayNextDay(d);
      var w := Weekday(Date(year, month, 1));
      var prev := Weekday(d);
      assert prev == (w + k - 1) % 7;
      ModSucc(w + k);
    }
  }
}
