/** The calendar clock behind the real-time clock chips. */
module Rtc {

  /** Year divisible as C computes it: a zero remainder is the same for truncating and Euclidean division. */
  predicate IsLeap(year: int) {
    if year % 400 == 0 then true
    else if year % 100 == 0 then false
    else year % 4 == 0
  }

  const DAYS_IN_MONTH: seq<int> := [31, 28, 31, 30, 31, 30, 31, 31, 30, 31, 30, 31]

  function GetDays(month: int, year: int): int
    requires 1 <= month <= 12
  {
    if month == 2 then (if IsLeap(year) then 29 else 28) else DAYS_IN_MONTH[month - 1]
  }

  datatype Time = Time(sec: int, min: int, hour: int, mday: int, mon: int, year: int)

  predicate Valid(t: Time) {
    && 0 <= t.sec < 60 && 0 <= t.min < 60 && 0 <= t.hour < 24
    && 1 <= t.mon <= 12 && 1 <= t.mday <= GetDays(t.mon, t.year)
  }

  /** One second later. */
  function Next(t: Time): Time
    requires 1 <= t.mon <= 12
  {
    if t.sec + 1 != 60 then t.(sec := t.sec + 1)
    else if t.min + 1 != 60 then t.(sec := 0, min := t.min + 1)
    else if t.hour + 1 != 24 then t.(sec := 0, min := 0, hour := t.hour + 1)
    else if t.mday + 1 != GetDays(t.mon, t.year) + 1 then Time(0, 0, 0, t.mday + 1, t.mon, t.year)
    else if t.mon + 1 != 13 then Time(0, 0, 0, 1, t.mon + 1, t.year)
    else Time(0, 0, 0, 1, 1, t.year + 1)
  }

  class Clock {
    var sec: int
    var min: int
    var hour: int
    var mday: int
    var mon: int
    var year: int

    ghost function Now(): Time
      reads this
    {
      Time(sec, min, hour, mday, mon, year)
    }

    /** The clock as it is reset without time synchronisation: everything cleared but month and year. */
    constructor ()
      ensures Now() == RESET
    {
      sec, min, hour, mday := 0, 0, 0, 0;
      mon, year := 1, 1980;
    }

    method Tick()
      requires 1 <= mon <= 12
      modifies this
      ensures Now() == Next(old(Now()))
    {
      sec := sec + 1;
      if sec == 60 {
        sec, min := 0, min + 1;
        if min == 60 {
          min, hour := 0, hour + 1;
          if hour == 24 {
            hour, mday := 0, mday + 1;
            if mday == GetDays(mon, year) + 1 {
              mday, mon := 1, mon + 1;
              if mon == 13 {
                mon, year := 1, year + 1;
              }
            }
          }
        }
      }
    }
  }

  // ----- the absolute count of seconds -----

  /** Days before 1 January of a year, by the Gregorian rule. */
  function YearStart(year: int): int {
    var y := year - 1;
    365 * y + y / 4 - y / 100 + y / 400
  }

  function DaysBefore(month: int, year: int): int
    requires 1 <= month <= 13
    decreases month
  {
    if month == 1 then 0 else DaysBefore(month - 1, year) + GetDays(month - 1, year)
  }

  function Day(t: Time): int
    requires 1 <= t.mon <= 12
  {
    YearStart(t.year) + DaysBefore(t.mon, t.year) + t.mday - 1
  }

  function Seconds(t: Time): int
    requires 1 <= t.mon <= 12
  {
    ((Day(t) * 24 + t.hour) * 60 + t.min) * 60 + t.sec
  }

  lemma YearLength(year: int)
    ensures YearStart(year + 1) == YearStart(year) + if IsLeap(year) then 366 else 365
  {
    By4(year);
    By100(year);
    By400(year);
  }

  lemma By4(year: int)
    ensures year / 4 == (year - 1) / 4 + if year % 4 == 0 then 1 else 0
  {
  }

  lemma By100(year: int)
    ensures year / 100 == (year - 1) / 100 + if year % 100 == 0 then 1 else 0
    ensures year % 100 == 0 ==> year % 4 == 0
  {
  }

  lemma By400(year: int)
    ensures year / 400 == (year - 1) / 400 + if year % 400 == 0 then 1 else 0
    ensures year % 400 == 0 ==> year % 100 == 0
  {
  }

  lemma MonthsSum(year: int)
    ensures DaysBefore(13, year) == if IsLeap(year) then 366 else 365
  {
    hide IsLeap;
    assert DaysBefore(3, year) == 31 + GetDays(2, year);
    assert DaysBefore(6, year) == DaysBefore(3, year) + 92;
    assert DaysBefore(9, year) == DaysBefore(6, year) + 92;
    assert DaysBefore(12, year) == DaysBefore(9, year) + 91;
  }

  /** The month table against the five-month pattern of 153 days that repeats from March on. */
  lemma {:induction false} MonthsFormula(m: int, year: int)
    requires 1 <= m <= 13
    ensures DaysBefore(m, year) ==
            if m <= 2 then 31 * (m - 1) else 59 + (if IsLeap(year) then 1 else 0) + (153 * (m - 3) + 2) / 5
    decreases m
  {
    hide IsLeap, GetDays;
    if m == 1 {
    } else {
      MonthLength(m - 1, year);
      MonthsFormula(m - 1, year);
    }
  }

  lemma MonthLength(m: int, year: int)
    requires 1 <= m <= 12
    ensures GetDays(m, year) == if m == 1 then 31 else if m == 2 then 28 + (if IsLeap(year) then 1 else 0)
                                else (153 * (m - 2) + 2) / 5 - (153 * (m - 3) + 2) / 5
  {
  }

  /** A tick keeps a valid time valid and advances the count of seconds by one -- across minutes, months,
      leap days and centuries. */
  lemma TickAdvances(t: Time)
    requires Valid(t)
    ensures Valid(Next(t)) && Seconds(Next(t)) == Seconds(t) + 1
  {
    if t.sec == 59 && t.min == 59 && t.hour == 23 {
      MidnightAdvances(t);
    } else {
      WithinDay(t);
    }
    hide Day;
  }

  lemma WithinDay(t: Time)
    requires Valid(t) && !(t.sec == 59 && t.min == 59 && t.hour == 23)
    ensures Valid(Next(t)) && Day(Next(t)) == Day(t)
  {
    hide DaysBefore;
  }

  lemma MidnightAdvances(t: Time)
    requires Valid(t) && t.sec == 59 && t.min == 59 && t.hour == 23
    ensures Valid(Next(t)) && Next(t).hour == Next(t).min == Next(t).sec == 0 && Day(Next(t)) == Day(t) + 1
  {
    hide YearStart, IsLeap;
    MonthsSum(t.year);
    YearLength(t.year);
  }

  function Ticks(t: Time, k: nat): (r: Time)
    requires Valid(t)
    ensures Valid(r)
    decreases k
  {
    if k == 0 then t else TickAdvances(t); Ticks(Next(t), k - 1)
  }

  lemma {:induction false} TicksAdvance(t: Time, k: nat)
    requires Valid(t)
    ensures Seconds(Ticks(t, k)) == Seconds(t) + k
    decreases k
  {
    hide Seconds, Next, GetDays;
    if k == 0 {
    } else {
      TickAdvances(t);
      TicksAdvance(Next(t), k - 1);
    }
  }

  // ----- the count determines the time -----

  lemma {:induction false} YearStartGrows(x: int, y: int)
    requires x < y
    ensures YearStart(x) + (if IsLeap(x) then 366 else 365) <= YearStart(y)
    decreases y - x
  {
    hide YearStart, IsLeap;
    YearLength(x);
    if x + 1 == y {
    } else {
      YearStartGrows(x + 1, y);
    }
  }

  lemma {:induction false} DaysBeforeGrows(m: int, n: int, year: int)
    requires 1 <= m < n <= 13
    ensures DaysBefore(m, year) + GetDays(m, year) <= DaysBefore(n, year)
    decreases n - m
  {
    hide IsLeap;
    if m + 1 == n {
    } else {
      DaysBeforeGrows(m + 1, n, year);
    }
  }

  lemma DayInYear(t: Time)
    requires Valid(t)
    ensures 0 <= Day(t) - YearStart(t.year) < if IsLeap(t.year) then 366 else 365
    ensures DaysBefore(t.mon, t.year) >= 0
  {
    hide YearStart, IsLeap, GetDays;
    MonthsSum(t.year);
    DaysBeforeGrows(t.mon, 13, t.year);
    if t.mon > 1 {
      DaysBeforeGrows(1, t.mon, t.year);
      OneMonth(t.year);
    }
  }

  lemma OneMonth(year: int)
    ensures DaysBefore(1, year) == 0 && GetDays(1, year) == 31
  {
  }

  lemma SameDay(t: Time, u: Time)
    requires Valid(t) && Valid(u) && Day(t) == Day(u)
    ensures t.year == u.year && t.mon == u.mon && t.mday == u.mday
  {
    hide YearStart, IsLeap, DaysBefore, GetDays;
    DayInYear(t);
    DayInYear(u);
    if t.year < u.year {
      YearStartGrows(t.year, u.year);
    } else if u.year < t.year {
      YearStartGrows(u.year, t.year);
    } else if t.mon < u.mon {
      DaysBeforeGrows(t.mon, u.mon, t.year);
    } else if u.mon < t.mon {
      DaysBeforeGrows(u.mon, t.mon, t.year);
    }
  }

  /** No two valid times have the same count: leap years included, the calendar neither repeats nor overlaps. */
  lemma SecondsDetermine(t: Time, u: Time)
    requires Valid(t) && Valid(u) && Seconds(t) == Seconds(u)
    ensures t == u
  {
    hide Day;
    assert Day(t) == Day(u);
    SameDay(t, u);
  }

  /** k ticks lead to the one valid time k seconds later, and to no other. */
  lemma TicksReach(t: Time, u: Time, k: nat)
    requires Valid(t) && Valid(u)
    ensures Ticks(t, k) == u <==> Seconds(u) == Seconds(t) + k
  {
    hide Seconds, GetDays;
    TicksAdvance(t, k);
    if Seconds(u) == Seconds(t) + k {
      SecondsDetermine(Ticks(t, k), u);
    }
  }

  /** After 400 years -- 146097 days -- the clock shows the same date and time again. */
  lemma CycleOf400Years(t: Time)
    requires Valid(t)
    ensures Ticks(t, 146097 * 86400) == t.(year := t.year + 400)
  {
    var u := t.(year := t.year + 400);
    Later400(t.year);
    SameMonths(t.mon, t.year, u.year);
    hide YearStart, IsLeap, DaysBefore, Ticks;
    assert Day(u) == Day(t) + 146097;
    TicksReach(t, u, 146097 * 86400);
  }

  lemma Later400(year: int)
    ensures IsLeap(year + 400) == IsLeap(year) && YearStart(year + 400) == YearStart(year) + 146097
  {
    var y := year - 1;
    assert (y + 400) / 4 == y / 4 + 100;
    assert (y + 400) / 100 == y / 100 + 4;
    assert (y + 400) / 400 == y / 400 + 1;
    assert (year + 400) % 400 == year % 400;
    assert (year + 400) % 100 == year % 100;
    assert (year + 400) % 4 == year % 4;
  }

  lemma {:induction false} SameMonths(m: int, x: int, y: int)
    requires 1 <= m <= 13 && IsLeap(x) == IsLeap(y)
    ensures DaysBefore(m, x) == DaysBefore(m, y)
    decreases m
  {
    hide IsLeap;
    if m == 1 {
    } else {
      SameMonths(m - 1, x, y);
    }
  }

  // ----- the reset state -----

  const RESET := Time(0, 0, 0, 0, 1, 1980)

  function TicksFromReset(k: nat): Time
    requires k < 86400
  {
    Time(k % 60, k / 60 % 60, k / 3600, 0, 1, 1980)
  }

  /** The reset state is not the first of January 1980 it is meant to be, nor any date: its day is 0.  For a
      whole day the clock counts through that day, and only the tick that ends it reaches 1 January. */
  lemma ResetIsDayZero(k: nat)
    requires k < 86400
    ensures !Valid(RESET) && TicksFromReset(0) == RESET && !Valid(TicksFromReset(k))
    ensures Next(TicksFromReset(k)) == if k + 1 < 86400 then TicksFromReset(k + 1) else Time(0, 0, 0, 1, 1, 1980)
  {
    var minutes := k / 60;
    assert k == 60 * minutes + k % 60 && k / 3600 == minutes / 60;
    if k % 60 == 59 {
      assert (k + 1) / 60 == minutes + 1;
    } else {
      assert (k + 1) / 60 == minutes;
    }
  }
}
