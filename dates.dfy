/** Calendar arithmetic standing in for JavaScript `Date`: proleptic Gregorian
    dates, day numbers, weekdays and moments (a date plus a time of day, in
    local time). */
module Dates {

  const MsPerDay: int := 86_400_000

  datatype Civil = Civil(year: int, month: int, day: int)

  predicate IsLeapYear(y: int)
  {
    y % 4 == 0 && (y % 100 != 0 || y % 400 == 0)
  }

  /** Number of days of month `m` (1 = January) in year `y`. */
  function DaysInMonth(y: int, m: int): (n: int)
    requires 1 <= m <= 12
    ensures 28 <= n <= 31
    ensures n == 29 <==> m == 2 && IsLeapYear(y)
  {
    if m == 2 then (if IsLeapYear(y) then 29 else 28)
    else if m == 4 || m == 6 || m == 9 || m == 11 then 30
    else 31
  }

  predicate ValidCivil(c: Civil)
  {
    1 <= c.month <= 12 && 1 <= c.day <= DaysInMonth(c.year, c.month)
  }

  /** A calendar day that exists. */
  type Date = c: Civil | ValidCivil(c) witness Civil(1970, 1, 1)

  /** A point in local time: a day and the milliseconds elapsed since its midnight. */
  type TimeOfDay = ms: int | 0 <= ms < MsPerDay

  datatype Moment = Moment(date: Date, ms: TimeOfDay)

  /** Days in all years before `y`, counted from 0001-01-01. */
  function DaysBeforeYear(y: int): int
  {
    365 * (y - 1) + (y - 1) / 4 - (y - 1) / 100 + (y - 1) / 400
  }

  /** Days in the months of year `y` before month `m`. */
  function DaysBeforeMonth(y: int, m: int): (n: int)
    requires 1 <= m <= 13
    ensures 0 <= n <= 366
  {
    var base :=
      match m
      case 1 => 0   case 2 => 31  case 3 => 59   case 4 => 90
      case 5 => 120 case 6 => 151 case 7 => 181  case 8 => 212
      case 9 => 243 case 10 => 273 case 11 => 304 case 12 => 334
      case _ => 365;
    base + (if m > 2 && IsLeapYear(y) then 1 else 0)
  }

  /** Days elapsed from 0001-01-01 (a Monday) to `d`. */
  function DayNumber(d: Date): int
  {
    DaysBeforeYear(d.year) + DaysBeforeMonth(d.year, d.month) + d.day - 1
  }

  /** `Date.prototype.getDay`: 0 for Sunday through 6 for Saturday. */
  function JsDay(d: Date): (w: int)
    ensures 0 <= w < 7
  {
    (DayNumber(d) + 1) % 7
  }

  /** Days since the most recent Monday, `(getDay() + 6) % 7`. */
  function MondayOffset(d: Date): (k: int)
    ensures 0 <= k < 7
    ensures k == DayNumber(d) % 7
  {
    SundayToMonday(DayNumber(d));
    (JsDay(d) + 6) % 7
  }

  function NextDay(d: Date): (r: Date)
  {
    if d.day < DaysInMonth(d.year, d.month) then Civil(d.year, d.month, d.day + 1)
    else if d.month < 12 then Civil(d.year, d.month + 1, 1)
    else Civil(d.year + 1, 1, 1)
  }

  function PrevDay(d: Date): (r: Date)
    ensures NextDay(r) == d
  {
    if d.day > 1 then Civil(d.year, d.month, d.day - 1)
    else if d.month > 1 then Civil(d.year, d.month - 1, DaysInMonth(d.year, d.month - 1))
    else Civil(d.year - 1, 12, 31)
  }

  lemma PrevOfNext(d: Date)
    ensures PrevDay(NextDay(d)) == d
  {
  }

  /** `setDate(getDate() + n)`: the date `n` days later (earlier when `n < 0`). */
  function AddDays(d: Date, n: int): Date
    decreases if n < 0 then -n else n
  {
    if n == 0 then d
    else if n > 0 then AddDays(NextDay(d), n - 1)
    else AddDays(PrevDay(d), n + 1)
  }

  /** Moment order, as JavaScript compares `Date` values by `getTime()`. */
  function Stamp(m: Moment): int
  {
    DayNumber(m.date) * MsPerDay + m.ms
  }

  /** `toDateString()` equality: the same calendar day, whatever the time. */
  predicate SameDay(a: Moment, b: Moment)
  {
    a.date == b.date
  }

  // ---- Day numbers ----

  lemma DivStep(y: int, q: int)
    requires q > 0
    ensures y / q - (y - 1) / q == (if y % q == 0 then 1 else 0)
  {
    var a, r := (y - 1) / q, (y - 1) % q;
    assert y - 1 == q * a + r && 0 <= r < q;
    if r == q - 1 {
      assert y == q * (a + 1) + 0;
      DivUnique(y, q, a + 1, 0);
    } else {
      assert y == q * a + (r + 1);
      DivUnique(y, q, a, r + 1);
    }
  }

  lemma DivUnique(y: int, q: int, a: int, r: int)
    requires q > 0 && 0 <= r < q && y == q * a + r
    ensures y / q == a && y % q == r
  {
    var k := a - y / q;
    assert y == q * (y / q) + y % q;
    assert q * k == y % q - r;
    if k > 0 {
      MulAtLeast(q, k);
    } else if k < 0 {
      MulAtLeast(q, -k);
    }
  }

  lemma MulAtLeast(q: int, k: int)
    requires q > 0 && k > 0
    ensures q * k >= q
  {
    assert q * k == q * (k - 1) + q;
  }

  lemma SundayToMonday(n: int)
    ensures ((n + 1) % 7 + 6) % 7 == n % 7
  {
    var q := (n + 1) / 7;
    assert n + 1 == 7 * q + (n + 1) % 7;
    ModShift(n, 1 - q);
  }

  /** Adding whole weeks does not change a remainder modulo 7. */
  lemma ModShift(x: int, k: int)
    ensures (x + 7 * k) % 7 == x % 7
  {
    assert x == 7 * (x / 7) + x % 7;
    DivUnique(x + 7 * k, 7, x / 7 + k, x % 7);
  }

  /** A multiple of 7 plus a remainder in 0..6 leaves that remainder. */
  lemma ModAfterMultiple(x: int, r: int)
    requires x % 7 == 0 && 0 <= r < 7
    ensures (x + r) % 7 == r
  {
    ModShift(r, x / 7);
  }

  /** A year has 366 days exactly when it is a leap year. */
  lemma YearLength(y: int)
    ensures DaysBeforeYear(y + 1) - DaysBeforeYear(y) == (if IsLeapYear(y) then 366 else 365)
  {
    DivStep(y, 4);
    DivStep(y, 100);
    DivStep(y, 400);
    if y % 100 == 0 {
      assert y == 100 * (y / 100);
      assert y % 4 == 0;
    }
    if y % 400 == 0 {
      assert y == 400 * (y / 400);
      assert y % 100 == 0;
    }
  }

  /** Stepping one day forward adds one to the day number. */
  lemma DayNumberNext(d: Date)
    ensures DayNumber(NextDay(d)) == DayNumber(d) + 1
  {
    if d.day == DaysInMonth(d.year, d.month) && d.month == 12 {
      YearLength(d.year);
    }
  }

  lemma DayNumberPrev(d: Date)
    ensures DayNumber(PrevDay(d)) == DayNumber(d) - 1
  {
    DayNumberNext(PrevDay(d));
  }

  lemma {:induction false} DayNumberAddDays(d: Date, n: int)
    ensures DayNumber(AddDays(d, n)) == DayNumber(d) + n
    decreases if n < 0 then -n else n
  {
    if n > 0 {
      DayNumberNext(d);
      DayNumberAddDays(NextDay(d), n - 1);
    } else if n < 0 {
      DayNumberPrev(d);
      DayNumberAddDays(PrevDay(d), n + 1);
    }
  }

  // ---- AddDays algebra ----

  lemma AddDaysAfterNext(d: Date, k: int)
    ensures AddDays(NextDay(d), k) == AddDays(d, k + 1)
  {
    if k < 0 {
      PrevOfNext(d);
    }
  }

  lemma AddDaysAfterPrev(d: Date, k: int)
    ensures AddDays(PrevDay(d), k) == AddDays(d, k - 1)
  {
  }

  /** Adding `a` days and then `b` days is adding `a + b` days. */
  lemma {:induction false} AddDaysAdditive(d: Date, a: int, b: int)
    ensures AddDays(AddDays(d, a), b) == AddDays(d, a + b)
    decreases if a < 0 then -a else a
  {
    if a > 0 {
      AddDaysAdditive(NextDay(d), a - 1, b);
      AddDaysAfterNext(d, a - 1 + b);
    } else if a < 0 {
      AddDaysAdditive(PrevDay(d), a + 1, b);
      AddDaysAfterPrev(d, a + 1 + b);
    }
  }

  /** Going `n` days forward and `n` days back returns to the same date. */
  lemma AddDaysRoundTrip(d: Date, n: int)
    ensures AddDays(AddDays(d, n), -n) == d
  {
    AddDaysAdditive(d, n, -n);
  }

  /** Moving by `n` days moves the Monday-based weekday by `n` modulo 7. */
  lemma MondayOffsetAddDays(d: Date, n: int)
    ensures MondayOffset(AddDays(d, n)) == (MondayOffset(d) + n) % 7
  {
    var x := DayNumber(d);
    DayNumberAddDays(d, n);
    assert x == 7 * (x / 7) + x % 7;
    ModShift(x % 7 + n, x / 7);
  }
}
