/** The proleptic Gregorian calendar as day numbers counted from 1970-01-01. Months are numbered through the
    years: month `m` of year `y` is number `12 * y + m - 1`. Leap years follow Appendix C of RFC 3339, month
    lengths its section 5.7. */
module Calendar {
  predicate Leap(year: int) {
    year % 4 == 0 && (year % 100 != 0 || year % 400 == 0)
  }

  function Year(month: int): int {
    month / 12
  }

  function MonthOfYear(month: int): (m: int)
    ensures 1 <= m <= 12
  {
    month % 12 + 1
  }

  /** The table of section 5.7 of RFC 3339. */
  function TableLength(year: int, m: int): int {
    if m == 2 then (if Leap(year) then 29 else 28)
    else if m == 4 || m == 6 || m == 9 || m == 11 then 30
    else 31
  }

  /** Days from the start of year zero to the start of this one. */
  function DaysBeforeYear(year: int): int {
    365 * year + MultiplesBelow(year, 4) - MultiplesBelow(year, 100) + MultiplesBelow(year, 400)
  }

  function DaysBeforeMonth(year: int, m: int): int {
    (if m <= 1 then 0
     else if m == 2 then 31
     else if m == 3 then 59
     else if m == 4 then 90
     else if m == 5 then 120
     else if m == 6 then 151
     else if m == 7 then 181
     else if m == 8 then 212
     else if m == 9 then 243
     else if m == 10 then 273
     else if m == 11 then 304
     else 334)
    + if m > 2 && Leap(year) then 1 else 0
  }

  /** The day number of the first of a month; 719528 days lie between the start of year zero and 1970-01-01. */
  function FirstDay(month: int): int {
    DaysBeforeYear(Year(month)) + DaysBeforeMonth(Year(month), MonthOfYear(month)) - 719_528
  }

  /** The length of a month as `days_in_month` measures it: from its first to the next month's first. */
  function DaysInMonth(month: int): int {
    FirstDay(month + 1) - FirstDay(month)
  }

  /** Weekdays count from Monday; 1970-01-01 was a Thursday. */
  function Weekday(day: int): int {
    (day + 3) % 7
  }

  /** Day zero is 1970-01-01, a Thursday; 2000-01-01 was a Saturday. */
  lemma DaysAreAnchored()
    ensures FirstDay(12 * 1970) == 0 && Weekday(FirstDay(12 * 1970)) == 3 && Weekday(FirstDay(12 * 2000)) == 5
  {
  }

  lemma WeekdaysFollow(day: int)
    ensures 0 <= Weekday(day) <= 6 && Weekday(day + 1) == if Weekday(day) == 6 then 0 else Weekday(day) + 1
  {
  }

  /** How many multiples of `d` there are from zero up to `n`, not counting `n`. */
  function MultiplesBelow(n: int, d: int): int
    requires d > 0
  {
    (n + (d - 1)) / d
  }

  lemma OneMoreMultiple(n: int, d: int)
    requires d == 4 || d == 100 || d == 400
    ensures MultiplesBelow(n + 1, d) - MultiplesBelow(n, d) == if n % d == 0 then 1 else 0
  {
    var q, r := (n + (d - 1)) / d, (n + (d - 1)) % d;
    if r == d - 1 {
      DividesUniquely(n, d, q, 0);
      DividesUniquely(n + d, d, q + 1, 0);
    } else {
      DividesUniquely(n, d, q - 1, r + 1);
      DividesUniquely(n + d, d, q, r + 1);
    }
  }

  lemma DividesUniquely(n: int, d: int, q: int, r: int)
    requires 0 <= r < d && n == q * d + r
    ensures n / d == q && n % d == r
  {
    var other, rest := n / d, n % d;
    assert n == other * d + rest;
    Distributes(q, other, d);
    MultiplesAreFar(q - other, d);
  }

  lemma Distributes(a: int, b: int, d: int)
    ensures (a - b) * d == a * d - b * d
  {
  }

  lemma MultiplesAreFar(k: int, d: int)
    requires d > 0
    ensures (k >= 1 ==> k * d >= d) && (k <= -1 ==> k * d <= -d)
  {
    if k >= 1 {
      assert (k - 1) * d >= 0;
    } else if k <= -1 {
      assert (-k - 1) * d >= 0;
    }
  }

  lemma MultiplesNest(year: int)
    ensures year % 400 == 0 ==> year % 100 == 0
    ensures year % 100 == 0 ==> year % 4 == 0
  {
  }

  lemma YearLength(year: int)
    ensures DaysBeforeYear(year + 1) - DaysBeforeYear(year) == if Leap(year) then 366 else 365
  {
    hide MultiplesBelow;
    OneMoreMultiple(year, 4);
    OneMoreMultiple(year, 100);
    OneMoreMultiple(year, 400);
    MultiplesNest(year);
  }

  /** The measured length of every month of every year is the table's. */
  lemma DaysInMonthIsGregorian(month: int)
    ensures DaysInMonth(month) == TableLength(Year(month), MonthOfYear(month))
  {
    hide DaysBeforeYear;
    if MonthOfYear(month) == 12 {
      assert Year(month + 1) == Year(month) + 1 && MonthOfYear(month + 1) == 1;
      YearLength(Year(month));
    } else {
      assert Year(month + 1) == Year(month) && MonthOfYear(month + 1) == MonthOfYear(month) + 1;
    }
  }

  lemma MonthsHaveDays(month: int)
    ensures 28 <= DaysInMonth(month) <= 31
  {
    hide FirstDay;
    DaysInMonthIsGregorian(month);
  }

  lemma DaysBegin()
    ensures FirstDay(1970 * 12) == 0
  {
  }

  /** The month a day lies in. */
  function MonthOf(day: int): (month: int)
    ensures FirstDay(month) <= day < FirstDay(month + 1)
  {
    DaysBegin();
    hide FirstDay;
    if day >= 0 then MonthFrom(day, 1970 * 12) else MonthBack(day, 1970 * 12 - 1)
  }

  function MonthFrom(day: int, month: int): (found: int)
    requires FirstDay(month) <= day
    ensures FirstDay(found) <= day < FirstDay(found + 1)
    decreases day - FirstDay(month)
  {
    hide FirstDay;
    MonthsHaveDays(month);
    if day < FirstDay(month + 1) then month else MonthFrom(day, month + 1)
  }

  function MonthBack(day: int, month: int): (found: int)
    requires day < FirstDay(month + 1)
    ensures FirstDay(found) <= day < FirstDay(found + 1)
    decreases FirstDay(month + 1) - day
  {
    hide FirstDay;
    MonthsHaveDays(month);
    if FirstDay(month) <= day then month else MonthBack(day, month - 1)
  }

  lemma {:induction false} FirstDaysIncrease(early: int, late: int)
    requires early <= late
    ensures FirstDay(early) + 28 * (late - early) <= FirstDay(late)
    decreases late - early
  {
    hide FirstDay;
    if early < late {
      MonthsHaveDays(early);
      FirstDaysIncrease(early + 1, late);
    }
  }

  /** A day has one month. */
  lemma MonthIsUnique(day: int, month: int)
    requires FirstDay(month) <= day < FirstDay(month + 1)
    ensures MonthOf(day) == month
  {
    hide FirstDay;
    var found := MonthOf(day);
    if found < month {
      FirstDaysIncrease(found + 1, month);
    } else if month < found {
      FirstDaysIncrease(month + 1, found);
    }
  }

  function Clamp(value: int, low: int, high: int): int {
    if value < low then low else if value > high then high else value
  }

  /** The given day of a month, or its last. */
  function OnDay(month: int, day: int): int {
    FirstDay(month) + Clamp(day, 1, DaysInMonth(month)) - 1
  }

  /** `checked_add_months`: the same day so many months later, or that month's last. */
  function AddMonths(day: int, months: int): int {
    var month := MonthOf(day);
    OnDay(month + months, day - FirstDay(month) + 1)
  }

  lemma OnDayInMonth(month: int, day: int)
    ensures FirstDay(month) <= OnDay(month, day) < FirstDay(month + 1)
    ensures MonthOf(OnDay(month, day)) == month
  {
    hide FirstDay;
    MonthsHaveDays(month);
    MonthIsUnique(OnDay(month, day), month);
  }
}
