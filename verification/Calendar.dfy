/** Calendar terms: calculateExpiryDate over Go's Time.AddDate, in UTC.
    Instants count nanoseconds from midnight, January 1 of year 1, which is
    where Go's own clock starts. */
module Calendar {
  const HOUR := 3_600_000_000_000
  const DAY := 86_400_000_000_000

  datatype Cycle = Monthly | Quarterly | Annually

  datatype Date = Date(year: int, month: int, day: int)

  predicate IsLeap(year: int) {
    year % 4 == 0 && (year % 100 != 0 || year % 400 == 0)
  }

  function DaysIn(year: int, month: int): (n: int)
    ensures 28 <= n <= 31
  {
    if month == 2 then (if IsLeap(year) then 29 else 28)
    else if month in {4, 6, 9, 11} then 30
    else 31
  }

  predicate IsDate(d: Date) {
    1 <= d.month <= 12 && 1 <= d.day <= DaysIn(d.year, d.month)
  }

  // ----- The day count -----

  function YearDays(year: int): int { if IsLeap(year) then 366 else 365 }

  /** Days before January 1 of the given year. */
  function YearStart(year: int): int
    decreases year
  {
    if year <= 1 then 0 else YearStart(year - 1) + YearDays(year - 1)
  }

  /** Days of an ordinary year before the given month. */
  function OrdinaryDaysBefore(month: int): int
    requires 1 <= month <= 12
  {
    [0, 31, 59, 90, 120, 151, 181, 212, 243, 273, 304, 334][month - 1]
  }

  /** Days from January 1 of year 1 to the given date of the Gregorian calendar. */
  function DayNumber(d: Date): int
    requires 1 <= d.month <= 12
  {
    YearStart(d.year) + OrdinaryDaysBefore(d.month)
    + (if d.month > 2 && IsLeap(d.year) then 1 else 0) + d.day - 1
  }

  // ----- Overflow normalisation -----

  function NextMonth(year: int, month: int): (int, int) {
    if month == 12 then (year + 1, 1) else (year, month + 1)
  }

  /** time.Date's normalisation of a day past the end of its month: the surplus
      days run on into the following months. */
  function Carry(year: int, month: int, day: int): (d: Date)
    requires 1 <= month <= 12 && day >= 1
    ensures IsDate(d) && d.year >= year
    decreases day
  {
    if day <= DaysIn(year, month) then Date(year, month, day)
    else
      var (y, m) := NextMonth(year, month);
      Carry(y, m, day - DaysIn(year, month))
  }

  /** Time.AddDate(years, months, 0) on the date part; surplus months run on into
      the following years. */
  function AddDate(d: Date, years: nat, months: nat): (r: Date)
    requires IsDate(d)
    ensures IsDate(r)
  {
    var m := d.month - 1 + months;
    Carry(d.year + years + m / 12, m % 12 + 1, d.day)
  }

  function DateOf(instant: nat): (d: Date)
    ensures IsDate(d) && d.year >= 1
  {
    Carry(1, 1, instant / DAY + 1)
  }

  function Instant(d: Date, timeOfDay: int): int
    requires IsDate(d)
  {
    DayNumber(d) * DAY + timeOfDay
  }

  /** AddDate keeps the time of day. */
  function ExpiryDate(cycle: Cycle, now: nat): int {
    var d := DateOf(now);
    var e := match cycle
      case Quarterly => AddDate(d, 0, 3)
      case Annually => AddDate(d, 1, 0)
      case Monthly => AddDate(d, 0, 1);
    Instant(e, now % DAY)
  }

  // ----- What the expiry date means -----

  /** Total length of `count` consecutive calendar months. */
  function MonthsLength(year: int, month: int, count: nat): int
    decreases count + 1
  {
    if count == 0 then 0
    else
      var (y, m) := NextMonth(year, month);
      DaysIn(year, month) + MonthsLength(y, m, count - 1)
  }

  function TermMonths(cycle: Cycle): nat {
    match cycle case Monthly => 1 case Quarterly => 3 case Annually => 12
  }

  lemma MonthFollows(year: int, month: int)
    requires year >= 1 && 1 <= month <= 12
    ensures var (y, m) := NextMonth(year, month);
            DayNumber(Date(y, m, 1)) == DayNumber(Date(year, month, 1)) + DaysIn(year, month)
  {
  }

  /** The day count agrees with the closed form of the Gregorian calendar. */
  lemma {:induction false} YearStartClosed(year: int)
    requires year >= 1
    ensures YearStart(year) == 365 * (year - 1) + (year - 1) / 4 - (year - 1) / 100 + (year - 1) / 400
    decreases year
  {
    if year > 1 {
      YearStartClosed(year - 1);
      CenturyRule(year - 1);
      QuotientSteps(year - 1, 4);
      QuotientSteps(year - 1, 100);
      QuotientSteps(year - 1, 400);
    }
  }

  lemma CenturyRule(year: int)
    ensures year % 400 == 0 ==> year % 100 == 0
    ensures year % 100 == 0 ==> year % 4 == 0
  {
    if year % 400 == 0 { Multiples(4 * (year / 400)); }
    if year % 100 == 0 { Multiples(25 * (year / 100)); }
  }

  lemma Multiples(n: int)
    ensures (4 * n) % 4 == 0 && (100 * n) % 100 == 0
  {
  }

  lemma QuotientSteps(year: int, k: int)
    requires k in {4, 100, 400}
    ensures year / k - (year - 1) / k == if year % k == 0 then 1 else 0
  {
  }

  /** Normalisation never changes which day is meant. */
  lemma {:induction false} CarryKeepsDay(year: int, month: int, day: int)
    requires year >= 1 && 1 <= month <= 12 && day >= 1
    ensures DayNumber(Carry(year, month, day)) == DayNumber(Date(year, month, 1)) + day - 1
    decreases day
  {
    if day > DaysIn(year, month) {
      var (y, m) := NextMonth(year, month);
      MonthFollows(year, month);
      CarryKeepsDay(y, m, day - DaysIn(year, month));
    }
  }

  /** Reading an instant's date and counting its days again is the identity. */
  lemma DateOfInstant(instant: nat)
    ensures Instant(DateOf(instant), instant % DAY) == instant
  {
    CarryKeepsDay(1, 1, instant / DAY + 1);
    assert DayNumber(Date(1, 1, 1)) == 0;
  }

  /** The first of the month `count` months later. */
  lemma {:induction false} MonthsAhead(year: int, month: int, count: nat, y: int, m: int)
    requires year >= 1 && 1 <= month <= 12 && 1 <= m <= 12 && 12 * y + m == 12 * year + month + count
    ensures DayNumber(Date(y, m, 1)) == DayNumber(Date(year, month, 1)) + MonthsLength(year, month, count)
    decreases count
  {
    if count > 0 {
      MonthFollows(year, month);
      var (nextYear, nextMonth) := NextMonth(year, month);
      MonthsAhead(nextYear, nextMonth, count - 1, y, m);
    }
  }

  lemma TermDays(d: Date, years: nat, months: nat)
    requires IsDate(d) && d.year >= 1
    ensures DayNumber(AddDate(d, years, months)) - DayNumber(d)
         == MonthsLength(d.year, d.month, 12 * years + months)
  {
    hide DayNumber, MonthsLength, Carry;
    MonthAndYear(d.month - 1 + months);
    var m := d.month - 1 + months;
    CarriedDays(d, 12 * years + months, d.year + years + m / 12, m % 12 + 1);
  }

  lemma MonthAndYear(m: nat)
    ensures 12 * (m / 12) + m % 12 == m && m / 12 >= 0 && 0 <= m % 12 <= 11
  {
  }

  lemma CarriedDays(d: Date, count: nat, y: int, m: int)
    requires IsDate(d) && d.year >= 1 && y >= 1 && 1 <= m <= 12 && 12 * y + m == 12 * d.year + d.month + count
    ensures DayNumber(Carry(y, m, d.day)) - DayNumber(d) == MonthsLength(d.year, d.month, count)
  {
    MonthsAhead(d.year, d.month, count, y, m);
    CarryKeepsDay(y, m, d.day);
    FirstOfMonth(d);
  }

  lemma FirstOfMonth(d: Date)
    requires IsDate(d)
    ensures DayNumber(d) == DayNumber(Date(d.year, d.month, 1)) + d.day - 1
  {
  }

  /** A term lasts exactly the calendar months it starts with, on every start date
      and at every time of day, overflow normalisation included. */
  lemma TermLength(cycle: Cycle, now: nat)
    ensures var d := DateOf(now);
            ExpiryDate(cycle, now) - now == MonthsLength(d.year, d.month, TermMonths(cycle)) * DAY
  {
    var d := DateOf(now);
    DateOfInstant(now);
    var years := if cycle == Annually then 1 else 0;
    TermDays(d, years, TermMonths(cycle) - 12 * years);
    DifferenceInDays(d, AddDate(d, years, TermMonths(cycle) - 12 * years), now % DAY);
  }

  lemma DifferenceInDays(d: Date, e: Date, timeOfDay: int)
    requires IsDate(d) && IsDate(e)
    ensures Instant(e, timeOfDay) - Instant(d, timeOfDay) == (DayNumber(e) - DayNumber(d)) * DAY
  {
  }

  lemma YearLength(year: int, month: int, count: nat)
    requires year >= 1 && 1 <= month <= 12 && count == 12
    ensures MonthsLength(year, month, count) == YearDays(if month <= 2 then year else year + 1)
  {
    MonthsAhead(year, month, count, year + 1, month);
  }

  lemma QuarterLength(year: int, month: int)
    requires 1 <= month <= 12
    ensures 89 <= MonthsLength(year, month, 3) <= 92
  {
    var (y, m) := NextMonth(year, month);
    var (y', m') := NextMonth(y, m);
    assert MonthsLength(year, month, 3) == DaysIn(year, month) + DaysIn(y, m) + DaysIn(y', m');
  }

  lemma TermBounds(cycle: Cycle, now: nat)
    ensures var (lo, hi) := BoundsInDays(cycle);
            lo * DAY <= ExpiryDate(cycle, now) - now <= hi * DAY
  {
    var d := DateOf(now);
    TermInDays(cycle, d);
    TermLength(cycle, now);
    var (lo, hi) := BoundsInDays(cycle);
    ScaleDays(lo, MonthsLength(d.year, d.month, TermMonths(cycle)), hi);
  }

  lemma ScaleDays(lo: int, days: int, hi: int)
    requires lo <= days <= hi
    ensures lo * DAY <= days * DAY <= hi * DAY
  {
  }

  lemma TermInDays(cycle: Cycle, d: Date)
    requires IsDate(d) && d.year >= 1
    ensures var (lo, hi) := BoundsInDays(cycle);
            lo <= MonthsLength(d.year, d.month, TermMonths(cycle)) <= hi
  {
    match cycle {
      case Monthly => MonthLength(d.year, d.month);
      case Quarterly => QuarterLength(d.year, d.month);
      case Annually => YearLength(d.year, d.month, TermMonths(cycle));
    }
  }

  function BoundsInDays(cycle: Cycle): (int, int) {
    match cycle
    case Monthly => (28, 31)
    case Quarterly => (89, 92)
    case Annually => (365, 366)
  }

  lemma MonthLength(year: int, month: int)
    ensures MonthsLength(year, month, 1) == DaysIn(year, month)
  {
    var (y, m) := NextMonth(year, month);
    assert MonthsLength(y, m, 0) == 0;
  }

  /** The day of the month is kept exactly when the month reached has such a day;
      otherwise the term runs on into the month after. */
  lemma DayOfMonthKept(d: Date, years: nat, months: nat)
    requires IsDate(d)
    ensures var m := d.month - 1 + months;
            var y := d.year + years + m / 12;
            var r := AddDate(d, years, months);
            && (r.day == d.day <==> d.day <= DaysIn(y, m % 12 + 1))
            && (r.day != d.day ==> (r.year, r.month) == NextMonth(y, m % 12 + 1) && r.day <= 3)
  {
    var m := d.month - 1 + months;
    CarryAtMostOnce(d.year + years + m / 12, m % 12 + 1, d.day);
  }

  lemma CarryAtMostOnce(year: int, month: int, day: int)
    requires 1 <= month <= 12 && 1 <= day <= 31
    ensures var (y, m) := NextMonth(year, month);
            var over := day - DaysIn(year, month);
            Carry(year, month, day) == if over <= 0 then Date(year, month, day) else Date(y, m, over)
  {
    if day > DaysIn(year, month) {
      var (y, m) := NextMonth(year, month);
      var over := day - DaysIn(year, month);
      assert Carry(year, month, day) == Carry(y, m, over);
      assert Carry(y, m, over) == Date(y, m, over);
    }
  }
}
