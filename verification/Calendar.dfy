/**
  The proleptic Gregorian calendar: the day count of `days_from_civil` and the
  day-by-day calendar it stands for.
 */
module Calendar {

  /** Integer division as Rust's `/` does it: towards zero. */
  function TruncDiv(a: int, b: int): int
    requires b > 0
  {
    if a >= 0 then a / b else -((-a) / b)
  }

  /** Days between 1970-01-01 and a date, computed without a loop. */
  function DaysFromCivil(year: int, month: int, day: int): int {
    var year := if month <= 2 then year - 1 else year;
    var era := TruncDiv(if year >= 0 then year else year - 399, 400);
    var yearOfEra := year - era * 400;
    var dayOfYear := TruncDiv(153 * (if month > 2 then month - 3 else month + 9) + 2, 5) + day - 1;
    var dayOfEra := yearOfEra * 365 + TruncDiv(yearOfEra, 4) - TruncDiv(yearOfEra, 100) + dayOfYear;
    era * 146_097 + dayOfEra - 719_468
  }

  // ---------- The calendar itself, one day at a time ----------

  datatype Date = Date(year: int, month: int, day: int) {
    predicate Valid() {
      1 <= month <= 12 && 1 <= day <= DaysInMonth(year, month)
    }

    /** The day count of this date. */
    function Days(): int {
      DaysFromCivil(year, month, day)
    }

    predicate Before(that: Date) {
      year < that.year
      || (year == that.year && (month < that.month || (month == that.month && day < that.day)))
    }
  }

  const EPOCH := Date(1970, 1, 1)

  predicate IsLeap(year: int) {
    year % 4 == 0 && (year % 100 != 0 || year % 400 == 0)
  }

  function DaysInMonth(year: int, month: int): int {
    if month == 2 then (if IsLeap(year) then 29 else 28)
    else if month in {4, 6, 9, 11} then 30
    else 31
  }

  function NextDay(d: Date): Date {
    if d.day < DaysInMonth(d.year, d.month) then d.(day := d.day + 1)
    else if d.month < 12 then Date(d.year, d.month + 1, 1)
    else Date(d.year + 1, 1, 1)
  }

  function PreviousDay(d: Date): Date {
    if d.day > 1 then d.(day := d.day - 1)
    else if d.month > 1 then Date(d.year, d.month - 1, DaysInMonth(d.year, d.month - 1))
    else Date(d.year - 1, 12, 31)
  }

  /** The date `n` days after 1970-01-01, reached by turning one page per day. */
  function Walk(n: int): Date
    decreases if n < 0 then -n else n
  {
    if n == 0 then EPOCH
    else if n > 0 then NextDay(Walk(n - 1))
    else PreviousDay(Walk(n + 1))
  }

  // ---------- The count in closed form ----------

  /** The day count of 1 March of `year`, with floor division throughout. */
  function MarchFirst(year: int): int {
    365 * year + year / 4 - year / 100 + year / 400 - 719_468
  }

  /** How many days after 1 March the first of `month` comes. */
  function MonthOffset(month: int): int
    requires 1 <= month <= 12
  {
    [306, 337, 0, 31, 61, 92, 122, 153, 184, 214, 245, 275][month - 1]
  }

  lemma EraIsFloor(year: int)
    ensures TruncDiv(if year >= 0 then year else year - 399, 400) == year / 400
  {
    if year < 0 {
      var q, r := year / 400, year % 400;
      assert year == 400 * q + r;
      assert 399 - year == 400 * (-q) + (399 - r);
    }
  }

  lemma QuotientShift(a: int, n: int, b: int)
    requires b == 4 || b == 100 || b == 400
    ensures (a + 400 * n) / b == a / b + 400 / b * n
  {
    if b == 4 {
    } else if b == 100 {
    } else {
    }
  }

  lemma EraSplits(year: int)
    ensures var e := year / 400; var y := year - e * 400;
      0 <= y < 400
      && e * 146_097 + y * 365 + y / 4 - y / 100 == 365 * year + year / 4 - year / 100 + year / 400
  {
    var e := year / 400;
    QuotientShift(year, -e, 4);
    QuotientShift(year, -e, 100);
  }

  lemma ClosedForm(year: int, month: int, day: int)
    requires 1 <= month <= 12
    ensures DaysFromCivil(year, month, day)
         == MarchFirst(if month <= 2 then year - 1 else year) + MonthOffset(month) + day - 1
  {
    var y := if month <= 2 then year - 1 else year;
    EraIsFloor(y);
    EraSplits(y);
  }

  /** A year from March to February has 366 days exactly when it ends in a leap February. */
  lemma MarchYearLength(year: int)
    ensures MarchFirst(year + 1) - MarchFirst(year) == if IsLeap(year + 1) then 366 else 365
  {
    DivisionStep(year, 4);
    DivisionStep(year, 100);
    DivisionStep(year, 400);
    LeapNesting(year + 1);
  }

  lemma DivisionStep(a: int, b: int)
    requires b == 4 || b == 100 || b == 400
    ensures (a + 1) / b == a / b + if (a + 1) % b == 0 then 1 else 0
  {
  }

  lemma LeapNesting(y: int)
    ensures y % 400 == 0 ==> y % 100 == 0
    ensures y % 100 == 0 ==> y % 4 == 0
  {
  }

  lemma {:induction false} MarchFirstGrows(a: int, b: int)
    requires a < b
    ensures MarchFirst(b) >= MarchFirst(a) + 365 * (b - a)
    decreases b - a
  {
    MarchYearLength(b - 1);
    if a < b - 1 {
      MarchFirstGrows(a, b - 1);
    }
  }

  // ---------- What the count means ----------

  /** 1970-01-01 is day 0. */
  lemma EpochIsZero()
    ensures EPOCH.Days() == 0
  {
    ClosedForm(1970, 1, 1);
  }

  /** Outside February, a month ends where the next one begins. */
  lemma MonthsAdjoin(year: int, month: int)
    requires 1 <= month <= 12 && month != 2
    ensures MonthOffset(month) + DaysInMonth(year, month) == MonthOffset(if month == 12 then 1 else month + 1)
  {
  }

  /** Moving to the next day of the calendar adds exactly one, for every valid date of every year. */
  lemma NextDayAddsOne(d: Date)
    requires d.Valid()
    ensures NextDay(d).Valid()
    ensures NextDay(d).Days() == d.Days() + 1
  {
    var n := NextDay(d);
    ClosedForm(d.year, d.month, d.day);
    ClosedForm(n.year, n.month, n.day);
    if d.month == 2 {
      MarchYearLength(d.year - 1);
    } else if d.day == DaysInMonth(d.year, d.month) {
      MonthsAdjoin(d.year, d.month);
    }
  }

  lemma PreviousDayTakesOne(d: Date)
    requires d.Valid()
    ensures PreviousDay(d).Valid()
    ensures PreviousDay(d).Days() == d.Days() - 1
  {
    assert NextDay(PreviousDay(d)) == d;
    NextDayAddsOne(PreviousDay(d));
  }

  lemma WithinTheYear(d: Date)
    requires d.Valid()
    ensures var y := if d.month <= 2 then d.year - 1 else d.year;
      MarchFirst(y) <= d.Days() < MarchFirst(y + 1)
  {
    var y := if d.month <= 2 then d.year - 1 else d.year;
    ClosedForm(d.year, d.month, d.day);
    MarchYearLength(y);
  }

  /** In the year that starts in March, a month ends before any later one begins. */
  lemma MonthsInOrder(year: int, month: int, later: int)
    requires 1 <= month <= 12 && 1 <= later <= 12
    requires (if month <= 2 then month + 12 else month) < (if later <= 2 then later + 12 else later)
    ensures MonthOffset(month) + DaysInMonth(year, month) <= MonthOffset(later)
  {
  }

  lemma MonotoneWithinTheYear(a: Date, b: Date)
    requires a.Valid() && b.Valid() && a.Before(b)
    requires (if a.month <= 2 then a.year - 1 else a.year) == (if b.month <= 2 then b.year - 1 else b.year)
    ensures a.Days() < b.Days()
  {
    ClosedForm(a.year, a.month, a.day);
    ClosedForm(b.year, b.month, b.day);
    if a.month != b.month {
      MonthsInOrder(a.year, a.month, b.month);
    }
  }

  /** Later dates have larger counts, and equal counts mean equal dates. */
  lemma DaysStrictlyMonotone(a: Date, b: Date)
    requires a.Valid() && b.Valid() && a.Before(b)
    ensures a.Days() < b.Days()
  {
    var ya := if a.month <= 2 then a.year - 1 else a.year;
    var yb := if b.month <= 2 then b.year - 1 else b.year;
    if ya == yb {
      MonotoneWithinTheYear(a, b);
    } else {
      WithinTheYear(a);
      WithinTheYear(b);
      if ya + 1 < yb {
        MarchFirstGrows(ya + 1, yb);
      }
    }
  }

  lemma {:induction false} WalkCounts(n: int)
    ensures Walk(n).Valid()
    ensures Walk(n).Days() == n
    decreases if n < 0 then -n else n
  {
    if n == 0 {
      EpochIsZero();
    } else if n > 0 {
      WalkCounts(n - 1);
      NextDayAddsOne(Walk(n - 1));
    } else {
      WalkCounts(n + 1);
      PreviousDayTakesOne(Walk(n + 1));
    }
  }

  /** The count of a date is the number of days one walks from 1970-01-01 to reach it, and no other. */
  lemma DaysCountTheWalk(d: Date, n: int)
    requires d.Valid()
    ensures d.Days() == n <==> Walk(n) == d
  {
    WalkCounts(n);
    if d.Days() == n && Walk(n) != d {
      if d.Before(Walk(n)) {
        DaysStrictlyMonotone(d, Walk(n));
      } else {
        DaysStrictlyMonotone(Walk(n), d);
      }
    }
  }

  lemma MarchFirstShift(year: int)
    ensures MarchFirst(year + 400) == MarchFirst(year) + 146_097
  {
    QuotientShift(year, 1, 4);
    QuotientShift(year, 1, 100);
    QuotientShift(year, 1, 400);
  }

  /** The calendar repeats every 400 years, which are 146097 days. */
  lemma FourCenturies(year: int, month: int, day: int)
    requires 1 <= month <= 12
    ensures DaysFromCivil(year + 400, month, day) == DaysFromCivil(year, month, day) + 146_097
  {
    var y := if month <= 2 then year - 1 else year;
    ClosedForm(year, month, day);
    ClosedForm(year + 400, month, day);
    MarchFirstShift(y);
  }
}
