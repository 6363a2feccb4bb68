/** Proleptic Gregorian civil dates, numbered the way Python's `date.toordinal`
    numbers them (1 January of year 1 is day 1), and the one calendar step the
    monthly report needs: the day before the first of a month. */
module Calendar {
  import opened Common

  datatype Date = Date(year: int, month: int, day: int)

  /** Python's MINYEAR and MAXYEAR. */
  const MinYear: int := 1
  const MaxYear: int := 9999

  predicate IsLeap(y: int) {
    y % 4 == 0 && (y % 100 != 0 || y % 400 == 0)
  }

  function DaysInYear(y: int): int {
    if IsLeap(y) then 366 else 365
  }

  function DaysInMonth(y: int, m: int): (n: int)
    requires 1 <= m <= 12
    ensures 28 <= n <= 31
  {
    if m == 2 then (if IsLeap(y) then 29 else 28)
    else if m == 4 || m == 6 || m == 9 || m == 11 then 30
    else 31
  }

  predicate Valid(d: Date) {
    MinYear <= d.year <= MaxYear && 1 <= d.month <= 12 && 1 <= d.day <= DaysInMonth(d.year, d.month)
  }

  /** Days in the months before month `m` of year `y` (Python's `_days_before_month`). */
  function DaysBeforeMonth(y: int, m: int): int
    requires 1 <= m <= 12
  {
    [0, 31, 59, 90, 120, 151, 181, 212, 243, 273, 304, 334][m - 1]
      + (if m > 2 && IsLeap(y) then 1 else 0)
  }

  /** Days in the years before year `y` (Python's `_days_before_year`). */
  function DaysBeforeYear(y: int): int
    requires y >= 1
  {
    var z := y - 1;
    z * 365 + z / 4 - z / 100 + z / 400
  }

  function Ordinal(d: Date): int
    requires Valid(d)
  {
    DaysBeforeYear(d.year) + DaysBeforeMonth(d.year, d.month) + d.day
  }

  /** `d.replace(day=1)` */
  function FirstOfMonth(d: Date): (r: Date)
    requires Valid(d)
    ensures Valid(r) && r.year == d.year && r.month == d.month && r.day == 1
  {
    d.(day := 1)
  }

  /** Strict lexicographic order on (year, month, day). */
  predicate Before(a: Date, b: Date) {
    a.year < b.year
    || (a.year == b.year && a.month < b.month)
    || (a.year == b.year && a.month == b.month && a.day < b.day)
  }

  /** `d - timedelta(days=1)`; None where Python raises OverflowError (before 1 January 1). */
  function DayBefore(d: Date): (r: Option<Date>)
    requires Valid(d)
    ensures r.None? <==> d == Date(MinYear, 1, 1)
    ensures r.Some? ==> Valid(r.value) && Before(r.value, d)
  {
    if d.day > 1 then Some(d.(day := d.day - 1))
    else if d.month > 1 then Some(Date(d.year, d.month - 1, DaysInMonth(d.year, d.month - 1)))
    else if d.year > MinYear then Some(Date(d.year - 1, 12, 31))
    else None
  }

  /** DayBefore agrees with the ordinal numbering: it steps back exactly one day. */
  lemma DayBeforeIsOneDayBack(d: Date)
    requires Valid(d)
    ensures DayBefore(d).None? <==> Ordinal(d) == 1
    ensures DayBefore(d).Some? ==> Ordinal(DayBefore(d).value) == Ordinal(d) - 1
  {
    OrdinalOne(d);
    if d.day == 1 && d.month > 1 {
      MonthStep(d.year, d.month - 1);
    } else if d.day == 1 && d.year > MinYear {
      YearStep(d.year - 1);
    }
  }

  /** The day before the first of a month is the last day of the month before. */
  lemma DayBeforeFirst(d: Date)
    requires Valid(d) && d.day == 1
    ensures !(d.year == MinYear && d.month == 1) ==> DayBefore(d) == Some(if d.month == 1 then Date(d.year - 1, 12, 31)
                                 else Date(d.year, d.month - 1, DaysInMonth(d.year, d.month - 1)))
  {
  }

  // ---------------------------------------------------------------------------
  // Arithmetic facts about the ordinal numbering

  /** Crossing a multiple of `k` adds one to the quotient (for the divisors of the leap rule). */
  lemma DivStep(z: int, k: int)
    requires z >= 0 && (k == 4 || k == 100 || k == 400)
    ensures (z + 1) / k == z / k + (if (z + 1) % k == 0 then 1 else 0)
  {
    if k == 4 {
      assert (z + 1) / 4 == z / 4 + (if (z + 1) % 4 == 0 then 1 else 0);
    } else if k == 100 {
      assert (z + 1) / 100 == z / 100 + (if (z + 1) % 100 == 0 then 1 else 0);
    } else {
      assert (z + 1) / 400 == z / 400 + (if (z + 1) % 400 == 0 then 1 else 0);
    }
  }

  /** A year adds exactly its own length to the day count. */
  lemma YearStep(y: int)
    requires y >= 1
    ensures DaysBeforeYear(y + 1) == DaysBeforeYear(y) + DaysInYear(y)
  {
    var z := y - 1;
    DivStep(z, 4);
    DivStep(z, 100);
    DivStep(z, 400);
    LeapDivisors(y);
    assert (z + 1) * 365 == z * 365 + 365;
  }

  /** A multiple of 400 is a multiple of 100, and a multiple of 100 one of 4. */
  lemma LeapDivisors(y: int)
    requires y >= 1
    ensures y % 400 == 0 ==> y % 100 == 0
    ensures y % 100 == 0 ==> y % 4 == 0
  {
    if y % 400 == 0 {
      MultipleOf(y / 400 * 4, 100);
      assert y == y / 400 * 4 * 100;
    }
    if y % 100 == 0 {
      MultipleOf(y / 100 * 25, 4);
      assert y == y / 100 * 25 * 4;
    }
  }

  lemma MultipleOf(q: int, k: int)
    requires k == 4 || k == 100
    ensures (q * k) % k == 0
  {
    if k == 4 {
      assert (q * 4) % 4 == 0;
    } else {
      assert (q * 100) % 100 == 0;
    }
  }

  /** A month adds exactly its own length to the day count; December closes the year. */
  lemma MonthStep(y: int, m: int)
    requires 1 <= m <= 12
    ensures m < 12 ==> DaysBeforeMonth(y, m + 1) == DaysBeforeMonth(y, m) + DaysInMonth(y, m)
    ensures m == 12 ==> DaysBeforeMonth(y, m) + DaysInMonth(y, m) == DaysInYear(y)
  {
  }

  lemma {:induction false} YearsMonotone(y: int, y': int)
    requires 1 <= y < y'
    ensures DaysBeforeYear(y) + DaysInYear(y) <= DaysBeforeYear(y')
    decreases y' - y
  {
    YearStep(y);
    if y + 1 < y' {
      YearsMonotone(y + 1, y');
    }
  }

  lemma {:induction false} MonthsMonotone(y: int, m: int, m': int)
    requires 1 <= m < m' <= 12
    ensures DaysBeforeMonth(y, m) + DaysInMonth(y, m) <= DaysBeforeMonth(y, m')
    decreases m' - m
  {
    MonthStep(y, m);
    if m + 1 < m' {
      MonthsMonotone(y, m + 1, m');
    }
  }

  /** Every date of a month lies within the year's own span of days. */
  lemma WithinYear(d: Date)
    requires Valid(d)
    ensures DaysBeforeYear(d.year) < Ordinal(d) <= DaysBeforeYear(d.year) + DaysInYear(d.year)
  {
    if d.month < 12 {
      MonthsMonotone(d.year, d.month, 12);
    }
    MonthStep(d.year, 12);
  }

  /** The ordinal numbering is strictly increasing in calendar order. */
  lemma OrdinalMonotone(a: Date, b: Date)
    requires Valid(a) && Valid(b) && Before(a, b)
    ensures Ordinal(a) < Ordinal(b)
  {
    if a.year < b.year {
      WithinYear(a);
      WithinYear(b);
      YearsMonotone(a.year, b.year);
    } else if a.month < b.month {
      MonthsMonotone(a.year, a.month, b.month);
    }
  }

  /** Ordinals identify dates. */
  lemma OrdinalInjective(a: Date, b: Date)
    requires Valid(a) && Valid(b) && Ordinal(a) == Ordinal(b)
    ensures a == b
  {
    if Before(a, b) {
      OrdinalMonotone(a, b);
    } else if Before(b, a) {
      OrdinalMonotone(b, a);
    }
  }

  /** 1 January of year 1 is day 1, and no other date is. */
  lemma OrdinalOne(d: Date)
    requires Valid(d)
    ensures Ordinal(d) == 1 <==> d == Date(MinYear, 1, 1)
  {
    if d == Date(MinYear, 1, 1) {
      assert DaysBeforeYear(d.year) == 0;
    } else {
      OrdinalMonotone(Date(MinYear, 1, 1), d);
      assert Ordinal(Date(MinYear, 1, 1)) == 1;
    }
  }

  /** A date lies in month (y, m) exactly when its ordinal lies between the
      ordinals of that month's first and last day. */
  lemma InMonthByOrdinal(x: Date, y: int, m: int)
    requires Valid(x) && MinYear <= y <= MaxYear && 1 <= m <= 12
    ensures Ordinal(Date(y, m, 1)) <= Ordinal(x) <= Ordinal(Date(y, m, DaysInMonth(y, m)))
            <==> x.year == y && x.month == m
  {
    var first, last := Date(y, m, 1), Date(y, m, DaysInMonth(y, m));
    if Before(x, first) {
      OrdinalMonotone(x, first);
    } else if Before(last, x) {
      OrdinalMonotone(last, x);
    }
  }
}
