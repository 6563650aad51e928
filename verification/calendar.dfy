/** The proleptic Gregorian calendar of Python's `datetime.date`, at day granularity.
    A date is a civil (year, month, day) triple; `Ordinal` is Python's `date.toordinal()`,
    and adding or subtracting a `timedelta` of whole days moves the ordinal. */
module Calendar {
  import opened Wrappers

  datatype Date = Date(year: int, month: int, day: int)

  /** Python's datetime.MINYEAR and datetime.MAXYEAR. */
  const MinYear := 1
  const MaxYear := 9999

  predicate IsLeap(y: int) { y % 4 == 0 && (y % 100 != 0 || y % 400 == 0) }

  function DaysInMonth(y: int, m: int): (n: int)
    requires 1 <= m <= 12
    ensures 28 <= n <= 31
    ensures n == 29 <==> m == 2 && IsLeap(y)
  {
    if m == 2 then (if IsLeap(y) then 29 else 28)
    else if m == 4 || m == 6 || m == 9 || m == 11 then 30
    else 31
  }

  /** A calendar date in any year. */
  predicate WellFormed(d: Date) { 1 <= d.month <= 12 && 1 <= d.day <= DaysInMonth(d.year, d.month) }

  /** A date that Python's `date` type can hold. */
  predicate Valid(d: Date) { WellFormed(d) && MinYear <= d.year <= MaxYear }

  /** What a stored DateField holds. */
  type ValidDate = d: Date | Valid(d) witness Date(1, 1, 1)

  /** Days in the years before `y`, as Python's `_days_before_year` (floor division; Dafny's
      `/` by a positive constant is floor division for every sign of the dividend). */
  function DaysBeforeYear(y: int): int
  {
    var x := y - 1;
    x * 365 + x / 4 - x / 100 + x / 400
  }

  /** Days in the months of year `y` before month `m`, as Python's `_days_before_month`. */
  function DaysBeforeMonth(y: int, m: int): int
    requires 1 <= m <= 12
  {
    var common :=
      if m == 1 then 0 else if m == 2 then 31 else if m == 3 then 59 else if m == 4 then 90
      else if m == 5 then 120 else if m == 6 then 151 else if m == 7 then 181 else if m == 8 then 212
      else if m == 9 then 243 else if m == 10 then 273 else if m == 11 then 304 else 334;
    common + (if m > 2 && IsLeap(y) then 1 else 0)
  }

  /** Python's `date.toordinal()`: 0001-01-01 is day 1. */
  function Ordinal(d: Date): int
    requires WellFormed(d)
  {
    DaysBeforeYear(d.year) + DaysBeforeMonth(d.year, d.month) + d.day
  }

  /** `date.max.toordinal()`. */
  const MaxOrdinal := 3652059

  lemma OrdinalBounds()
    ensures WellFormed(Date(MinYear, 1, 1)) && Ordinal(Date(MinYear, 1, 1)) == 1
    ensures WellFormed(Date(MaxYear, 12, 31)) && Ordinal(Date(MaxYear, 12, 31)) == MaxOrdinal
  {
    assert DaysBeforeYear(1) == 0;
    assert DaysInMonth(MaxYear, 12) == 31;
    assert WellFormed(Date(MaxYear, 12, 31));
    assert 9998 / 4 == 2499 && 9998 / 100 == 99 && 9998 / 400 == 24;
    assert DaysBeforeYear(MaxYear) == 3651694;
    assert !IsLeap(MaxYear);
    assert DaysBeforeMonth(MaxYear, 12) == 334;
  }

  lemma MultipleOf400(k: int)
    ensures (400 * k) % 100 == 0
  {
    assert 400 * k == 100 * (4 * k);
  }

  lemma MultipleOf100(k: int)
    ensures (100 * k) % 4 == 0
  {
    assert 100 * k == 4 * (25 * k);
  }

  lemma DivisibleBy100Or400(y: int)
    ensures y % 400 == 0 ==> y % 100 == 0
    ensures y % 100 == 0 ==> y % 4 == 0
  {
    if y % 400 == 0 {
      assert y == 400 * (y / 400);
      MultipleOf400(y / 400);
    }
    if y % 100 == 0 {
      assert y == 100 * (y / 100);
      MultipleOf100(y / 100);
    }
  }

  /** A year contributes its length to the days before the next one. */
  lemma YearStep(y: int)
    ensures DaysBeforeYear(y + 1) == DaysBeforeYear(y) + (if IsLeap(y) then 366 else 365)
  {
    var a := if y % 4 == 0 then 1 else 0;
    var b := if y % 100 == 0 then 1 else 0;
    var c := if y % 400 == 0 then 1 else 0;
    assert y / 4 == (y - 1) / 4 + (if y % 4 == 0 then 1 else 0);
    assert y / 100 == (y - 1) / 100 + (if y % 100 == 0 then 1 else 0);
    assert y / 400 == (y - 1) / 400 + (if y % 400 == 0 then 1 else 0);
    assert DaysBeforeYear(y + 1) - DaysBeforeYear(y) == 365 + a - b + c;
    DivisibleBy100Or400(y);
    assert a - b + c == if IsLeap(y) then 1 else 0;
  }

  /** A month contributes its length to the days before the next month. */
  lemma MonthStep(y: int, m: int)
    requires 1 <= m < 12
    ensures DaysBeforeMonth(y, m + 1) == DaysBeforeMonth(y, m) + DaysInMonth(y, m)
  {
  }

  /** December closes the year. */
  lemma DecemberStep(y: int)
    ensures DaysBeforeYear(y) + DaysBeforeMonth(y, 12) + 31 == DaysBeforeYear(y + 1) + DaysBeforeMonth(y + 1, 1)
  {
    YearStep(y);
  }

  /** The day after `d`. */
  function NextDay(d: Date): (r: Date)
    requires WellFormed(d)
    ensures WellFormed(r) && Ordinal(r) == Ordinal(d) + 1
  {
    if d.day < DaysInMonth(d.year, d.month) then Date(d.year, d.month, d.day + 1)
    else if d.month < 12 then
      MonthStep(d.year, d.month);
      Date(d.year, d.month + 1, 1)
    else
      DecemberStep(d.year);
      Date(d.year + 1, 1, 1)
  }

  /** The day before `d`. */
  function PrevDay(d: Date): (r: Date)
    requires WellFormed(d)
    ensures WellFormed(r) && Ordinal(r) == Ordinal(d) - 1
  {
    if d.day > 1 then Date(d.year, d.month, d.day - 1)
    else if d.month > 1 then
      MonthStep(d.year, d.month - 1);
      Date(d.year, d.month - 1, DaysInMonth(d.year, d.month - 1))
    else
      DecemberStep(d.year - 1);
      Date(d.year - 1, 12, 31)
  }

  /** `d + timedelta(days=n)` for n >= 0, one day at a time. */
  function AddDays(d: Date, n: nat): (r: Date)
    requires WellFormed(d)
    ensures WellFormed(r) && Ordinal(r) == Ordinal(d) + n
    decreases n
  {
    if n == 0 then d else NextDay(AddDays(d, n - 1))
  }

  /** `d - timedelta(days=n)` for n >= 0, one day at a time. */
  function SubDays(d: Date, n: nat): (r: Date)
    requires WellFormed(d)
    ensures WellFormed(r) && Ordinal(r) == Ordinal(d) - n
    decreases n
  {
    if n == 0 then d else PrevDay(SubDays(d, n - 1))
  }

  /** `d + timedelta(days=n)` for any whole n, ignoring Python's year bounds. */
  function Shift(d: Date, n: int): (r: Date)
    requires WellFormed(d)
    ensures WellFormed(r) && Ordinal(r) == Ordinal(d) + n
  {
    if n >= 0 then AddDays(d, n) else SubDays(d, -n)
  }

  /** Lexicographic order on (year, month, day). */
  predicate Before(a: Date, b: Date)
  {
    a.year < b.year || (a.year == b.year && (a.month < b.month || (a.month == b.month && a.day < b.day)))
  }

  lemma {:induction false} DaysBeforeYearIncreasing(y: int, z: int)
    requires y < z
    ensures DaysBeforeYear(y) + (if IsLeap(y) then 366 else 365) <= DaysBeforeYear(z)
    decreases z - y
  {
    YearStep(y);
    if y + 1 < z {
      DaysBeforeYearIncreasing(y + 1, z);
    }
  }

  lemma MonthFitsInYear(d: Date)
    requires WellFormed(d)
    ensures DaysBeforeMonth(d.year, d.month) + d.day <= (if IsLeap(d.year) then 366 else 365)
  {
  }

  lemma MonthsIncreasing(y: int, m: int, n: int, day: int)
    requires 1 <= m < n <= 12 && 1 <= day <= DaysInMonth(y, m)
    ensures DaysBeforeMonth(y, m) + day <= DaysBeforeMonth(y, n)
  {
  }

  /** Ordinal follows the calendar order. */
  lemma OrdinalMonotone(a: Date, b: Date)
    requires WellFormed(a) && WellFormed(b) && Before(a, b)
    ensures Ordinal(a) < Ordinal(b)
  {
    if a.year < b.year {
      MonthFitsInYear(a);
      DaysBeforeYearIncreasing(a.year, b.year);
    } else if a.month < b.month {
      MonthsIncreasing(a.year, a.month, b.month, a.day);
    }
  }

  /** Distinct calendar dates have distinct ordinals. */
  lemma OrdinalInjective(a: Date, b: Date)
    requires WellFormed(a) && WellFormed(b) && Ordinal(a) == Ordinal(b)
    ensures a == b
  {
    if Before(a, b) {
      OrdinalMonotone(a, b);
    } else if Before(b, a) {
      OrdinalMonotone(b, a);
    }
  }

  lemma AfterFirst(d: Date)
    requires WellFormed(d) && MinYear <= d.year
    ensures 1 <= Ordinal(d)
  {
    var lo := Date(MinYear, 1, 1);
    if d != lo {
      assert Before(lo, d);
      OrdinalBounds();
      OrdinalMonotone(lo, d);
    } else {
      OrdinalBounds();
    }
  }

  lemma BeforeLast(d: Date)
    requires WellFormed(d) && d.year <= MaxYear
    ensures Ordinal(d) <= MaxOrdinal
  {
    var hi := Date(MaxYear, 12, 31);
    if d != hi {
      assert Before(d, hi);
      OrdinalBounds();
      OrdinalMonotone(d, hi);
    } else {
      OrdinalBounds();
    }
  }

  /** Python's year bounds are exactly the ordinal bounds [1, MaxOrdinal]. */
  lemma ValidIffOrdinalInRange(d: Date)
    requires WellFormed(d)
    ensures Valid(d) <==> 1 <= Ordinal(d) <= MaxOrdinal
  {
    if d.year < MinYear {
      assert !Valid(d);
      OrdinalBounds();
      OrdinalMonotone(d, Date(MinYear, 1, 1));
      assert Ordinal(d) < 1;
    } else if d.year > MaxYear {
      assert !Valid(d);
      OrdinalBounds();
      OrdinalMonotone(Date(MaxYear, 12, 31), d);
      assert Ordinal(d) > MaxOrdinal;
    } else {
      assert Valid(d);
      AfterFirst(d);
      BeforeLast(d);
    }
  }

  /** A well-formed date between two valid ones is valid. */
  lemma BetweenValid(lo: Date, d: Date, hi: Date)
    requires Valid(lo) && Valid(hi) && WellFormed(d)
    requires Ordinal(lo) <= Ordinal(d) <= Ordinal(hi)
    ensures Valid(d)
  {
    ValidIffOrdinalInRange(lo);
    ValidIffOrdinalInRange(hi);
    ValidIffOrdinalInRange(d);
  }

  /** `d + timedelta(days=n)`: OverflowError when the result leaves Python's date range. */
  function Plus(d: Date, n: int): (r: Result<Date>)
    requires Valid(d)
    ensures r.Ok? <==> 1 <= Ordinal(d) + n <= MaxOrdinal
    ensures r.Ok? ==> Valid(r.value) && Ordinal(r.value) == Ordinal(d) + n
    ensures r.Err? ==> r.error == "OverflowError"
  {
    if 1 <= Ordinal(d) + n <= MaxOrdinal then
      var s := Shift(d, n);
      ValidIffOrdinalInRange(s);
      Ok(s)
    else Err("OverflowError")
  }

  /** The first and last day of a calendar month, computed as the source does: the first
      of the month, and the first of the following month (January of year + 1 after
      December) minus one day. Constructing either first day raises ValueError outside
      Python's date range. */
  function MonthBounds(year: int, month: int): (r: Result<(Date, Date)>)
    ensures r.Ok? <==> 1 <= month <= 12 && MinYear <= year <= MaxYear && !(year == MaxYear && month == 12)
    ensures r.Err? ==> r.error == "ValueError"
    ensures r.Ok? ==> r.value.0 == Date(year, month, 1)
    ensures r.Ok? ==> r.value.1 == Date(year, month, DaysInMonth(year, month))
    ensures r.Ok? ==> Valid(r.value.0) && Valid(r.value.1)
  {
    if !(1 <= month <= 12) || year < MinYear || year > MaxYear then Err("ValueError")
    else
      var (endYear, endMonth) := if month == 12 then (year + 1, 1) else (year, month + 1);
      if endYear > MaxYear then Err("ValueError")
      else Ok((Date(year, month, 1), PrevDay(Date(endYear, endMonth, 1))))
  }

  /** The bounds of a month enclose exactly the dates of that month. */
  lemma MonthBoundsExact(year: int, month: int, d: Date)
    requires MonthBounds(year, month).Ok? && WellFormed(d)
    ensures var (first, last) := MonthBounds(year, month).value;
            Ordinal(first) <= Ordinal(d) <= Ordinal(last) <==> d.year == year && d.month == month
  {
    var (first, last) := MonthBounds(year, month).value;
    if d.year == year && d.month == month {
    } else if Before(d, first) {
      OrdinalMonotone(d, first);
    } else {
      assert Before(last, d);
      OrdinalMonotone(last, d);
    }
  }

  /** The day `n` days after `d` lies between them in calendar order, and `AddDays` reaches
      every later date. */
  lemma AddDaysReaches(d: Date, e: Date)
    requires WellFormed(d) && WellFormed(e) && Ordinal(d) <= Ordinal(e)
    ensures AddDays(d, Ordinal(e) - Ordinal(d)) == e
  {
    OrdinalInjective(AddDays(d, Ordinal(e) - Ordinal(d)), e);
  }
}
