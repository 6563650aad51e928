/** The chart endpoints of charts/views.py: the daily range series, the month target, and the
    comparison with the preceding period. The category share chart is in module TypeCost. */
module Charts {
  import opened Wrappers
  import opened Numbers
  import opened Calendar
  import opened DateText
  import opened Models
  import opened Ledger
  import opened Sequences

  /** The body of a successful range chart response. */
  datatype RangeSeries = RangeSeries(
    from: string,
    end: string,
    labels: seq<string>,
    income: seq<int>,
    outcome: seq<int>)

  /** One entry of the series: the day's label and the user's income and outcome totals on
      that day. */
  predicate IsDayEntry(text: string, income: int, outcome: int, rows: seq<Accounting>, user: UserId, day: Date)
  {
    Valid(day) &&
    text == Format(day) &&
    income == DailyTotal(rows, user, day, Income) &&
    outcome == DailyTotal(rows, user, day, Outcome)
  }

  /** `c` holds one entry per day from `f` to `e` inclusive, in order. */
  predicate IsDailySeries(c: RangeSeries, rows: seq<Accounting>, user: UserId, f: ValidDate, e: ValidDate)
  {
    var n := Ordinal(e) - Ordinal(f) + 1;
    c.from == Format(f) && c.end == Format(e) &&
    |c.labels| == n && |c.income| == n && |c.outcome| == n &&
    forall k :: 0 <= k < n ==> IsDayEntry(c.labels[k], c.income[k], c.outcome[k], rows, user, AddDays(f, k))
  }

  /** Appending the entry of the next day keeps a prefix of the series a prefix of the series. */
  lemma ExtendSeries(labels: seq<string>, income: seq<int>, outcome: seq<int>, rows: seq<Accounting>, user: UserId,
                     f: ValidDate, text: string, dayIncome: int, dayOutcome: int)
    requires |labels| == |income| == |outcome|
    requires forall j :: 0 <= j < |labels| ==> IsDayEntry(labels[j], income[j], outcome[j], rows, user, AddDays(f, j))
    requires IsDayEntry(text, dayIncome, dayOutcome, rows, user, AddDays(f, |labels|))
    ensures forall j :: 0 <= j < |labels| + 1 ==>
              IsDayEntry((labels + [text])[j], (income + [dayIncome])[j], (outcome + [dayOutcome])[j], rows, user, AddDays(f, j))
  {
    var l, i, o := labels + [text], income + [dayIncome], outcome + [dayOutcome];
    forall j | 0 <= j < |labels| + 1
      ensures IsDayEntry(l[j], i[j], o[j], rows, user, AddDays(f, j))
    {
      if j < |labels| {
        assert l[j] == labels[j] && i[j] == income[j] && o[j] == outcome[j];
      }
    }
  }

  /** The loop of `ChartsAPIView.get` over the days from `f` to `e`: each day's label and the
      totals of the user's records in the range that fall on that day. */
  method DailySeries(rows: seq<Accounting>, user: UserId, f: ValidDate, e: ValidDate) returns (c: RangeSeries)
    requires Ordinal(f) <= Ordinal(e)
    ensures IsDailySeries(c, rows, user, f, e)
  {
    var span := Ordinal(e) - Ordinal(f);
    var inRange := Filter(rows, Within(user, f, e));
    var labels: seq<string> := [];
    var income: seq<int> := [];
    var outcome: seq<int> := [];
    var k := 0;
    while k <= span
      invariant 0 <= k <= span + 1
      invariant |labels| == k && |income| == k && |outcome| == k
      invariant forall j :: 0 <= j < k ==> IsDayEntry(labels[j], income[j], outcome[j], rows, user, AddDays(f, j))
    {
      var day := AddDays(f, k);
      BetweenValid(f, day, e);
      var dayIncome := Sum(Filter(inRange, OnDayOf(day, Income)));
      var dayOutcome := Sum(Filter(inRange, OnDayOf(day, Outcome)));
      DayWithinRange(rows, user, f, e, day, Income);
      DayWithinRange(rows, user, f, e, day, Outcome);
      assert IsDayEntry(Format(day), dayIncome, dayOutcome, rows, user, day);
      ExtendSeries(labels, income, outcome, rows, user, f, Format(day), dayIncome, dayOutcome);
      labels := labels + [Format(day)];
      income := income + [dayIncome];
      outcome := outcome + [dayOutcome];
      k := k + 1;
    }
    c := RangeSeries(Format(f), Format(e), labels, income, outcome);
  }

  /** `ChartsAPIView.get`: a missing or unparsable date answers "Invalid date format", a range
      of less than one day "Date range too short"; otherwise a dense daily series. */
  method RangeChart(rows: seq<Accounting>, user: UserId, fromParam: Option<string>, endParam: Option<string>)
    returns (r: Result<RangeSeries>)
    ensures ParseParam(fromParam).Err? || ParseParam(endParam).Err? ==> r == Err("Invalid date format")
    ensures ParseParam(fromParam).Ok? && ParseParam(endParam).Ok? ==>
              var (f, e) := (ParseParam(fromParam).value, ParseParam(endParam).value);
              (Ordinal(e) - Ordinal(f) < 1 ==> r == Err("Date range too short")) &&
              (Ordinal(e) - Ordinal(f) >= 1 ==> r.Ok? && IsDailySeries(r.value, rows, user, f, e))
  {
    var pf := ParseParam(fromParam);
    var pe := ParseParam(endParam);
    if pf.Err? || pe.Err? {
      return Err("Invalid date format");
    }
    var f: ValidDate := pf.value;
    var e: ValidDate := pe.value;
    if Ordinal(e) - Ordinal(f) < 1 {
      return Err("Date range too short");
    }
    var c := DailySeries(rows, user, f, e);
    r := Ok(c);
  }

  /** A day of the series on which the user recorded nothing of a kind shows 0 for it. */
  lemma EmptyDayIsZero(c: RangeSeries, rows: seq<Accounting>, user: UserId, f: ValidDate, e: ValidDate, k: int, kind: Kind)
    requires IsDailySeries(c, rows, user, f, e) && 0 <= k <= Ordinal(e) - Ordinal(f)
    requires forall a :: a in rows && a.owner == user && a.kind == kind ==> a.date != AddDays(f, k)
    ensures (if kind == Income then c.income[k] else c.outcome[k]) == 0
  {
    assert IsDayEntry(c.labels[k], c.income[k], c.outcome[k], rows, user, AddDays(f, k));
    DailyTotalOfEmptyDay(rows, user, AddDays(f, k), kind);
  }

  /** A series starts with the day `f`... */
  lemma SeriesFirst(c: RangeSeries, rows: seq<Accounting>, user: UserId, f: ValidDate, e: ValidDate)
    requires IsDailySeries(c, rows, user, f, e) && Ordinal(f) <= Ordinal(e)
    ensures |c.labels| >= 1 && c.labels[0] == Format(f)
  {
    assert IsDayEntry(c.labels[0], c.income[0], c.outcome[0], rows, user, AddDays(f, 0));
  }

  /** ... and ends with the day `e`. */
  lemma SeriesLast(c: RangeSeries, rows: seq<Accounting>, user: UserId, f: ValidDate, e: ValidDate)
    requires IsDailySeries(c, rows, user, f, e) && Ordinal(f) <= Ordinal(e)
    ensures |c.labels| >= 1 && c.labels[|c.labels| - 1] == Format(e)
  {
    var last := Ordinal(e) - Ordinal(f);
    assert IsDayEntry(c.labels[last], c.income[last], c.outcome[last], rows, user, AddDays(f, last));
    AddDaysReaches(f, e);
  }

  /** No day appears twice in a series. */
  lemma SeriesLabelsDistinct(c: RangeSeries, rows: seq<Accounting>, user: UserId, f: ValidDate, e: ValidDate)
    requires IsDailySeries(c, rows, user, f, e)
    ensures forall i, j :: 0 <= i < j < |c.labels| ==> c.labels[i] != c.labels[j]
  {
    forall i, j | 0 <= i < j < |c.labels| ensures c.labels[i] != c.labels[j] {
      var di, dj := AddDays(f, i), AddDays(f, j);
      assert IsDayEntry(c.labels[i], c.income[i], c.outcome[i], rows, user, di);
      assert IsDayEntry(c.labels[j], c.income[j], c.outcome[j], rows, user, dj);
      assert Ordinal(di) < Ordinal(dj);
      if Format(di) == Format(dj) {
        FormatInjective(di, dj);
      }
    }
  }

  // ----- TargetAPIView -----

  /** `target - achieved if target - achieved > 0 else 0`: what is left to reach the target. */
  function Remaining(target: int, achieved: int): (r: int)
    ensures r >= 0 && r >= target - achieved
    ensures r == 0 || r == target - achieved
  {
    if target - achieved > 0 then target - achieved else 0
  }

  /** Achieved and remaining together are the larger of the target and the achievement. */
  lemma ProgressPair(target: int, achieved: int)
    ensures achieved + Remaining(target, achieved) == if target > achieved then target else achieved
  {
  }

  /** `calculate_achieved_amount`: the user's total of one kind over the first to the last day
      of the month; `datetime(year, month, 1)` or the first of the following month outside the
      date range raises ValueError. */
  function Achieved(rows: seq<Accounting>, user: UserId, year: int, month: int, kind: Kind): (r: Result<int>)
    ensures r.Ok? <==> 1 <= month <= 12 && MinYear <= year <= MaxYear && !(year == MaxYear && month == 12)
    ensures r.Err? ==> r.error == "ValueError"
    ensures r.Ok? ==> r.value == MonthTotal(rows, user, year, month, kind)
  {
    match MonthBounds(year, month)
    case Err(msg) => Err(msg)
    case Ok((first, last)) =>
      MonthPeriod(rows, user, year, month, kind);
      Ok(PeriodTotal(rows, user, first, last, kind))
  }

  /** The body of a target response. */
  datatype TargetReport = TargetReport(
    year: int,
    month: int,
    targetIncome: int,
    targetOutcome: int,
    income: (int, int),
    outcome: (int, int))

  /** `TargetAPIView.get`: a missing MonthTarget row counts as targets of 0; each pair is the
      achieved amount and what remains of the target. */
  function Target(rows: seq<Accounting>, targets: MonthTargets, user: UserId, year: int, month: int): (r: Result<TargetReport>)
    ensures r.Ok? <==> MonthBounds(year, month).Ok?
    ensures r.Ok? ==> r.value.year == year && r.value.month == month
    ensures r.Ok? && (user, year, month) !in targets ==> r.value.targetIncome == 0 && r.value.targetOutcome == 0
    ensures r.Ok? && (user, year, month) in targets ==>
              r.value.targetIncome == targets[(user, year, month)].income &&
              r.value.targetOutcome == targets[(user, year, month)].outcome
    ensures r.Ok? ==> r.value.income.0 == MonthTotal(rows, user, year, month, Income)
    ensures r.Ok? ==> r.value.outcome.0 == MonthTotal(rows, user, year, month, Outcome)
    ensures r.Ok? ==> r.value.income.1 == Remaining(r.value.targetIncome, r.value.income.0)
    ensures r.Ok? ==> r.value.outcome.1 == Remaining(r.value.targetOutcome, r.value.outcome.0)
  {
    var (ti, to) := if (user, year, month) in targets
                    then (targets[(user, year, month)].income, targets[(user, year, month)].outcome)
                    else (0, 0);
    var ia := Achieved(rows, user, year, month, Income);
    var oa := Achieved(rows, user, year, month, Outcome);
    if ia.Err? || oa.Err? then Err("ValueError")
    else Ok(TargetReport(year, month, ti, to, (ia.value, Remaining(ti, ia.value)), (oa.value, Remaining(to, oa.value))))
  }

  /** Half of a 100000 income target reached leaves 50000; 30000 leaves 70000. */
  lemma TargetExamples()
    ensures (50000, Remaining(100000, 50000)) == (50000, 50000)
    ensures (30000, Remaining(100000, 30000)) == (30000, 70000)
    ensures Remaining(100000, 120000) == 0
  {
  }

  // ----- CompareAPIView -----

  /** The period before `[f, e]`: it ends the day before `f` and spans `e - f` days, as
      `from - timedelta(days=1)` and `prev_end - (end - from)`; leaving the date range raises
      OverflowError. */
  function PreviousPeriod(f: ValidDate, e: ValidDate): (r: Result<(Date, Date)>)
    ensures r.Ok? <==> 2 <= Ordinal(f) && 1 <= 2 * Ordinal(f) - 1 - Ordinal(e) <= MaxOrdinal
    ensures r.Err? ==> r.error == "OverflowError"
    ensures r.Ok? ==> Valid(r.value.0) && Valid(r.value.1)
    ensures r.Ok? ==> Ordinal(r.value.1) == Ordinal(f) - 1
    ensures r.Ok? ==> Ordinal(r.value.1) - Ordinal(r.value.0) == Ordinal(e) - Ordinal(f)
  {
    match Plus(f, -1)
    case Err(msg) => Err(msg)
    case Ok(prevEnd) =>
      match Plus(prevEnd, -(Ordinal(e) - Ordinal(f)))
      case Err(msg) => Err(msg)
      case Ok(prevStart) => Ok((prevStart, prevEnd))
  }

  /** A forward period's predecessor ends before it starts and does not overlap it. */
  lemma PreviousPeriodAdjacent(f: ValidDate, e: ValidDate)
    requires Ordinal(f) <= Ordinal(e) && PreviousPeriod(f, e).Ok?
    ensures var (ps, pe) := PreviousPeriod(f, e).value;
            Ordinal(ps) <= Ordinal(pe) && Ordinal(pe) + 1 == Ordinal(f) && NextDay(pe) == f
  {
    var (ps, pe) := PreviousPeriod(f, e).value;
    OrdinalInjective(NextDay(pe), f);
  }

  /** The sum of a series of bars. */
  function Total(xs: seq<int>): int
  {
    if xs == [] then 0 else Total(xs[..|xs| - 1]) + xs[|xs| - 1]
  }

  lemma TotalPrefix(xs: seq<int>, k: nat)
    requires 1 <= k <= |xs|
    ensures Total(xs[..k]) == Total(xs[..k - 1]) + xs[k - 1]
  {
    assert xs[..k][..k - 1] == xs[..k - 1];
  }

  /** The bars of one kind of a daily series. */
  function Bars(c: RangeSeries, kind: Kind): seq<int>
  {
    if kind == Income then c.income else c.outcome
  }

  /** The date `j` days after `f`, for a `j` that stays within the calendar. */
  function DayAt(f: ValidDate, j: nat): (d: ValidDate)
    requires Ordinal(f) + j <= MaxOrdinal
    ensures d == AddDays(f, j) && Ordinal(d) == Ordinal(f) + j
  {
    ValidIffOrdinalInRange(f);
    ValidIffOrdinalInRange(AddDays(f, j));
    AddDays(f, j)
  }

  /** `xs` holds the user's daily totals of one kind on `days`, which run day by day from `f`. */
  predicate DayBars(xs: seq<int>, days: seq<ValidDate>, rows: seq<Accounting>, user: UserId, f: ValidDate, kind: Kind)
  {
    |xs| == |days| &&
    forall j :: 0 <= j < |days| ==> Ordinal(days[j]) == Ordinal(f) + j && xs[j] == DailyTotal(rows, user, days[j], kind)
  }

  /** The first `k` daily bars add up to the total of the first `k` days. */
  lemma {:induction false} DayBarsPrefix(xs: seq<int>, days: seq<ValidDate>, rows: seq<Accounting>, user: UserId,
                                         f: ValidDate, kind: Kind, k: nat)
    requires DayBars(xs, days, rows, user, f, kind) && k <= |xs|
    ensures Total(xs[..k]) == FirstDaysTotal(rows, user, f, k, kind)
  {
    if k == 0 {
      NoDays(rows, user, f, kind);
    } else {
      DayBarsPrefix(xs, days, rows, user, f, kind, k - 1);
      TotalPrefix(xs, k);
      FirstDaysStep(rows, user, f, days[k - 1], k, kind);
    }
  }

  /** The bars of a daily series are its days' totals. */
  lemma SeriesDayBars(c: RangeSeries, rows: seq<Accounting>, user: UserId, f: ValidDate, e: ValidDate, kind: Kind)
    returns (days: seq<ValidDate>)
    requires IsDailySeries(c, rows, user, f, e) && Ordinal(f) <= Ordinal(e)
    ensures DayBars(Bars(c, kind), days, rows, user, f, kind)
  {
    var n := Ordinal(e) - Ordinal(f) + 1;
    ValidIffOrdinalInRange(e);
    days := seq(n, j requires 0 <= j < n && Ordinal(f) + j <= MaxOrdinal => DayAt(f, j));
    forall j | 0 <= j < n
      ensures Bars(c, kind)[j] == DailyTotal(rows, user, days[j], kind)
    {
      assert IsDayEntry(c.labels[j], c.income[j], c.outcome[j], rows, user, AddDays(f, j));
    }
  }

  /** Bars on the days from `f` to `e` add up to the period total. */
  lemma DayBarsTotal(xs: seq<int>, days: seq<ValidDate>, rows: seq<Accounting>, user: UserId,
                     f: ValidDate, e: ValidDate, kind: Kind)
    requires DayBars(xs, days, rows, user, f, kind) && Ordinal(f) <= Ordinal(e) && |xs| == Ordinal(e) - Ordinal(f) + 1
    ensures Total(xs) == PeriodTotal(rows, user, f, e, kind)
  {
    DayBarsPrefix(xs, days, rows, user, f, kind, |xs|);
    assert xs[..|xs|] == xs;
    PeriodAsFirstDays(rows, user, f, e, kind);
  }

  /** Summing the daily bars of the range chart over `[f, e]` gives the period totals. */
  lemma SeriesTotals(c: RangeSeries, rows: seq<Accounting>, user: UserId, f: ValidDate, e: ValidDate)
    requires IsDailySeries(c, rows, user, f, e) && Ordinal(f) <= Ordinal(e)
    ensures Total(c.income) == PeriodTotal(rows, user, f, e, Income)
    ensures Total(c.outcome) == PeriodTotal(rows, user, f, e, Outcome)
  {
    var inDays := SeriesDayBars(c, rows, user, f, e, Income);
    DayBarsTotal(c.income, inDays, rows, user, f, e, Income);
    var outDays := SeriesDayBars(c, rows, user, f, e, Outcome);
    DayBarsTotal(c.outcome, outDays, rows, user, f, e, Outcome);
  }

  /** `aggregate_data`: the user's income and outcome totals over `[lo, hi]`, which are what
      the daily bars of the range chart over the same days add up to, and 0 for a range that
      ends before it starts. */
  function AggregateData(rows: seq<Accounting>, user: UserId, lo: ValidDate, hi: ValidDate): (r: (int, int))
    ensures forall c :: IsDailySeries(c, rows, user, lo, hi) && Ordinal(lo) <= Ordinal(hi) ==>
              r == (Total(c.income), Total(c.outcome))
    ensures Ordinal(hi) < Ordinal(lo) ==> r == (0, 0)
  {
    if Ordinal(hi) < Ordinal(lo) then
      EmptyPeriod(rows, user, lo, hi, Income);
      EmptyPeriod(rows, user, lo, hi, Outcome);
      (PeriodTotal(rows, user, lo, hi, Income), PeriodTotal(rows, user, lo, hi, Outcome))
    else
      AllSeriesTotals(rows, user, lo, hi);
      (PeriodTotal(rows, user, lo, hi, Income), PeriodTotal(rows, user, lo, hi, Outcome))
  }

  lemma AllSeriesTotals(rows: seq<Accounting>, user: UserId, lo: ValidDate, hi: ValidDate)
    requires Ordinal(lo) <= Ordinal(hi)
    ensures forall c :: IsDailySeries(c, rows, user, lo, hi) ==>
              Total(c.income) == PeriodTotal(rows, user, lo, hi, Income) &&
              Total(c.outcome) == PeriodTotal(rows, user, lo, hi, Outcome)
  {
    forall c | IsDailySeries(c, rows, user, lo, hi)
      ensures Total(c.income) == PeriodTotal(rows, user, lo, hi, Income) &&
              Total(c.outcome) == PeriodTotal(rows, user, lo, hi, Outcome)
    {
      SeriesTotals(c, rows, user, lo, hi);
    }
  }

  /** The sentinel answered for a zero baseline: -101.0, in hundredths of a percent. */
  const NoBaseline := -10100

  /** `calculate_percentage_change` in hundredths of a percent: the change from `base` to `next`
      relative to `base`, rounded to two decimal places (half to even), or the sentinel when
      `base` is 0. */
  function PercentageChange(base: int, next: int): (r: int)
    ensures base == 0 ==> r == NoBaseline
    ensures base != 0 ==> 2 * Abs(r * base - 10000 * (next - base)) <= Abs(base)
  {
    if base == 0 then NoBaseline
    else
      var num := 10000 * (next - base);
      var r := RoundHalfEven(num, base);
      assert r * (-base) == -(r * base);
      r
  }

  /** From 100 to 150 is +50.00%, from 200 to 0 is -100.00%, from 3 to 4 is +33.33%. */
  lemma PercentageChangeExamples()
    ensures PercentageChange(100, 150) == 5000
    ensures PercentageChange(200, 0) == -10000
    ensures PercentageChange(3, 4) == 3333
    ensures PercentageChange(0, 500) == NoBaseline
  {
  }

  /** Amounts that never go negative never fall by more than 100%, so the sentinel cannot be
      mistaken for a real change from a positive baseline. */
  lemma ChangeAboveSentinel(base: int, next: int)
    requires base > 0 && next >= 0
    ensures PercentageChange(base, next) >= -10000 > NoBaseline
  {
    var r := PercentageChange(base, next);
    assert 2 * (10000 * (next - base) - r * base) <= base;
    if r <= -10001 {
      MulBelow(r, -10001, base);
      assert false;
    }
  }

  lemma MulBelow(a: int, b: int, c: int)
    requires a <= b && c > 0
    ensures a * c <= b * c
  {
  }

  /** The body of a comparison response. */
  datatype Comparison = Comparison(
    from: string,
    end: string,
    prevFrom: string,
    prevEnd: string,
    incomeChange: int,
    outcomeChange: int)

  /** `CompareAPIView.get`: a missing or unparsable date answers "Invalid date format"; the
      period arithmetic may raise OverflowError; otherwise the change of each kind from the
      previous period to the requested one. */
  function Compare(rows: seq<Accounting>, user: UserId, fromParam: Option<string>, endParam: Option<string>): (r: Result<Comparison>)
    ensures ParseParam(fromParam).Err? || ParseParam(endParam).Err? ==> r == Err("Invalid date format")
    ensures ParseParam(fromParam).Ok? && ParseParam(endParam).Ok? ==>
              var (f, e) := (ParseParam(fromParam).value, ParseParam(endParam).value);
              (PreviousPeriod(f, e).Err? ==> r == Err("OverflowError")) &&
              (PreviousPeriod(f, e).Ok? ==>
                 var (ps, pe) := PreviousPeriod(f, e).value;
                 r == Ok(Comparison(Format(f), Format(e), Format(ps), Format(pe),
                   PercentageChange(PeriodTotal(rows, user, ps, pe, Income), PeriodTotal(rows, user, f, e, Income)),
                   PercentageChange(PeriodTotal(rows, user, ps, pe, Outcome), PeriodTotal(rows, user, f, e, Outcome)))))
  {
    var pf := ParseParam(fromParam);
    var pe := ParseParam(endParam);
    if pf.Err? || pe.Err? then Err("Invalid date format")
    else
      var (f, e) := (pf.value, pe.value);
      match PreviousPeriod(f, e)
      case Err(msg) => Err(msg)
      case Ok((prevStart, prevEnd)) =>
        var current := AggregateData(rows, user, f, e);
        var previous := AggregateData(rows, user, prevStart, prevEnd);
        Ok(Comparison(Format(f), Format(e), Format(prevStart), Format(prevEnd),
          PercentageChange(previous.0, current.0), PercentageChange(previous.1, current.1)))
  }
}
