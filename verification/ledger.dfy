/** The aggregate queries the views run over the Accounting table, as filters and sums over a
    sequence of records. `Sum('amount')` of an empty query is None, which every caller turns
    into 0 with `or 0`; `Sum` of the empty sequence is that 0. */
module Ledger {
  import opened Calendar
  import opened Models
  import opened Sequences

  function Amount(a: Accounting): int { a.amount }

  /** The total of the amounts of `rows`. */
  function Sum(rows: seq<Accounting>): int
  {
    SumBy(rows, Amount)
  }

  /** A query with no rows aggregates to 0. */
  lemma SumOfNothing(rows: seq<Accounting>, p: Accounting -> bool)
    requires forall a :: a in rows ==> !p(a)
    ensures Sum(Filter(rows, p)) == 0
  {
  }

  /** `date__range=[lo, hi]`: both ends included. */
  predicate InRange(a: Accounting, lo: ValidDate, hi: ValidDate)
  {
    Ordinal(lo) <= Ordinal(a.date) <= Ordinal(hi)
  }

  /** `filter(user=user)`. */
  function OwnedBy(user: UserId): Accounting -> bool
  {
    (a: Accounting) => a.owner == user
  }

  /** `filter(user=user, date__range=[lo, hi])`. */
  function Within(user: UserId, lo: ValidDate, hi: ValidDate): Accounting -> bool
  {
    (a: Accounting) => a.owner == user && InRange(a, lo, hi)
  }

  /** `filter(user=user, date__range=[lo, hi], type=kind)`. */
  function Matching(user: UserId, lo: ValidDate, hi: ValidDate, kind: Kind): Accounting -> bool
  {
    (a: Accounting) => a.owner == user && InRange(a, lo, hi) && a.kind == kind
  }

  /** One day's rows of one kind, once the rows are already restricted to a user and range. */
  function OnDayOf(day: ValidDate, kind: Kind): Accounting -> bool
  {
    (a: Accounting) => a.date == day && a.kind == kind
  }

  /** The user's total of one kind over an inclusive date range. */
  function PeriodTotal(rows: seq<Accounting>, user: UserId, lo: ValidDate, hi: ValidDate, kind: Kind): int
  {
    Sum(Filter(rows, Matching(user, lo, hi, kind)))
  }

  /** The user's records of one kind dated on one day. */
  function OnDay(user: UserId, day: ValidDate, kind: Kind): Accounting -> bool
  {
    (a: Accounting) => a.owner == user && a.date == day && a.kind == kind
  }

  /** The user's records of one kind dated in one calendar month. */
  function InMonth(user: UserId, year: int, month: int, kind: Kind): Accounting -> bool
  {
    (a: Accounting) => a.owner == user && a.date.year == year && a.date.month == month && a.kind == kind
  }

  /** Reference definition: the user's total of one kind dated on one day. */
  function DailyTotal(rows: seq<Accounting>, user: UserId, day: ValidDate, kind: Kind): int
  {
    Sum(Filter(rows, OnDay(user, day, kind)))
  }

  /** Reference definition: the user's total of one kind dated in one calendar month. */
  function MonthTotal(rows: seq<Accounting>, user: UserId, year: int, month: int, kind: Kind): int
  {
    Sum(Filter(rows, InMonth(user, year, month, kind)))
  }

  /** Only the user's own records matter: two tables that hold the same records of the user
      give the same period totals, whatever records of other users they hold. */
  lemma PeriodTotalOwnRowsOnly(rows: seq<Accounting>, others: seq<Accounting>, user: UserId,
                               lo: ValidDate, hi: ValidDate, kind: Kind)
    requires Filter(rows, OwnedBy(user)) == Filter(others, OwnedBy(user))
    ensures PeriodTotal(rows, user, lo, hi, kind) == PeriodTotal(others, user, lo, hi, kind)
  {
    var q: Accounting -> bool := (a: Accounting) => InRange(a, lo, hi) && a.kind == kind;
    FilterTwice(rows, OwnedBy(user), q, Matching(user, lo, hi, kind));
    FilterTwice(others, OwnedBy(user), q, Matching(user, lo, hi, kind));
  }

  /** The same for one day. */
  lemma DailyTotalOwnRowsOnly(rows: seq<Accounting>, others: seq<Accounting>, user: UserId,
                              day: ValidDate, kind: Kind)
    requires Filter(rows, OwnedBy(user)) == Filter(others, OwnedBy(user))
    ensures DailyTotal(rows, user, day, kind) == DailyTotal(others, user, day, kind)
  {
    var q: Accounting -> bool := (a: Accounting) => a.date == day && a.kind == kind;
    FilterTwice(rows, OwnedBy(user), q, OnDay(user, day, kind));
    FilterTwice(others, OwnedBy(user), q, OnDay(user, day, kind));
  }

  /** A day on which the user has no record of a kind totals 0. */
  lemma DailyTotalOfEmptyDay(rows: seq<Accounting>, user: UserId, day: ValidDate, kind: Kind)
    requires forall a :: a in rows && a.owner == user && a.kind == kind ==> a.date != day
    ensures DailyTotal(rows, user, day, kind) == 0
  {
    SumOfNothing(rows, OnDay(user, day, kind));
  }

  /** Picking one day's rows out of the user's rows in a range that contains the day gives
      exactly that day's total. */
  lemma DayWithinRange(rows: seq<Accounting>, user: UserId, lo: ValidDate, hi: ValidDate,
                       day: ValidDate, kind: Kind)
    requires Ordinal(lo) <= Ordinal(day) <= Ordinal(hi)
    ensures Sum(Filter(Filter(rows, Within(user, lo, hi)), OnDayOf(day, kind))) == DailyTotal(rows, user, day, kind)
  {
    FilterTwice(rows, Within(user, lo, hi), OnDayOf(day, kind), OnDay(user, day, kind));
  }

  /** A range of one day totals that day. */
  lemma OneDayPeriod(rows: seq<Accounting>, user: UserId, day: ValidDate, kind: Kind)
    ensures PeriodTotal(rows, user, day, day, kind) == DailyTotal(rows, user, day, kind)
  {
    forall a | a in rows
      ensures Matching(user, day, day, kind)(a) <==> OnDay(user, day, kind)(a)
    {
      if InRange(a, day, day) {
        OrdinalInjective(a.date, day);
      }
    }
    FilterAgree(rows, Matching(user, day, day, kind), OnDay(user, day, kind));
  }

  /** The bounds of a calendar month select exactly the records dated in that month. */
  lemma MonthPeriod(rows: seq<Accounting>, user: UserId, year: int, month: int, kind: Kind)
    requires MonthBounds(year, month).Ok?
    ensures var (first, last) := MonthBounds(year, month).value;
            PeriodTotal(rows, user, first, last, kind) == MonthTotal(rows, user, year, month, kind)
  {
    var (first, last) := MonthBounds(year, month).value;
    forall a | a in rows
      ensures Matching(user, first, last, kind)(a) <==> InMonth(user, year, month, kind)(a)
    {
      MonthBoundsExact(year, month, a.date);
    }
    FilterAgree(rows, Matching(user, first, last, kind), InMonth(user, year, month, kind));
  }

  /** The user's records of one kind dated on one of the `n` days from `lo` on. */
  function FirstDays(user: UserId, lo: ValidDate, n: nat, kind: Kind): Accounting -> bool
  {
    (a: Accounting) => a.owner == user && Ordinal(lo) <= Ordinal(a.date) < Ordinal(lo) + n && a.kind == kind
  }

  /** The user's total of one kind over the `n` days from `lo` on. */
  function FirstDaysTotal(rows: seq<Accounting>, user: UserId, lo: ValidDate, n: nat, kind: Kind): int
  {
    Sum(Filter(rows, FirstDays(user, lo, n, kind)))
  }

  /** No days total 0. */
  lemma NoDays(rows: seq<Accounting>, user: UserId, lo: ValidDate, kind: Kind)
    ensures FirstDaysTotal(rows, user, lo, 0, kind) == 0
  {
    SumOfNothing(rows, FirstDays(user, lo, 0, kind));
  }

  /** One more day, the `n`-th from `lo`, adds that day's total. */
  lemma FirstDaysStep(rows: seq<Accounting>, user: UserId, lo: ValidDate, day: ValidDate, n: nat, kind: Kind)
    requires 1 <= n && Ordinal(day) == Ordinal(lo) + n - 1
    ensures FirstDaysTotal(rows, user, lo, n, kind) ==
            FirstDaysTotal(rows, user, lo, n - 1, kind) + DailyTotal(rows, user, day, kind)
  {
    var p, q, r := FirstDays(user, lo, n, kind), FirstDays(user, lo, n - 1, kind), OnDay(user, day, kind);
    forall a | a in rows
      ensures (p(a) <==> q(a) || r(a)) && !(q(a) && r(a))
    {
      if Ordinal(a.date) == Ordinal(day) {
        OrdinalInjective(a.date, day);
      }
    }
    SumByFilterSplit(rows, p, q, r, Amount);
  }

  /** A period of `n` days is its first `n` days. */
  lemma PeriodAsFirstDays(rows: seq<Accounting>, user: UserId, lo: ValidDate, hi: ValidDate, kind: Kind)
    requires Ordinal(lo) <= Ordinal(hi)
    ensures PeriodTotal(rows, user, lo, hi, kind) == FirstDaysTotal(rows, user, lo, Ordinal(hi) - Ordinal(lo) + 1, kind)
  {
    FilterAgree(rows, Matching(user, lo, hi, kind), FirstDays(user, lo, Ordinal(hi) - Ordinal(lo) + 1, kind));
  }

  /** A period that ends before it starts totals 0. */
  lemma EmptyPeriod(rows: seq<Accounting>, user: UserId, lo: ValidDate, hi: ValidDate, kind: Kind)
    requires Ordinal(hi) < Ordinal(lo)
    ensures PeriodTotal(rows, user, lo, hi, kind) == 0
  {
    SumOfNothing(rows, Matching(user, lo, hi, kind));
  }

  /** Adding one record changes a period total by its amount exactly when it matches. */
  lemma PeriodTotalAppend(rows: seq<Accounting>, a: Accounting, user: UserId,
                          lo: ValidDate, hi: ValidDate, kind: Kind)
    ensures PeriodTotal(rows + [a], user, lo, hi, kind) ==
            PeriodTotal(rows, user, lo, hi, kind) +
            (if a.owner == user && InRange(a, lo, hi) && a.kind == kind then a.amount else 0)
  {
    var p := Matching(user, lo, hi, kind);
    FilterConcat(rows, [a], p);
    assert Filter([a], p) == (if p(a) then [a] else []) + Filter([], p);
    SumByConcat(Filter(rows, p), Filter([a], p), Amount);
    if p(a) {
      assert Sum([a]) == a.amount + Sum([]);
    }
  }
}
