/** The category share chart of charts/views.py (`TypeCostAPIView.get`): the user's outcome
    records in a range, grouped by category name through the record-category link, largest
    total first, each group's share of the outcome total as a whole percent, and the rounding
    remainder put on the last entry. */
module TypeCost {
  import opened Wrappers
  import opened Numbers
  import opened Calendar
  import opened DateText
  import opened Models
  import opened Ledger
  import opened Sequences

  /** One row of `values('category__name')` over the outcome records: the name of one linked
      category (None for a record without category) and the record's amount. */
  datatype JoinRow = JoinRow(name: Option<string>, amount: int)

  function RowAmount(j: JoinRow): int { j.amount }

  /** The join rows of one record: one per linked category, or a single null-name row. */
  function JoinOne(a: Accounting): (r: seq<JoinRow>)
    ensures |r| == if a.categories == [] then 1 else |a.categories|
    ensures forall i :: 0 <= i < |r| ==> r[i].amount == a.amount
    ensures a.categories == [] ==> r[0].name == None
    ensures forall i :: 0 <= i < |a.categories| ==> r[i].name == Some(a.categories[i].name)
  {
    if a.categories == [] then [JoinRow(None, a.amount)]
    else seq(|a.categories|, i requires 0 <= i < |a.categories| => JoinRow(Some(a.categories[i].name), a.amount))
  }

  /** The join of `rows` with their categories, record by record. */
  function Joined(rows: seq<Accounting>): seq<JoinRow>
  {
    if rows == [] then [] else JoinOne(rows[0]) + Joined(rows[1..])
  }

  /** A record weighs its amount once per linked category, and once when it has none. */
  function Weight(a: Accounting): int
  {
    a.amount * (if a.categories == [] then 1 else |a.categories|)
  }

  /** Rows that all carry the amount `c` add up to `c` once per row. */
  lemma {:induction false} ConstantRowsSum(r: seq<JoinRow>, c: int)
    requires forall i :: 0 <= i < |r| ==> r[i].amount == c
    ensures SumBy(r, RowAmount) == c * |r|
  {
    if r != [] {
      ConstantRowsSum(r[1..], c);
      assert c * |r| == c + c * (|r| - 1);
    }
  }

  lemma JoinOneSum(a: Accounting)
    ensures SumBy(JoinOne(a), RowAmount) == Weight(a)
  {
    ConstantRowsSum(JoinOne(a), a.amount);
  }

  /** The joined amounts add up to the weighted amounts, not to the plain total. */
  lemma {:induction false} JoinedSum(rows: seq<Accounting>)
    ensures SumBy(Joined(rows), RowAmount) == SumBy(rows, Weight)
  {
    if rows != [] {
      JoinedSum(rows[1..]);
      JoinOneSum(rows[0]);
      SumByConcat(JoinOne(rows[0]), Joined(rows[1..]), RowAmount);
    }
  }

  /** A record with no category or exactly one weighs its amount. */
  lemma {:induction false} SingleCategoryWeight(rows: seq<Accounting>)
    requires forall a :: a in rows ==> |a.categories| <= 1
    ensures SumBy(rows, Weight) == Sum(rows)
  {
    if rows != [] {
      assert rows[0] in rows;
      assert forall a :: a in rows[1..] ==> a in rows;
      SingleCategoryWeight(rows[1..]);
    }
  }

  /** The aggregate of one category name. */
  datatype Group = Group(name: Option<string>, total: int)

  function GroupTotal(g: Group): int { g.total }

  function GroupName(g: Group): Option<string> { g.name }

  /** Reference definition: the amounts of the join rows that carry `name`. */
  function NameTotal(rows: seq<JoinRow>, name: Option<string>): int
  {
    if rows == [] then 0
    else NameTotal(rows[..|rows| - 1], name) + (if rows[|rows| - 1].name == name then rows[|rows| - 1].amount else 0)
  }

  /** The total of the group named `name`, or 0 if there is none. */
  function TotalFor(groups: seq<Group>, name: Option<string>): int
  {
    if groups == [] then 0 else if groups[0].name == name then groups[0].total else TotalFor(groups[1..], name)
  }

  function Names(groups: seq<Group>): set<Option<string>>
  {
    set g | g in groups :: g.name
  }

  /** Adds one join row to its group, opening a new group at the end for a new name. */
  function AddTo(groups: seq<Group>, row: JoinRow): seq<Group>
  {
    if groups == [] then [Group(row.name, row.amount)]
    else if groups[0].name == row.name then [Group(row.name, groups[0].total + row.amount)] + groups[1..]
    else [groups[0]] + AddTo(groups[1..], row)
  }

  lemma {:induction false} AddToTotals(groups: seq<Group>, row: JoinRow, n: Option<string>)
    ensures TotalFor(AddTo(groups, row), n) == TotalFor(groups, n) + (if n == row.name then row.amount else 0)
  {
    if groups != [] && groups[0].name != row.name {
      AddToTotals(groups[1..], row, n);
    }
  }

  lemma {:induction false} AddToSum(groups: seq<Group>, row: JoinRow)
    ensures SumBy(AddTo(groups, row), GroupTotal) == SumBy(groups, GroupTotal) + row.amount
  {
    if groups != [] {
      if groups[0].name == row.name {
        assert AddTo(groups, row)[1..] == groups[1..];
      } else {
        AddToSum(groups[1..], row);
        assert AddTo(groups, row)[1..] == AddTo(groups[1..], row);
      }
    }
  }

  lemma {:induction false} AddToNames(groups: seq<Group>, row: JoinRow)
    ensures Names(AddTo(groups, row)) == Names(groups) + {row.name}
  {
    if groups != [] {
      var r := AddTo(groups, row);
      assert groups == [groups[0]] + groups[1..];
      assert Names(groups) == {groups[0].name} + Names(groups[1..]);
      if groups[0].name == row.name {
        assert r == [Group(row.name, groups[0].total + row.amount)] + groups[1..];
        assert Names(r) == {row.name} + Names(groups[1..]);
      } else {
        AddToNames(groups[1..], row);
        assert r == [groups[0]] + AddTo(groups[1..], row);
        assert Names(r) == {groups[0].name} + Names(AddTo(groups[1..], row));
      }
    }
  }

  lemma DistinctTail(groups: seq<Group>)
    requires groups != [] && DistinctBy(groups, GroupName)
    ensures DistinctBy(groups[1..], GroupName)
    ensures groups[0].name !in Names(groups[1..])
  {
    forall i, j | 0 <= i < j < |groups[1..]| ensures groups[1..][i].name != groups[1..][j].name {
      assert groups[1..][i] == groups[i + 1] && groups[1..][j] == groups[j + 1];
    }
  }

  lemma {:induction false} AddToDistinct(groups: seq<Group>, row: JoinRow)
    requires DistinctBy(groups, GroupName)
    ensures DistinctBy(AddTo(groups, row), GroupName)
  {
    if groups != [] {
      var r := AddTo(groups, row);
      DistinctTail(groups);
      if groups[0].name == row.name {
        forall i, j | 0 <= i < j < |r| ensures r[i].name != r[j].name {
          assert r[j] == groups[j];
          if i > 0 {
            assert r[i] == groups[i];
          }
        }
      } else {
        var rest := AddTo(groups[1..], row);
        AddToDistinct(groups[1..], row);
        AddToNames(groups[1..], row);
        forall i, j | 0 <= i < j < |r| ensures r[i].name != r[j].name {
          if i == 0 {
            assert r[j] == rest[j - 1] && r[j] in rest;
            assert r[j].name in Names(rest);
          } else {
            assert r[i] == rest[i - 1] && r[j] == rest[j - 1];
          }
        }
      }
    }
  }

  /** The category names of the join rows. */
  function RowNames(rows: seq<JoinRow>): set<Option<string>>
  {
    set j | j in rows :: j.name
  }

  lemma RowNamesSnoc(init: seq<JoinRow>, last: JoinRow)
    ensures RowNames(init + [last]) == RowNames(init) + {last.name}
  {
    var rows := init + [last];
    forall n ensures n in RowNames(rows) <==> n in RowNames(init) + {last.name} {
      if n in RowNames(rows) {
        var j :| j in rows && j.name == n;
        assert j in init || j == last;
      }
      if n in RowNames(init) {
        var j :| j in init && j.name == n;
        assert j in rows;
      }
      if n == last.name {
        assert last in rows;
      }
    }
  }

  lemma NameTotalSnoc(init: seq<JoinRow>, last: JoinRow, n: Option<string>)
    ensures NameTotal(init + [last], n) == NameTotal(init, n) + (if last.name == n then last.amount else 0)
  {
    assert (init + [last])[..|init|] == init;
  }

  /** Adding the next join row keeps the groups exact for the longer prefix. */
  lemma GroupedStep(init: seq<JoinRow>, last: JoinRow, groups: seq<Group>)
    requires DistinctBy(groups, GroupName)
    requires Names(groups) == RowNames(init)
    requires forall n :: TotalFor(groups, n) == NameTotal(init, n)
    requires SumBy(groups, GroupTotal) == SumBy(init, RowAmount)
    ensures var r := AddTo(groups, last);
            DistinctBy(r, GroupName) &&
            Names(r) == RowNames(init + [last]) &&
            (forall n :: TotalFor(r, n) == NameTotal(init + [last], n)) &&
            SumBy(r, GroupTotal) == SumBy(init + [last], RowAmount)
  {
    var r := AddTo(groups, last);
    AddToDistinct(groups, last);
    AddToNames(groups, last);
    AddToSum(groups, last);
    forall n ensures TotalFor(r, n) == NameTotal(init + [last], n) {
      AddToTotals(groups, last, n);
      NameTotalSnoc(init, last, n);
    }
    RowNamesSnoc(init, last);
    SumByConcat(init, [last], RowAmount);
  }

  /** `values('category__name').annotate(total=Sum('amount'))`: one group per distinct name,
      in order of first appearance, holding that name's total. */
  function Grouped(rows: seq<JoinRow>): (r: seq<Group>)
    ensures DistinctBy(r, GroupName)
    ensures Names(r) == RowNames(rows)
    ensures forall n :: TotalFor(r, n) == NameTotal(rows, n)
    ensures SumBy(r, GroupTotal) == SumBy(rows, RowAmount)
  {
    if rows == [] then []
    else
      var init := rows[..|rows| - 1];
      var last := rows[|rows| - 1];
      GroupedStep(init, last, Grouped(init));
      assert rows == init + [last];
      AddTo(Grouped(init), last)
  }

  /** In a list of distinctly named groups, each group's total is the total for its name. */
  lemma {:induction false} TotalForMember(groups: seq<Group>, i: int)
    requires DistinctBy(groups, GroupName) && 0 <= i < |groups|
    ensures TotalFor(groups, groups[i].name) == groups[i].total
  {
    if i > 0 {
      assert groups[0].name != groups[i].name;
      assert DistinctBy(groups[1..], GroupName) by {
        forall a, b | 0 <= a < b < |groups[1..]| ensures groups[1..][a].name != groups[1..][b].name {
          assert groups[1..][a] == groups[a + 1] && groups[1..][b] == groups[b + 1];
        }
      }
      TotalForMember(groups[1..], i - 1);
    }
  }

  /** `Accounting.objects.filter(user=user, date__range=[f, e], type='outcome')`. */
  function Outcomes(rows: seq<Accounting>, user: UserId, f: ValidDate, e: ValidDate): seq<Accounting>
  {
    Filter(rows, Matching(user, f, e, Outcome))
  }

  /** Reordering groups keeps their names. */
  lemma PermutedNames(groups: seq<Group>, r: seq<Group>)
    requires multiset(groups) == multiset(r)
    ensures Names(r) == Names(groups)
  {
    forall n ensures n in Names(r) <==> n in Names(groups) {
      if n in Names(r) {
        var g :| g in r && g.name == n;
        assert g in multiset(groups);
      }
      if n in Names(groups) {
        var g :| g in groups && g.name == n;
        assert g in multiset(r);
      }
    }
  }

  /** Reordering exact groups keeps each group's total the total of its name. */
  lemma PermutedTotals(rows: seq<JoinRow>, groups: seq<Group>, r: seq<Group>)
    requires DistinctBy(groups, GroupName) && multiset(groups) == multiset(r)
    requires forall n :: TotalFor(groups, n) == NameTotal(rows, n)
    ensures forall i :: 0 <= i < |r| ==> r[i].total == NameTotal(rows, r[i].name)
  {
    forall i | 0 <= i < |r| ensures r[i].total == NameTotal(rows, r[i].name) {
      assert r[i] in multiset(groups);
      var k :| 0 <= k < |groups| && groups[k] == r[i];
      TotalForMember(groups, k);
    }
  }

  /** The groups of the chart, `order_by('-total')`. */
  function ChartGroups(rows: seq<Accounting>, user: UserId, f: ValidDate, e: ValidDate): (r: seq<Group>)
    ensures SortedDesc(r, GroupTotal)
    ensures DistinctBy(r, GroupName)
    ensures forall i :: 0 <= i < |r| ==> r[i].total == NameTotal(Joined(Outcomes(rows, user, f, e)), r[i].name)
    ensures Names(r) == RowNames(Joined(Outcomes(rows, user, f, e)))
    ensures SumBy(r, GroupTotal) == SumBy(Outcomes(rows, user, f, e), Weight)
  {
    var joined := Joined(Outcomes(rows, user, f, e));
    var groups := Grouped(joined);
    var r := SortDesc(groups, GroupTotal);
    SortDescDistinct(groups, GroupTotal, GroupName);
    PermutedTotals(joined, groups, r);
    PermutedNames(groups, r);
    SumByPermutation(groups, r, GroupTotal);
    JoinedSum(Outcomes(rows, user, f, e));
    r
  }

  /** There are groups exactly when the user has outcome records in the range. */
  lemma ChartGroupsEmpty(rows: seq<Accounting>, user: UserId, f: ValidDate, e: ValidDate)
    ensures ChartGroups(rows, user, f, e) == [] <==> Outcomes(rows, user, f, e) == []
  {
    var sel := Outcomes(rows, user, f, e);
    var r := ChartGroups(rows, user, f, e);
    if sel != [] {
      var j := JoinOne(sel[0]);
      assert Joined(sel) == j + Joined(sel[1..]);
      assert j[0] in Joined(sel);
      assert j[0].name in Names(r);
    }
  }

  /** When no outcome record in the range has more than one category, the groups add up to
      the outcome total of the range, so the shares are shares of what the groups hold. */
  lemma SingleCategoryGroupsSum(rows: seq<Accounting>, user: UserId, f: ValidDate, e: ValidDate)
    requires forall a :: a in Outcomes(rows, user, f, e) ==> |a.categories| <= 1
    ensures SumBy(ChartGroups(rows, user, f, e), GroupTotal) == PeriodTotal(rows, user, f, e, Outcome)
  {
    SingleCategoryWeight(Outcomes(rows, user, f, e));
  }

  // ----- percentages -----

  /** `int(round(c / total * 100, 0)) if total else 0`: the share of `c` in `total` as a whole
      percent, rounded half to even. */
  function RawPercent(c: int, total: int): int
  {
    if total == 0 then 0 else RoundHalfEven(100 * c, total)
  }

  /** The percent is 0 for a zero total and otherwise within half a point of 100 c / total. */
  lemma RawPercentRounds(c: int, total: int)
    ensures total == 0 ==> RawPercent(c, total) == 0
    ensures total != 0 ==> 2 * Abs(RawPercent(c, total) * total - 100 * c) <= Abs(total)
  {
    if total != 0 {
      var p := RawPercent(c, total);
      assert p * (-total) == -(p * total);
    }
  }

  /** One entry of the chart: the category name, `"{p}%"`, and `[p, 100 - p]`. */
  datatype Share = Share(name: Option<string>, percent: string, data: (int, int))

  function MakeShare(name: Option<string>, p: int): Share
  {
    Share(name, DecimalString(p) + "%", (p, 100 - p))
  }

  /** The label and the second component agree with the first component. */
  predicate WellShaped(s: Share)
  {
    s.percent == DecimalString(s.data.0) + "%" && s.data.1 == 100 - s.data.0
  }

  /** The sum of the first components, `total_percent` of the source. */
  function PercentSum(shares: seq<Share>): int
  {
    if shares == [] then 0 else PercentSum(shares[..|shares| - 1]) + shares[|shares| - 1].data.0
  }

  /** The entries before the fix-up, one per group in order. */
  function RawShares(groups: seq<Group>, total: int): (r: seq<Share>)
    ensures |r| == |groups|
    ensures forall i :: 0 <= i < |r| ==> r[i] == MakeShare(groups[i].name, RawPercent(groups[i].total, total))
  {
    if groups == [] then []
    else RawShares(groups[..|groups| - 1], total) + [MakeShare(groups[|groups| - 1].name, RawPercent(groups[|groups| - 1].total, total))]
  }

  lemma PercentSumSnoc(s: seq<Share>, x: Share)
    ensures PercentSum(s + [x]) == PercentSum(s) + x.data.0
  {
    assert (s + [x])[..|s|] == s;
  }

  lemma RawSharesStep(groups: seq<Group>, i: int, total: int)
    requires 0 <= i < |groups|
    ensures RawShares(groups[..i + 1], total) ==
            RawShares(groups[..i], total) + [MakeShare(groups[i].name, RawPercent(groups[i].total, total))]
  {
    assert groups[..i + 1][..i] == groups[..i];
  }

  /** The chart entries: the raw entries, with `100 - total_percent` added to the last one when
      the raw percents do not sum to 100. */
  function Shares(groups: seq<Group>, total: int): (r: seq<Share>)
    ensures |r| == |groups|
    ensures forall i :: 0 <= i < |r| ==> r[i].name == groups[i].name && WellShaped(r[i])
    ensures forall i :: 0 <= i < |r| - 1 ==> r[i].data.0 == RawPercent(groups[i].total, total)
    ensures r != [] ==> PercentSum(r) == 100
  {
    var raw := RawShares(groups, total);
    var n := |raw|;
    if n > 0 && PercentSum(raw) != 100 then
      var fixed := raw[n - 1].data.0 + (100 - PercentSum(raw));
      var r := raw[..n - 1] + [MakeShare(raw[n - 1].name, fixed)];
      assert r[..n - 1] == raw[..n - 1];
      r
    else raw
  }

  /** Entries whose percents are all 0 sum to 0. */
  lemma {:induction false} ZeroSum(r: seq<Share>)
    requires forall i :: 0 <= i < |r| ==> r[i].data.0 == 0
    ensures PercentSum(r) == 0
  {
    if r != [] {
      ZeroSum(r[..|r| - 1]);
    }
  }

  /** With a zero outcome total every raw percent is 0, so the last entry takes all 100. */
  lemma ZeroTotalShares(groups: seq<Group>)
    requires groups != []
    ensures var r := Shares(groups, 0);
            (forall i :: 0 <= i < |r| - 1 ==> r[i].data == (0, 100)) && r[|r| - 1].data == (100, 0)
  {
    var raw := RawShares(groups, 0);
    ZeroSum(raw);
    var n := |raw|;
    assert Shares(groups, 0) == raw[..n - 1] + [MakeShare(raw[n - 1].name, 100)];
  }

  /** 40000, 20000 and 10000 of 70000 are 57%, 29% and 14%, which already sum to 100. */
  lemma SharesExample()
    ensures var r := Shares([Group(Some("food"), 40000), Group(Some("rent"), 20000), Group(Some("fun"), 10000)], 70000);
            r == [MakeShare(Some("food"), 57), MakeShare(Some("rent"), 29), MakeShare(Some("fun"), 14)]
  {
    var gs := [Group(Some("food"), 40000), Group(Some("rent"), 20000), Group(Some("fun"), 10000)];
    assert RawPercent(40000, 70000) == 57;
    assert RawPercent(20000, 70000) == 29;
    assert RawPercent(10000, 70000) == 14;
    var raw := RawShares(gs, 70000);
    assert raw[..1][..0] == [] && raw[..2][..1] == raw[..1] && raw[..3] == raw;
    assert PercentSum(raw[..1]) == 57;
    assert PercentSum(raw[..2]) == 86;
    assert PercentSum(raw) == 100;
  }

  /** The join counts a record once per category while the total counts it once, so a record
      with three categories makes three groups of 100% each, and the remainder drives the last
      entry to -100%. */
  lemma LastShareCanBeNegative()
    ensures var r := Shares([Group(Some("a"), 100), Group(Some("b"), 100), Group(Some("c"), 100)], 100);
            r[2].data == (-100, 200)
  {
    var gs := [Group(Some("a"), 100), Group(Some("b"), 100), Group(Some("c"), 100)];
    assert RawPercent(100, 100) == 100;
    var raw := RawShares(gs, 100);
    assert raw[..1][..0] == [] && raw[..2][..1] == raw[..1] && raw[..3] == raw;
    assert PercentSum(raw[..1]) == 100;
    assert PercentSum(raw[..2]) == 200;
    assert PercentSum(raw) == 300;
  }

  /** The body of a successful category chart response. */
  datatype CategoryChart = CategoryChart(from: string, end: string, data: seq<Share>)

  /** The loop of `TypeCostAPIView.get`: one raw entry per group, and the sum of their percents. */
  method RawEntries(groups: seq<Group>, total: int) returns (data: seq<Share>, totalPercent: int)
    ensures data == RawShares(groups, total) && totalPercent == PercentSum(data)
  {
    data := [];
    totalPercent := 0;
    var i := 0;
    while i < |groups|
      invariant 0 <= i <= |groups|
      invariant data == RawShares(groups[..i], total)
      invariant totalPercent == PercentSum(data)
    {
      var percent := RawPercent(groups[i].total, total);
      RawSharesStep(groups, i, total);
      PercentSumSnoc(data, MakeShare(groups[i].name, percent));
      data := data + [MakeShare(groups[i].name, percent)];
      totalPercent := totalPercent + percent;
      i := i + 1;
    }
    assert groups[..i] == groups;
  }

  /** The entries of `TypeCostAPIView.get`: the raw entries, then the in-place fix-up of the
      last entry when the percents do not sum to 100. */
  method BuildShares(groups: seq<Group>, total: int) returns (data: seq<Share>)
    ensures data == Shares(groups, total)
  {
    var raw, totalPercent := RawEntries(groups, total);
    data := raw;
    if |data| > 0 && totalPercent != 100 {
      var n := |data|;
      var last := data[n - 1].data.0 + (100 - totalPercent);
      ReplaceLast(data, MakeShare(data[n - 1].name, last));
      data := data[n - 1 := MakeShare(data[n - 1].name, last)];
    }
  }

  /** `TypeCostAPIView.get`: a missing or unparsable date answers "Invalid date format";
      otherwise the entries for the user's outcome groups in the range. */
  method TypeCostChart(rows: seq<Accounting>, user: UserId, fromParam: Option<string>, endParam: Option<string>)
    returns (r: Result<CategoryChart>)
    ensures ParseParam(fromParam).Err? || ParseParam(endParam).Err? ==> r == Err("Invalid date format")
    ensures ParseParam(fromParam).Ok? && ParseParam(endParam).Ok? ==>
              var (f, e) := (ParseParam(fromParam).value, ParseParam(endParam).value);
              r.Ok? && r.value.from == Format(f) && r.value.end == Format(e) &&
              r.value.data == Shares(ChartGroups(rows, user, f, e), Sum(Outcomes(rows, user, f, e)))
  {
    var pf := ParseParam(fromParam);
    var pe := ParseParam(endParam);
    if pf.Err? || pe.Err? {
      return Err("Invalid date format");
    }
    var f: ValidDate := pf.value;
    var e: ValidDate := pe.value;
    var data := BuildShares(ChartGroups(rows, user, f, e), Sum(Outcomes(rows, user, f, e)));
    r := Ok(CategoryChart(Format(f), Format(e), data));
  }
}
