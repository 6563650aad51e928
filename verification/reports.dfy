/** The monthly or yearly CSV statement of reports/views.py (`generate_csv`): the file name,
    the header, and one row per record with a running income-minus-outcome balance. */
module Reports {
  import opened Wrappers
  import opened Numbers
  import opened Calendar
  import opened Models
  import opened Ledger
  import opened Sequences

  /** A CSV cell: a number the writer prints in decimal, or text. */
  datatype Cell = IntCell(n: int) | TextCell(s: string)

  /** The fixed header row. */
  const Header: seq<Cell> := [TextCell("年份"), TextCell("月份"), TextCell("日期"), TextCell("項目"), TextCell("類別"),
                              TextCell("名稱"), TextCell("收入金額"), TextCell("支出金額"), TextCell("小計餘額")]

  /** `if month:` — a month of None or 0 means the whole year. */
  predicate HasMonth(month: Option<int>)
  {
    month.Some? && month.value != 0
  }

  /** The part of the file name naming the month, empty for a whole-year statement. */
  function MonthPart(month: Option<int>): string
  {
    if HasMonth(month) then DecimalString(month.value) + "月" else ""
  }

  /** The records of the statement: the user's, dated in `year`, and in `month` when given. */
  function ReportFilter(user: UserId, year: int, month: Option<int>): Accounting -> bool
  {
    (a: Accounting) => a.owner == user && a.date.year == year && (HasMonth(month) ==> a.date.month == month.value)
  }

  function Selected(rows: seq<Accounting>, user: UserId, year: int, month: Option<int>): seq<Accounting>
  {
    Filter(rows, ReportFilter(user, year, month))
  }

  /** The statement holds the user's records of the year, and of the month when one is given,
      in table order. */
  lemma SelectedRecords(rows: seq<Accounting>, user: UserId, year: int, month: Option<int>)
    ensures var s := Selected(rows, user, year, month);
            forall a :: a in s <==>
              a in rows && a.owner == user && a.date.year == year && (HasMonth(month) ==> a.date.month == month.value)
  {
  }

  /** A record's effect on the balance: income adds, anything else subtracts. */
  function Signed(a: Accounting): int
  {
    if a.kind == Income then a.amount else -a.amount
  }

  /** The balance after the records of `s`. */
  function Balance(s: seq<Accounting>): int
  {
    SumBy(s, Signed)
  }

  function IsIncome(a: Accounting): bool { a.kind == Income }
  function IsOutcome(a: Accounting): bool { a.kind == Outcome }

  /** The balance is the income total minus the outcome total. */
  lemma {:induction false} BalanceIsIncomeMinusOutcome(s: seq<Accounting>)
    ensures Balance(s) == Sum(Filter(s, IsIncome)) - Sum(Filter(s, IsOutcome))
  {
    if s != [] {
      BalanceIsIncomeMinusOutcome(s[1..]);
      SumByConcat(if IsIncome(s[0]) then [s[0]] else [], Filter(s[1..], IsIncome), Amount);
      SumByConcat(if IsOutcome(s[0]) then [s[0]] else [], Filter(s[1..], IsOutcome), Amount);
    }
  }

  /** The names of a record's categories joined with ", ". */
  function JoinNames(cats: seq<Category>): string
  {
    if cats == [] then ""
    else if |cats| == 1 then cats[0].name
    else cats[0].name + ", " + JoinNames(cats[1..])
  }

  /** The type column: "收入" for income, "支出" otherwise. */
  function KindLabel(k: Kind): string
  {
    if k == Income then "收入" else "支出"
  }

  /** The cells of one record's row, given the balance after it. */
  function RowCells(a: Accounting, balance: int): seq<Cell>
  {
    [IntCell(a.date.year), IntCell(a.date.month), IntCell(a.date.day),
     TextCell(JoinNames(a.categories)), TextCell(KindLabel(a.kind)), TextCell(a.title),
     if a.kind == Income then IntCell(a.amount) else TextCell(""),
     if a.kind == Outcome then IntCell(a.amount) else TextCell(""),
     IntCell(balance)]
  }

  /** A row has the header's width, and exactly one of its income and expense cells holds the
      amount, the other being empty. */
  lemma RowShape(a: Accounting, balance: int)
    ensures |RowCells(a, balance)| == |Header|
    ensures RowCells(a, balance)[6] == IntCell(a.amount) <==> a.kind == Income
    ensures RowCells(a, balance)[7] == IntCell(a.amount) <==> a.kind == Outcome
    ensures RowCells(a, balance)[6] == TextCell("") <==> RowCells(a, balance)[7] != TextCell("")
    ensures RowCells(a, balance)[4] == TextCell(if a.kind == Income then "收入" else "支出")
    ensures RowCells(a, balance)[8] == IntCell(balance)
  {
  }

  /** The data rows of a statement over `s`: one per record, each with the balance after it. */
  function StatementRows(s: seq<Accounting>): seq<seq<Cell>>
  {
    if s == [] then [] else StatementRows(s[..|s| - 1]) + [RowCells(s[|s| - 1], Balance(s))]
  }

  /** Row `k` of a statement describes record `k` with the balance after the first `k + 1`
      records. */
  lemma {:induction false} StatementRowsAt(s: seq<Accounting>, k: int)
    requires 0 <= k < |s|
    ensures |StatementRows(s)| == |s|
    ensures StatementRows(s)[k] == RowCells(s[k], Balance(s[..k + 1]))
  {
    var init := s[..|s| - 1];
    if k == |s| - 1 {
      assert s[..k + 1] == s;
      if init != [] {
        StatementRowsAt(init, 0);
      }
    } else {
      StatementRowsAt(init, k);
      assert init[..k + 1] == s[..k + 1];
    }
  }

  /** The file name of `generate_csv`, grown piece by piece. */
  method FileName(year: int, month: Option<int>) returns (name: string)
    ensures name == DecimalString(year) + "年" + MonthPart(month) + "記帳明細.csv"
  {
    name := DecimalString(year) + "年";
    if HasMonth(month) {
      name := name + DecimalString(month.value) + "月";
    }
    name := name + "記帳明細.csv";
  }

  /** The loop of `generate_csv`: the header, then one row per record with the running
      balance. */
  method WriteRows(accountings: seq<Accounting>) returns (table: seq<seq<Cell>>)
    ensures table == [Header] + StatementRows(accountings)
  {
    table := [Header];
    var runningBalance := 0;
    var k := 0;
    while k < |accountings|
      invariant 0 <= k <= |accountings|
      invariant runningBalance == Balance(accountings[..k])
      invariant table == [Header] + StatementRows(accountings[..k])
    {
      var a := accountings[k];
      assert accountings[..k + 1] == accountings[..k] + [a];
      assert accountings[..k + 1][..k] == accountings[..k];
      SumByConcat(accountings[..k], [a], Signed);
      runningBalance := runningBalance + (if a.kind == Income then a.amount else -a.amount);
      table := table + [RowCells(a, runningBalance)];
      k := k + 1;
    }
    assert accountings[..k] == accountings;
  }

  /** `generate_csv`: the file name and the statement of the user's records of the year, or of
      the month when one is given, in table order. */
  method GenerateCsv(rows: seq<Accounting>, user: UserId, year: int, month: Option<int>)
    returns (name: string, table: seq<seq<Cell>>)
    ensures name == DecimalString(year) + "年" + MonthPart(month) + "記帳明細.csv"
    ensures table == [Header] + StatementRows(Selected(rows, user, year, month))
  {
    name := FileName(year, month);
    table := WriteRows(Selected(rows, user, year, month));
  }

  /** The last row's balance is the statement's income total minus its outcome total. */
  lemma FinalBalance(rows: seq<Accounting>, user: UserId, year: int, month: Option<int>)
    ensures var s := Selected(rows, user, year, month);
            Balance(s[..|s|]) == Sum(Filter(s, IsIncome)) - Sum(Filter(s, IsOutcome))
  {
    var s := Selected(rows, user, year, month);
    assert s[..|s|] == s;
    BalanceIsIncomeMinusOutcome(s);
  }

  /** The file name names a month exactly when one is given. */
  lemma MonthInFileName(year: int, month: Option<int>)
    ensures '月' in DecimalString(year) + "年" + MonthPart(month) + "記帳明細.csv" <==> HasMonth(month)
  {
    var y := DecimalString(year);
    var name := y + "年" + MonthPart(month) + "記帳明細.csv";
    if HasMonth(month) {
      assert name[|y| + 1 + |DecimalString(month.value)|] == '月';
    } else {
      assert name == y + "年記帳明細.csv";
      forall i | 0 <= i < |name| ensures name[i] != '月' {
        if i < |y| {
          assert name[i] == y[i];
        }
      }
    }
  }

  /** A whole-year file name has no month part; a monthly one names the month. */
  lemma FileNameExamples()
    ensures DecimalString(2024) + "年" + MonthPart(None) + "記帳明細.csv" == "2024年記帳明細.csv"
    ensures DecimalString(2024) + "年" + MonthPart(Some(0)) + "記帳明細.csv" == "2024年記帳明細.csv"
    ensures DecimalString(2024) + "年" + MonthPart(Some(3)) + "記帳明細.csv" == "2024年3月記帳明細.csv"
  {
    assert DecimalString(2024) == "2024" by {
      assert Digits(2) == "2";
      assert Digits(20) == Digits(2) + "0";
      assert Digits(202) == Digits(20) + "2";
      assert Digits(2024) == Digits(202) + "4";
    }
    assert DecimalString(3) == "3";
  }
}
