/** Dates as the query strings and response fields of the API: `strptime(s, '%Y-%m-%d')`
    to read them and `strftime('%Y-%m-%d')` to write them. */
module DateText {
  import opened Wrappers
  import opened Numbers
  import opened Calendar

  /** Two decimal digits, zero-padded (strftime's %m and %d). */
  function TwoDigits(n: int): (s: string)
    requires 0 <= n < 100
    ensures |s| == 2 && AllDigits(s)
  {
    [DigitChar(n / 10), DigitChar(n % 10)]
  }

  /** Four decimal digits, zero-padded (strftime's %Y). */
  function FourDigits(n: int): (s: string)
    requires 0 <= n < 10000
    ensures |s| == 4 && AllDigits(s)
  {
    var q1 := n / 10;
    var q2 := q1 / 10;
    [DigitChar(q2 / 10), DigitChar(q2 % 10), DigitChar(q1 % 10), DigitChar(n % 10)]
  }

  /** `d.strftime('%Y-%m-%d')`. */
  function Format(d: Date): (s: string)
    requires Valid(d)
    ensures |s| == 10 && s[4] == '-' && s[7] == '-'
    ensures AllDigits(s[..4]) && AllDigits(s[5..7]) && AllDigits(s[8..])
  {
    FourDigits(d.year) + "-" + TwoDigits(d.month) + "-" + TwoDigits(d.day)
  }

  /** The directive `%d` of strptime: the first alternative of `3[01]|[12]\d|0[1-9]|[1-9]| [1-9]`
      that matches at the start of `t`, as (value, characters consumed). */
  function DayToken(t: string): (r: Option<(int, nat)>)
    ensures r.Some? ==> 1 <= r.value.0 <= 31 && 1 <= r.value.1 <= 2 && r.value.1 <= |t|
  {
    if |t| >= 2 && t[0] == '3' && (t[1] == '0' || t[1] == '1') then Some((30 + DigitValue(t[1]), 2))
    else if |t| >= 2 && (t[0] == '1' || t[0] == '2') && IsDigit(t[1]) then
      Some((10 * DigitValue(t[0]) + DigitValue(t[1]), 2))
    else if |t| >= 2 && t[0] == '0' && '1' <= t[1] <= '9' then Some((DigitValue(t[1]), 2))
    else if |t| >= 1 && '1' <= t[0] <= '9' then Some((DigitValue(t[0]), 1))
    else if |t| >= 2 && t[0] == ' ' && '1' <= t[1] <= '9' then Some((DigitValue(t[1]), 2))
    else None
  }

  /** A month token of `len` characters with value `m`, then `-`, then a day token:
      (month, day, characters consumed). */
  function AfterMonth(t: string, m: int, len: nat): (r: Option<(int, int, nat)>)
    requires len <= |t|
    ensures r.Some? ==> r.value.0 == m && 1 <= r.value.1 <= 31 && r.value.2 <= |t|
  {
    if len < |t| && t[len] == '-' then
      match DayToken(t[len + 1..])
      case Some((d, n)) => Some((m, d, len + 1 + n))
      case None => None
    else None
  }

  /** `%m-%d` of strptime: the month alternatives `1[0-2]|0[1-9]|[1-9]` are tried in order,
      backtracking when the rest of the pattern does not match after one of them. */
  function MonthDay(t: string): (r: Option<(int, int, nat)>)
    ensures r.Some? ==> 1 <= r.value.0 <= 12 && 1 <= r.value.1 <= 31 && r.value.2 <= |t|
  {
    var a := if |t| >= 2 && t[0] == '1' && '0' <= t[1] <= '2' then AfterMonth(t, 10 + DigitValue(t[1]), 2) else None;
    if a.Some? then a
    else
      var b := if |t| >= 2 && t[0] == '0' && '1' <= t[1] <= '9' then AfterMonth(t, DigitValue(t[1]), 2) else None;
      if b.Some? then b
      else if |t| >= 1 && '1' <= t[0] <= '9' then AfterMonth(t, DigitValue(t[0]), 1)
      else None
  }

  /** `datetime.strptime(s, '%Y-%m-%d')` at day granularity: `%Y` is exactly four digits,
      the whole string must be consumed ("unconverted data remains" otherwise), and the
      fields must form a date of Python's range (ValueError otherwise). */
  function Parse(s: string): (r: Result<Date>)
    ensures r.Ok? ==> Valid(r.value)
    ensures r.Ok? ==> 8 <= |s| <= 10 && s[4] == '-'
    ensures r.Ok? <==> |s| >= 5 && AllDigits(s[..4]) && s[4] == '-' && MonthDay(s[5..]).Some? &&
                       5 + MonthDay(s[5..]).value.2 == |s| &&
                       Valid(Date(ValueOf(s[..4]), MonthDay(s[5..]).value.0, MonthDay(s[5..]).value.1))
    ensures r.Ok? ==> r.value.year == ValueOf(s[..4]) &&
                      (r.value.month, r.value.day, |s| - 5) == MonthDay(s[5..]).value
    ensures !(|s| >= 5 && AllDigits(s[..4]) && s[4] == '-' && MonthDay(s[5..]).Some?) ==>
              r == Err("ValueError: does not match format")
  {
    if |s| < 5 || !AllDigits(s[..4]) || s[4] != '-' then Err("ValueError: does not match format")
    else
      match MonthDay(s[5..])
      case None => Err("ValueError: does not match format")
      case Some((m, d, n)) =>
        if 5 + n != |s| then Err("ValueError: unconverted data remains")
        else
          var date := Date(ValueOf(s[..4]), m, d);
          if Valid(date) then Ok(date) else Err("ValueError: day or year out of range")
  }

  /** A query parameter that may be missing: a missing one makes strptime raise TypeError. */
  function ParseParam(p: Option<string>): (r: Result<Date>)
    ensures r.Ok? ==> p.Some? && Parse(p.value) == r
  {
    match p
    case None => Err("TypeError")
    case Some(s) => Parse(s)
  }

  lemma ValueOfSnoc(t: string, c: char)
    requires AllDigits(t) && IsDigit(c)
    ensures AllDigits(t + [c]) && ValueOf(t + [c]) == ValueOf(t) * 10 + DigitValue(c)
  {
    assert (t + [c])[..|t|] == t;
  }

  /** The value of four digits, place by place. */
  lemma ValueOfFour(s: string)
    requires |s| == 4 && AllDigits(s)
    ensures ValueOf(s) == 1000 * DigitValue(s[0]) + 100 * DigitValue(s[1]) + 10 * DigitValue(s[2]) + DigitValue(s[3])
  {
    ValueOfSnoc([], s[0]);
    assert [] + [s[0]] == [s[0]];
    ValueOfSnoc([s[0]], s[1]);
    assert [s[0]] + [s[1]] == [s[0], s[1]];
    ValueOfSnoc([s[0], s[1]], s[2]);
    assert [s[0], s[1]] + [s[2]] == [s[0], s[1], s[2]];
    ValueOfSnoc([s[0], s[1], s[2]], s[3]);
    assert [s[0], s[1], s[2]] + [s[3]] == s;
  }

  lemma FourDigitsValue(n: int)
    requires 0 <= n < 10000
    ensures ValueOf(FourDigits(n)) == n
  {
    var s := FourDigits(n);
    ValueOfFour(s);
    var q1 := n / 10;
    var q2 := q1 / 10;
    assert n == 10 * q1 + n % 10;
    assert q1 == 10 * q2 + q1 % 10;
    assert q2 == 10 * (q2 / 10) + q2 % 10;
  }

  /** Reading back a formatted date gives the date again. */
  lemma ParseFormat(d: Date)
    requires Valid(d)
    ensures Parse(Format(d)) == Ok(d)
  {
    var s := Format(d);
    FourDigitsValue(d.year);
    assert s[..4] == FourDigits(d.year);
    var t := s[5..];
    assert t == TwoDigits(d.month) + "-" + TwoDigits(d.day);
    assert t[3..] == TwoDigits(d.day);
    assert MonthDay(t) == Some((d.month, d.day, 5));
  }

  /** Formatting is injective on valid dates. */
  lemma FormatInjective(a: Date, b: Date)
    requires Valid(a) && Valid(b) && Format(a) == Format(b)
    ensures a == b
  {
    ParseFormat(a);
    ParseFormat(b);
  }

  /** A zero-padded date parses. */
  lemma ParseAcceptsPadded()
    ensures Parse("2021-01-31") == Ok(Date(2021, 1, 31))
  {
    ValueOfFour("2021");
    assert "2021-01-31"[..4] == "2021";
  }

  /** The directive widths are lenient: single-digit month and day parse. */
  lemma ParseAcceptsShort()
    ensures Parse("2021-1-5") == Ok(Date(2021, 1, 5))
  {
    ValueOfFour("2021");
    assert "2021-1-5"[..4] == "2021";
  }

  /** February 29 of a leap year parses. */
  lemma ParseAcceptsLeapDay()
    ensures Parse("2024-02-29") == Ok(Date(2024, 2, 29))
  {
    ValueOfFour("2024");
    assert "2024-02-29"[..4] == "2024";
  }

  /** February 29 of a common year is rejected. */
  lemma ParseRejectsCommonYearLeapDay()
    ensures Parse("2023-02-29").Err?
  {
    ValueOfFour("2023");
    assert "2023-02-29"[..4] == "2023";
  }

  /** Day 32 and month 13 are rejected. */
  lemma ParseRejectsOutOfRange()
    ensures Parse("2021-01-32").Err? && Parse("2021-13-01").Err?
  {
  }

  /** Another separator and a two-digit year are rejected. */
  lemma ParseRejectsMalformed()
    ensures Parse("2021/01/05").Err? && Parse("21-01-05").Err?
  {
  }

  /** Year 0 has four digits but lies outside Python's date range. */
  lemma ParseRejectsYearZero()
    ensures Parse("0000-01-01").Err?
  {
    var s := "0000-01-01";
    ValueOfFour("0000");
    assert s[..4] == "0000";
    assert s[5..] == "01-01";
    assert MonthDay("01-01") == Some((1, 1, 5));
  }
}
