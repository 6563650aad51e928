# accounting-backend in Dafny

A model of the bookkeeping core of the accounting-backend service. The service is a Django
REST API. Users record income and outcome transactions, tag them with categories, set monthly
targets, view charts and download CSV statements.

The model covers six things:

- the chart endpoints: a daily income/outcome series, month-target progress, the
  category-share pie and a period-over-period comparison;
- the CSV statement generator with its running balance;
- the accounting view set: the listing with its default month, plus create, update and
  delete under ownership;
- the user manager's `create_user` and `create_superuser`;
- the user serializer's password handling;
- the calendar and the `strptime`/`strftime` date text those endpoints rely on.

The database is a sequence of `Accounting` records. A query is a `Filter` of that sequence, and
`Sum('amount')` is `Sum` over the filtered records. Python exceptions that the views catch
become `Err` values carrying the response message. Exceptions they do not catch become `Err`
values carrying the exception name.

Modules:

- `Wrappers`: `Option`, `Result`.
- `Numbers`: round-half-even on exact rationals, `str()` of integers.
- `Calendar`: dates and `date.toordinal()`, `timedelta` steps, month bounds.
- `DateText`: `strptime('%Y-%m-%d')` and `strftime('%Y-%m-%d')`.
- `Sequences`: filtering, sorting descending by a key, totals.
- `Models`: the records of core/models.py and the user manager.
- `Ledger`: the aggregate queries shared by the views.
- `Charts`: the range, target and compare endpoints.
- `TypeCost`: the category-share endpoint.
- `Reports`: `generate_csv`.
- `Accounts`: `AccountingViewSet`.
- `UserSerializer`: `UserSerializer`.

Where the code works step by step, the model does too. `DailySeries`, `RawEntries`,
`BuildShares`, `WriteRows`, `FileName`, `CreateSuperuser` and the serializer methods are
methods with loops or local updates. `DailySeries`, `RawEntries`, `BuildShares`, `WriteRows` and
`FileName` are proved equal to specification functions, and the properties are proved about
those functions. `CreateSuperuser` and the serializer methods state their results and error
cases directly in their contracts.

## Model

| member | source | states |
|---|---|---|
| Numbers.RoundHalfEven | charts/views.py:183 | the result is a nearest integer to the exact quotient and the even one on a tie, as Python's `round` |
| Numbers.DecimalString | reports/views.py:20 | `str()` of an integer: a minus sign exactly for negatives, digits otherwise |
| Numbers.ValueOfDigits | reports/views.py:20 | reading back the printed digits of a natural number gives the number |
| Numbers.DecimalStringInjective | charts/views.py:186 | distinct integers print differently |
| Calendar.DaysInMonth | core/models.py:63 | month lengths lie between 28 and 31, and the length is 29 exactly for February of a leap year |
| Calendar.OrdinalBounds | charts/views.py:64 | 0001-01-01 is ordinal 1 and 9999-12-31 is ordinal 3652059 |
| Calendar.NextDay | charts/views.py:64 | the day after a date has the next ordinal |
| Calendar.PrevDay | charts/views.py:239 | the day before a date has the previous ordinal |
| Calendar.AddDays | charts/views.py:64 | adding n days moves the ordinal up by n |
| Calendar.Shift | charts/views.py:240 | shifting by any whole number of days moves the ordinal by that number |
| Calendar.OrdinalMonotone | charts/views.py:66 | the ordinal follows calendar order, so a date range is an ordinal interval |
| Calendar.OrdinalInjective | charts/views.py:73 | distinct dates have distinct ordinals |
| Calendar.ValidIffOrdinalInRange | charts/views.py:239-240 | a date lies in Python's years 1..9999 exactly when its ordinal lies in 1..3652059 |
| Calendar.BetweenValid | charts/views.py:64 | every day between two valid dates is valid |
| Calendar.Plus | charts/views.py:239-240 | adding days succeeds exactly when the ordinal stays in range, and otherwise raises OverflowError |
| Calendar.MonthBounds | charts/views.py:124-134 | first and last day of a month, with December rolling over to the next year; ValueError outside the date range |
| Calendar.MonthBoundsExact | charts/views.py:136 | the month bounds enclose exactly the dates of that month |
| Calendar.AddDaysReaches | charts/views.py:64 | stepping from the start by the span of the range lands on the end date |
| DateText.Format | charts/views.py:80 | the label is ten characters: four, two and two digits separated by dashes |
| DateText.Parse | charts/views.py:55-56 | a string parses exactly when it is four digits, a dash and a month-day that the backtracking `%m-%d` match consumes to the end, and the fields form a valid date; the date is then that year, month and day; a string without that prefix shape is "does not match format" |
| DateText.ParseParam | charts/views.py:51-56 | a missing query parameter never parses, since it raises TypeError |
| DateText.ParseFormat | charts/views.py:85-86 | parsing a formatted date gives the date back |
| DateText.FormatInjective | charts/views.py:80 | distinct dates have distinct labels |
| DateText.ParseAcceptsPadded | charts/views.py:55 | "2021-01-31" parses to January 31, 2021 |
| DateText.ParseAcceptsShort | charts/views.py:55 | single-digit month and day are accepted |
| DateText.ParseAcceptsLeapDay | charts/views.py:55 | February 29 of a leap year is accepted |
| DateText.ParseRejectsCommonYearLeapDay | charts/views.py:55-59 | February 29 of a common year is rejected |
| DateText.ParseRejectsOutOfRange | charts/views.py:55-59 | day 32 and month 13 are rejected |
| DateText.ParseRejectsMalformed | charts/views.py:55-59 | slashes and a two-digit year are rejected |
| DateText.ParseRejectsYearZero | charts/views.py:55-59 | year 0000 is rejected |
| Sequences.Filter | charts/views.py:172 | a query keeps exactly the rows that satisfy its conditions, in table order |
| Sequences.FilterConcat | account/views.py:38-40 | filtering distributes over appending rows |
| Sequences.FilterTwice | account/views.py:73 | chaining two filters equals one filter on their conjunction |
| Sequences.FilterCount | reports/views.py:30-32 | a filter keeps every matching occurrence and no other |
| Sequences.FilterPermutation | account/views.py:73 | filtering reordered rows gives a reordering of the filtered rows |
| Sequences.SortDesc | account/views.py:29 | `order_by('-key')` returns a permutation of its input, largest key first |
| Sequences.FilterSortedDesc | account/views.py:73 | filtering a sorted queryset keeps it sorted |
| Sequences.SortDescDistinct | charts/views.py:176 | sorting keeps grouped names distinct |
| Sequences.SumByConcat | reports/views.py:42 | a total over appended rows is the sum of the two totals |
| Sequences.SumByPermutation | charts/views.py:174 | `Sum` does not depend on the order of the rows |
| Models.ParseKind | core/models.py:54-57 | a type is accepted exactly when it is 'income' or 'outcome' and round-trips to its name |
| Models.ParseKindName | core/models.py:54-57 | both type names are accepted as themselves |
| Models.CreateUser | core/models.py:13-21 | an empty account raises ValueError; a keyword that is neither a User field nor `pk` raises TypeError; otherwise the user has the account and fields, and the password checks exactly when one was given |
| Models.SuperuserFields | core/models.py:28-29 | the completed keywords are exactly the extras plus `is_staff` and `is_superuser`, the given values kept and True where a flag was absent |
| Models.CreateSuperuser | core/models.py:23-36 | empty account, or `is_staff`/`is_superuser` given as anything but True, raise ValueError in that order; a created superuser is what `create_user` gives for the completed keywords: staff and superuser, fields exactly the extras plus the two flags, and a password that checks exactly when one was given |
| Ledger.SumOfNothing | charts/views.py:136 | an aggregate over no rows is 0, as `or 0` makes it |
| Ledger.PeriodTotalOwnRowsOnly | charts/views.py:263-266 | a period total depends only on the user's own records |
| Ledger.DailyTotalOwnRowsOnly | charts/views.py:62-71 | a daily total depends only on the user's own records |
| Ledger.DailyTotalOfEmptyDay | charts/views.py:79-82 | a day without records of a type totals 0 |
| Ledger.DayWithinRange | charts/views.py:66-79 | picking a day out of the range aggregate gives that day's own total |
| Ledger.OneDayPeriod | charts/views.py:66 | a one-day range totals that day |
| Ledger.MonthPeriod | charts/views.py:124-136 | the range from the first to the last day of a month selects exactly that month's records |
| Ledger.PeriodTotalAppend | account/views.py:38-40 | a new record changes a period total by its amount exactly when it matches |
| Charts.DailySeries | charts/views.py:64-82 | one label and one income and outcome total per day from start to end, in order |
| Charts.RangeChart | charts/views.py:50-90 | a missing or bad date gives "Invalid date format"; a span under one day gives "Date range too short"; otherwise the dense daily series between the echoed bounds |
| Charts.EmptyDayIsZero | charts/views.py:79-82 | a day of the series without records shows 0 |
| Charts.SeriesFirst | charts/views.py:64 | the series starts at the start date |
| Charts.SeriesLast | charts/views.py:64 | the series ends at the end date |
| Charts.SeriesLabelsDistinct | charts/views.py:64 | no day appears twice in the series |
| Charts.Remaining | charts/views.py:118-119 | what remains is never negative, never below target minus achieved, and is one of the two |
| Charts.ProgressPair | charts/views.py:118-119 | achieved plus remaining is the larger of target and achievement |
| Charts.Achieved | charts/views.py:124-136 | the month's total of a type; ValueError for a month outside the date range |
| Charts.Target | charts/views.py:97-122 | missing targets count as 0; each pair is the achieved month total and what remains to the target |
| Charts.TargetExamples | charts/views.py:118-119 | 50000 of 100000 leaves 50000; 30000 leaves 70000; overshooting leaves 0 |
| Charts.PreviousPeriod | charts/views.py:237-240 | the previous period ends the day before the start and spans the same number of days; OverflowError outside the date range |
| Charts.PreviousPeriodAdjacent | charts/views.py:237-240 | the previous period lies entirely before the current one |
| Charts.AggregateData | charts/views.py:263-268 | the income and outcome totals over the range are what the daily bars of the range chart over the same days add up to; 0 and 0 for a range that ends before it starts |
| Charts.SeriesTotals | charts/views.py:62-82 | summing the range chart's daily income and outcome bars gives the period totals |
| Charts.DayBarsTotal | charts/views.py:62-82 | bars holding the daily totals of the days from start to end add up to the period total |
| Ledger.FirstDaysStep | charts/views.py:263-268 | extending a run of days by one day adds that day's total |
| Ledger.PeriodAsFirstDays | charts/views.py:263-268 | a date range of n days selects the user's records of those n days |
| Ledger.EmptyPeriod | charts/views.py:237-240 | a range that ends before it starts totals 0 |
| Sequences.SumByFilterSplit | charts/views.py:263-268 | a query that is the disjoint union of two others totals their two totals |
| Charts.PercentageChange | charts/views.py:270-273 | a zero baseline gives the sentinel -101.00; otherwise the change rounded to hundredths of a percent |
| Charts.PercentageChangeExamples | charts/views.py:270-273 | 100 to 150 is +50.00, 200 to 0 is -100.00, 3 to 4 is +33.33, 0 to 500 is the sentinel |
| Charts.ChangeAboveSentinel | charts/views.py:270-273 | for non-negative amounts a real change is at least -100.00, so it never collides with the sentinel |
| Charts.Compare | charts/views.py:227-261 | a missing or bad date gives "Invalid date format"; otherwise the echoed periods and the income and outcome changes against the previous period |
| TypeCost.JoinOne | charts/views.py:176 | a record joins into one row per category, or a single null-name row when it has none |
| TypeCost.JoinedSum | charts/views.py:176 | the joined amounts add up to each record's amount times its category count |
| TypeCost.SingleCategoryWeight | charts/views.py:174-176 | with at most one category per record, the joined weights equal the plain total |
| TypeCost.Grouped | charts/views.py:176 | one group per distinct name, each holding the total of its joined rows |
| TypeCost.ChartGroups | charts/views.py:172-176 | groups sorted by total descending, with distinct names, each total the name's sum, covering every name of the join |
| TypeCost.ChartGroupsEmpty | charts/views.py:176-180 | there are groups exactly when the user has outcomes in the range |
| TypeCost.SingleCategoryGroupsSum | charts/views.py:174-176 | with at most one category per record, the group totals add up to the outcome total |
| TypeCost.RawPercentRounds | charts/views.py:183 | 0 when the total is 0, otherwise the share rounded half to even |
| TypeCost.RawShares | charts/views.py:180-189 | one entry per group, in order, holding its rounded percent |
| TypeCost.Shares | charts/views.py:178-195 | entries match groups by name; all but the last keep their rounded percent; the last absorbs the difference so the percents sum to 100; each label and pair agree with the percent |
| TypeCost.ZeroTotalShares | charts/views.py:183-195 | with a zero total every entry is 0% except the last, which is 100% |
| TypeCost.SharesExample | charts/views.py:183-195 | 40000, 20000 and 10000 of 70000 give 57%, 29% and 14% |
| TypeCost.LastShareCanBeNegative | charts/views.py:174-195 | three groups of 100 against a total of 100 (one record in three categories) make the last share (-100, 200) |
| TypeCost.RawEntries | charts/views.py:178-189 | the loop yields the raw entries and the sum of their percents |
| TypeCost.BuildShares | charts/views.py:178-195 | the loop and the fix-up yield the corrected entries |
| TypeCost.TypeCostChart | charts/views.py:162-201 | a missing or bad date gives "Invalid date format"; otherwise the corrected shares of the sorted groups against the outcome total |
| Reports.SelectedRecords | reports/views.py:30-32 | the statement holds the user's records of the year, and of the month when one is given |
| Reports.BalanceIsIncomeMinusOutcome | reports/views.py:42 | the running balance is income total minus outcome total |
| Reports.RowShape | reports/views.py:35-44 | a row has nine cells; the amount sits in the income or the expense column by type; the last cell is the balance |
| Reports.StatementRowsAt | reports/views.py:34-44 | row k describes record k with the balance after the first k+1 records |
| Reports.FileName | reports/views.py:20-23 | the file name is year, 年, the month and 月 when given, then 記帳明細.csv |
| Reports.WriteRows | reports/views.py:27-44 | the header, then one row per record with the running balance |
| Reports.GenerateCsv | reports/views.py:19-49 | file name and table of the user's selected records |
| Reports.FinalBalance | reports/views.py:42-44 | the last row's balance is the statement's income minus its outcome |
| Reports.MonthInFileName | reports/views.py:21-22 | the name contains 月 exactly when a month other than 0 is given |
| Reports.FileNameExamples | reports/views.py:20-23 | 2024 gives 2024年記帳明細.csv; 2024 with month 3 gives 2024年3月記帳明細.csv |
| Accounts.OwnRecords | account/views.py:27-29 | exactly the user's records, latest date first, as a permutation |
| Accounts.ListRange | account/views.py:64-87 | both bounds given: their parses, with a parse error propagated; otherwise the current month's first and last day |
| Accounts.List | account/views.py:62-95 | the records of the user within the range, each exactly as often as the range filter selects it (a permutation of that filter), latest first, with the echoed bounds |
| Accounts.DefaultListIsCurrentMonth | account/views.py:74-87 | without both bounds the listing holds exactly the user's records of the current month |
| Accounts.ListRangeExamples | account/views.py:69-87 | the December default ends December 31; a missing bound falls back to the month |
| Accounts.DraftError | account/serializers.py:9-15 | the 400 message of a submission: a missing date, type or amount is required unless the request is partial, a given type must be a choice (quoted in the message), and the first failing field in the order date, type, amount is reported |
| Accounts.Create | account/views.py:38-40 | a new record is stored exactly when date, type and amount are all given and the type is a choice; it is owned by the requester, with those values, the fresh key, no categories and no title, appended and found by that key; otherwise the serializer's 400 and nothing stored |
| Accounts.InvalidTypeStoresNothing | account/tests/test_accounting_api.py:247-257 | a POST with type "invalid" is answered with 400 and stores nothing |
| Accounts.FindOwned | account/views.py:27-29 | the record is found only among the requester's own |
| Accounts.Update | account/serializers.py:9-22 | PUT, or PATCH when partial: 404 for a record the user does not own, then the serializer's 400 (a PUT needs every field); otherwise the given fields of that record are rewritten, every field not given and its id, owner, categories and title kept, and every other record kept |
| Accounts.PutNeedsEveryField | account/serializers.py:9-15 | a PUT that leaves out a field is refused with "This field is required." where the same PATCH succeeds |
| Accounts.FullPatchIsPut | account/tests/test_accounting_api.py:185-210 | a PATCH that gives date, type and amount does what a PUT does |
| Accounts.AmountPatchKeepsTheRest | account/tests/test_accounting_api.py:169-183 | a PATCH of the amount alone changes the amount and nothing else |
| Accounts.Destroy | account/views.py:27-29 | 404 for a record the user does not own, otherwise only that record is removed |
| Accounts.UpdateKeepsOthers | account/views.py:27-29 | an update leaves another user's records unchanged |
| Accounts.DestroyKeepsOthers | account/views.py:27-29 | a deletion leaves another user's records unchanged |
| Accounts.OthersTotalsUntouched | account/views.py:27-29 | a deletion leaves another user's totals unchanged |
| Accounts.CreateAddsToTotal | account/views.py:38-40 | a created record adds its amount to its owner's matching totals |
| UserSerializer.Validate | user/serializers.py:19-25 | `password_verify` is removed; "Passwords must match" exactly when both passwords are given and differ |
| UserSerializer.Strip | user/serializers.py:12-17 | the stripped text is the input less a whitespace prefix and a whitespace suffix, has no whitespace at either end, is empty exactly when the input is all whitespace, and leaves unpadded text as it is |
| UserSerializer.IsValid | user/serializers.py:10-25 | every declared field is stripped first; missing fields on a full submission, then blank fields, then password fields under five characters, then a mismatch are rejected; otherwise the stripped declared data minus `password_verify` |
| UserSerializer.PaddingIsStripped | user/serializers.py:12-17 | " abcd " strips to "abcd" and is too short |
| UserSerializer.PaddingStillMatches | user/serializers.py:12-17 | " abcde" matches the confirmation "abcde" |
| UserSerializer.WhitespaceIsBlank | user/serializers.py:12-17 | a field of whitespace alone is blank |
| UserSerializer.Create | user/serializers.py:27-30 | `create_user` gets the account, the password and the other fields |
| UserSerializer.Register | user/serializers.py:10-30 | among the checks modelled (presence, blank, minimum length, confirmation), a user is created exactly when every field is given, none is blank once stripped, both passwords have five characters and they match; the user has the stripped account, name and email and logs in with the stripped password |
| UserSerializer.Update | user/serializers.py:32-41 | the fields are assigned and others kept; a non-empty password is set; an empty or missing one leaves the password as it was |

## Left out

- Floating point: chart percentages are computed on exact rationals. `Charts.PercentageChange` returns hundredths of a percent as an integer, and the sentinel -101.0 is -10100.
- Timezones and `make_aware`: every date is a plain calendar date.
- Ordering ties: the database leaves the order of equal dates or totals open. The model sorts stably, earlier records first.
- `Sequences.SortDesc`: promises sortedness and permutation only, not any particular order among equal keys.
- The CSV writer's quoting and the `utf_8_sig` encoding: the statement is a table of cells.
- `store_csv_file`, the S3 upload, authentication and tokens, the dev views, the URL routing, the admin, the migrations and the swagger schema.
- `SaveMoneyAPIView` is not part of this model.
- The `MonthTarget` model's definition is not shown. Targets are a map from (user, year, month) to a pair of amounts.
- core/models.py defines no `title` on `Accounting`, yet reports/views.py:44 reads `accounting.title`. The record keeps a `title` field, as the reports code expects; a record created through the API gets the empty title `Accounts.NoTitle`.
- `Accounts.Create`: the new record's key is a parameter that must differ from every stored key, as the database assigns it; key assignment itself is not modelled.
- `Accounts.Create`: a given date and amount arrive already parsed, so the 400 answers to a date string the date field cannot read and to an amount that is not an integer are not modelled; missing fields and bad types are.
- `Accounts.Update`: the same holds for PUT and PATCH. Like `Accounts.DraftError`, it answers one message, for the first failing field in the order date, type, amount, where the framework reports every failing field at once.
- `Models.CreateUser`: `pk` is accepted as a keyword and kept under its own name; the model does not merge it with `id` as the primary-key property does.
- `DateText.Format`: always pads the year to four digits (999 prints as 0999). CPython releases before the change that pads `%Y` print 999 on Linux, so their labels differ for years below 1000, which parsed dates such as 0999-01-01 and previous periods can reach.
- `DateText.Parse`: reads ASCII digits only. Python's `\d` in the `%Y` and `%d` patterns also matches other Unicode decimal digits, which `int()` accepts.
- The database's 32-bit integer range for `amount`: amounts are unbounded integers.
- `UserSerializer.IsValid`: models presence, stripping, blank values, the minimum lengths and the confirmation. Email syntax, account uniqueness and the maximum lengths (255 for account, email and name; 128 for password, from the base user model; none for `password_verify`) are not modelled. It answers one message, in the order missing, blank, too short, mismatch, where the framework reports every failing field at once.
- `Reports.GenerateCsv`: the statement query has no ordering, so the database may return the rows in any order; the model writes them, and accumulates the running balance, in table order.
- `UserSerializer.Register`: inherits those drops, so it answers Ok for a duplicate account, a malformed email or an over-long value, where the serializer's unique, email and maximum-length validators answer 400.
- `UserSerializer.Update`: returns the updated user as a value, not an object saved in place.
- The daily-series loop, the share loop and the CSV row loop sit in their own methods (`Charts.DailySeries`, `TypeCost.RawEntries`, `Reports.WriteRows`). The view methods call them.
- `now` in the listing is a parameter (`today`), not the clock.
