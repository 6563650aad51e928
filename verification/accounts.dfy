/** The record endpoints of account/views.py (`AccountingViewSet`): the user's records latest
    first, the range a listing covers, and ownership on create, update and delete. */
module Accounts {
  import opened Wrappers
  import opened Calendar
  import opened DateText
  import opened Models
  import opened Ledger
  import opened Sequences

  /** The sort key of `order_by('-date')`. */
  function DateKey(a: Accounting): int { Ordinal(a.date) }

  /** `get_queryset`: the user's records, latest date first. */
  function OwnRecords(table: seq<Accounting>, user: UserId): (r: seq<Accounting>)
    ensures forall a :: a in r <==> a in table && a.owner == user
    ensures SortedDesc(r, DateKey)
    ensures multiset(r) == multiset(Filter(table, OwnedBy(user)))
  {
    var own := Filter(table, OwnedBy(user));
    var r := SortDesc(own, DateKey);
    assert forall a :: a in r <==> a in multiset(own);
    r
  }

  /** A query parameter that is present and not empty. */
  predicate Truthy(p: Option<string>)
  {
    p.Some? && p.value != ""
  }

  /** The dates a listing covers: the given range when both ends are given (a date strptime
      rejects raises ValueError), otherwise the calendar month of `today`, whose end is the first
      of the next month (January of the next year after December) minus one day. */
  function ListRange(fromParam: Option<string>, endParam: Option<string>, today: ValidDate): (r: Result<(Date, Date)>)
    ensures r.Ok? ==> Valid(r.value.0) && Valid(r.value.1)
    ensures Truthy(fromParam) && Truthy(endParam) ==>
              (r.Ok? <==> Parse(fromParam.value).Ok? && Parse(endParam.value).Ok?) &&
              (r.Ok? ==> r.value == (Parse(fromParam.value).value, Parse(endParam.value).value))
    ensures !(Truthy(fromParam) && Truthy(endParam)) ==>
              (r.Ok? <==> !(today.year == MaxYear && today.month == 12)) &&
              (r.Ok? ==> r.value == (Date(today.year, today.month, 1),
                                     Date(today.year, today.month, DaysInMonth(today.year, today.month))))
  {
    if Truthy(fromParam) && Truthy(endParam) then
      match Parse(fromParam.value)
      case Err(msg) => Err(msg)
      case Ok(f) =>
        match Parse(endParam.value)
        case Err(msg) => Err(msg)
        case Ok(e) => Ok((f, e))
    else MonthBounds(today.year, today.month)
  }

  /** The body of a listing response. */
  datatype Listing = Listing(from: string, end: string, data: seq<Accounting>)

  /** `AccountingViewSet.list`: the user's records within the chosen range, latest first, with
      the range echoed as YYYY-MM-DD. */
  function List(table: seq<Accounting>, user: UserId, fromParam: Option<string>, endParam: Option<string>,
                today: ValidDate): (r: Result<Listing>)
    ensures r.Ok? <==> ListRange(fromParam, endParam, today).Ok?
    ensures r.Err? ==> r.error == ListRange(fromParam, endParam, today).error
    ensures r.Ok? ==>
              var (lo, hi) := ListRange(fromParam, endParam, today).value;
              r.value.from == Format(lo) && r.value.end == Format(hi) &&
              SortedDesc(r.value.data, DateKey) &&
              (forall a :: a in r.value.data <==> a in table && a.owner == user && Ordinal(lo) <= Ordinal(a.date) <= Ordinal(hi)) &&
              multiset(r.value.data) == multiset(Filter(table, Within(user, lo, hi)))
  {
    match ListRange(fromParam, endParam, today)
    case Err(msg) => Err(msg)
    case Ok((lo, hi)) =>
      var data := Filter(OwnRecords(table, user), (a: Accounting) => InRange(a, lo, hi));
      FilterSortedDesc(OwnRecords(table, user), DateKey, (a: Accounting) => InRange(a, lo, hi));
      FilterPermutation(OwnRecords(table, user), Filter(table, OwnedBy(user)), (a: Accounting) => InRange(a, lo, hi));
      FilterTwice(table, OwnedBy(user), (a: Accounting) => InRange(a, lo, hi), Within(user, lo, hi));
      Ok(Listing(Format(lo), Format(hi), data))
  }

  /** Without both bounds, a listing holds the user's records of the current month. */
  lemma DefaultListIsCurrentMonth(table: seq<Accounting>, user: UserId, fromParam: Option<string>,
                                  endParam: Option<string>, today: ValidDate)
    requires !(Truthy(fromParam) && Truthy(endParam))
    requires !(today.year == MaxYear && today.month == 12)
    ensures var r := List(table, user, fromParam, endParam, today);
            r.Ok? &&
            forall a :: a in r.value.data <==>
              a in table && a.owner == user && a.date.year == today.year && a.date.month == today.month
  {
    var r := List(table, user, fromParam, endParam, today);
    var (lo, hi) := ListRange(fromParam, endParam, today).value;
    assert (lo, hi) == MonthBounds(today.year, today.month).value;
    forall a | a in table
      ensures (Ordinal(lo) <= Ordinal(a.date) <= Ordinal(hi)) <==> (a.date.year == today.year && a.date.month == today.month)
    {
      MonthBoundsExact(today.year, today.month, a.date);
    }
  }

  /** The December default runs to December 31 and the range of a given month is echoed. */
  lemma ListRangeExamples()
    ensures ListRange(None, None, Date(2023, 12, 15)) == Ok((Date(2023, 12, 1), Date(2023, 12, 31)))
    ensures ListRange(Some(""), Some("2024-01-31"), Date(2024, 2, 10)) == Ok((Date(2024, 2, 1), Date(2024, 2, 29)))
  {
  }

  // ----- create, update, destroy -----

  /** A submitted record: the serializer's writable fields are date, type and amount (the id is
      read only), each absent or given, so categories and a title are never written here. */
  datatype Draft = Draft(date: Option<ValidDate>, kind: Option<string>, amount: Option<int>)

  /** Every writable field was given. */
  predicate Complete(d: Draft)
  {
    d.date.Some? && d.kind.Some? && d.amount.Some?
  }

  /** The message of the 400 answer to a writable field left out of a POST or a PUT. */
  const FieldRequired := "This field is required."

  /** The message of the 400 answer to a type outside the choices, quoting the submitted type. */
  function InvalidChoice(kind: string): (m: string)
    ensures |m| == |kind| + 25 && m[0] == '"' && m[1..|kind| + 1] == kind
  {
    "\"" + kind + "\" is not a valid choice."
  }

  /** The message of the 404 answer to a record the user does not own. */
  const NotFound := "Not found."

  /** The title a record gets when none is written: the model has no title column. */
  const NoTitle := ""

  /** The serializer's verdict on a submission, reporting the first failing field in the order
      date, type, amount: a field left out fails unless the request is `partial` (a PATCH), and a
      given type must be one of the choices. */
  function DraftError(d: Draft, partial: bool): (e: Option<string>)
    ensures e.None? <==> (partial || Complete(d)) && (d.kind.Some? ==> ParseKind(d.kind.value).Some?)
    ensures !partial && d.date.None? ==> e == Some(FieldRequired)
    ensures !partial && d.date.Some? && d.kind.None? ==> e == Some(FieldRequired)
    ensures (partial || d.date.Some?) && d.kind.Some? && ParseKind(d.kind.value).None? ==>
              e == Some(InvalidChoice(d.kind.value))
    ensures !partial && d.date.Some? && d.kind.Some? && ParseKind(d.kind.value).Some? && d.amount.None? ==>
              e == Some(FieldRequired)
  {
    if !partial && d.date.None? then Some(FieldRequired)
    else if !partial && d.kind.None? then Some(FieldRequired)
    else if d.kind.Some? && ParseKind(d.kind.value).None? then Some(InvalidChoice(d.kind.value))
    else if !partial && d.amount.None? then Some(FieldRequired)
    else None
  }

  /** `perform_create` after validation: every field is required, and a missing field or a type
      outside the choices is refused and nothing is stored; otherwise the new record belongs to
      the requester, carries the fresh key the database assigns, no categories and no title. */
  function Create(table: seq<Accounting>, user: UserId, id: nat, d: Draft): (r: Result<seq<Accounting>>)
    requires forall j :: 0 <= j < |table| ==> table[j].id != id
    ensures r.Ok? <==> Complete(d) && ParseKind(d.kind.value).Some?
    ensures r.Err? ==> Some(r.error) == DraftError(d, false)
    ensures r.Ok? ==> |r.value| == |table| + 1 && r.value[..|table|] == table
    ensures r.Ok? ==> var a := r.value[|table|];
              a.id == id && a.owner == user && a.date == d.date.value && KindName(a.kind) == d.kind.value &&
              a.amount == d.amount.value && a.categories == [] && a.title == NoTitle
    ensures r.Ok? ==> FindOwned(r.value, user, id) == Some(|table|)
  {
    match DraftError(d, false)
    case Some(e) => Err(e)
    case None =>
      var r := table + [Accounting(id, user, d.date.value, ParseKind(d.kind.value).value, d.amount.value, [], NoTitle)];
      assert r[..|table|] == table;
      Ok(r)
  }

  /** The request of the type validation test: a well-formed record whose type is "invalid" is
      answered with 400 and nothing is stored. */
  lemma InvalidTypeStoresNothing(table: seq<Accounting>, user: UserId, id: nat, date: ValidDate, amount: int)
    requires forall j :: 0 <= j < |table| ==> table[j].id != id
    ensures Create(table, user, id, Draft(Some(date), Some("invalid"), Some(amount))) ==
            Err(InvalidChoice("invalid"))
  {
    var d := Draft(Some(date), Some("invalid"), Some(amount));
    assert DraftError(d, false) == Some(InvalidChoice("invalid"));
  }

  /** `get_object` through `get_queryset`: the position of the record with this id among the
      user's records, if any. */
  function FindOwned(table: seq<Accounting>, user: UserId, id: nat): (r: Option<nat>)
    ensures r.Some? ==> r.value < |table| && table[r.value].id == id && table[r.value].owner == user
    ensures r.None? <==> forall i :: 0 <= i < |table| ==> !(table[i].id == id && table[i].owner == user)
  {
    if table == [] then None
    else if table[0].id == id && table[0].owner == user then Some(0)
    else
      match FindOwned(table[1..], user, id)
      case None => None
      case Some(i) => Some(i + 1)
  }

  /** `update`, a PUT, or with `partial` a PATCH: 404 unless the user owns the record, then the
      serializer's 400; a successful update rewrites the given fields of that record only and
      keeps its id, owner, categories and title, every field not given, and every other record. */
  function Update(table: seq<Accounting>, user: UserId, id: nat, d: Draft, partial: bool): (r: Result<seq<Accounting>>)
    ensures FindOwned(table, user, id).None? ==> r == Err(NotFound)
    ensures FindOwned(table, user, id).Some? ==>
              (r.Ok? <==> DraftError(d, partial).None?) && (r.Err? ==> Some(r.error) == DraftError(d, partial))
    ensures r.Ok? && !partial ==> Complete(d)
    ensures r.Ok? ==> |r.value| == |table|
    ensures r.Ok? ==> var i := FindOwned(table, user, id).value;
              (forall j :: 0 <= j < |table| && j != i ==> r.value[j] == table[j]) &&
              r.value[i].id == id && r.value[i].owner == user &&
              r.value[i].categories == table[i].categories && r.value[i].title == table[i].title &&
              (d.date.Some? ==> r.value[i].date == d.date.value) &&
              (d.date.None? ==> r.value[i].date == table[i].date) &&
              (d.kind.Some? ==> KindName(r.value[i].kind) == d.kind.value) &&
              (d.kind.None? ==> r.value[i].kind == table[i].kind) &&
              (d.amount.Some? ==> r.value[i].amount == d.amount.value) &&
              (d.amount.None? ==> r.value[i].amount == table[i].amount)
  {
    match FindOwned(table, user, id)
    case None => Err(NotFound)
    case Some(i) =>
      match DraftError(d, partial)
      case Some(e) => Err(e)
      case None =>
        var a := table[i];
        var date := if d.date.Some? then d.date.value else a.date;
        var kind := if d.kind.Some? then ParseKind(d.kind.value).value else a.kind;
        var amount := if d.amount.Some? then d.amount.value else a.amount;
        Ok(table[i := a.(date := date, kind := kind, amount := amount)])
  }

  /** A PATCH that gives every field does what a PUT does. */
  lemma FullPatchIsPut(table: seq<Accounting>, user: UserId, id: nat, d: Draft)
    requires Complete(d)
    ensures Update(table, user, id, d, true) == Update(table, user, id, d, false)
  {
  }

  /** A PUT that leaves a field out is refused, where the same PATCH goes through. */
  lemma PutNeedsEveryField(table: seq<Accounting>, user: UserId, id: nat, d: Draft)
    requires FindOwned(table, user, id).Some? && !Complete(d)
    requires d.kind.Some? ==> ParseKind(d.kind.value).Some?
    ensures Update(table, user, id, d, false) == Err(FieldRequired)
    ensures Update(table, user, id, d, true).Ok?
  {
  }

  /** A PATCH of the amount alone keeps the record's date, type, categories and title. */
  lemma AmountPatchKeepsTheRest(table: seq<Accounting>, user: UserId, id: nat, amount: int)
    requires FindOwned(table, user, id).Some?
    ensures var r := Update(table, user, id, Draft(None, None, Some(amount)), true);
            var i := FindOwned(table, user, id).value;
            r.Ok? && r.value == table[i := table[i].(amount := amount)]
  {
  }

  /** Destroy: 404 unless the user owns the record; otherwise that record is removed. */
  function Destroy(table: seq<Accounting>, user: UserId, id: nat): (r: Result<seq<Accounting>>)
    ensures FindOwned(table, user, id).None? <==> r == Err(NotFound)
    ensures r.Ok? ==> var i := FindOwned(table, user, id).value;
              r.value == table[..i] + table[i + 1..]
  {
    match FindOwned(table, user, id)
    case None => Err(NotFound)
    case Some(i) => Ok(table[..i] + table[i + 1..])
  }

  lemma FilterAround(pre: seq<Accounting>, x: Accounting, post: seq<Accounting>, p: Accounting -> bool)
    ensures Filter(pre + [x] + post, p) == Filter(pre, p) + Filter([x], p) + Filter(post, p)
  {
    FilterConcat(pre + [x], post, p);
    FilterConcat(pre, [x], p);
  }

  /** An update by one user leaves another user's records as they were. */
  lemma UpdateKeepsOthers(table: seq<Accounting>, user: UserId, other: UserId, id: nat, d: Draft, partial: bool)
    requires other != user && Update(table, user, id, d, partial).Ok?
    ensures Filter(Update(table, user, id, d, partial).value, OwnedBy(other)) == Filter(table, OwnedBy(other))
  {
    var p := OwnedBy(other);
    var i := FindOwned(table, user, id).value;
    var t := Update(table, user, id, d, partial).value;
    assert table == table[..i] + [table[i]] + table[i + 1..];
    assert t == table[i := t[i]];
    ReplaceAt(table, i, t[i]);
    FilterAround(table[..i], table[i], table[i + 1..], p);
    FilterAround(table[..i], t[i], table[i + 1..], p);
  }

  /** A deletion by one user leaves another user's records as they were. */
  lemma DestroyKeepsOthers(table: seq<Accounting>, user: UserId, other: UserId, id: nat)
    requires other != user && Destroy(table, user, id).Ok?
    ensures Filter(Destroy(table, user, id).value, OwnedBy(other)) == Filter(table, OwnedBy(other))
  {
    var p := OwnedBy(other);
    var i := FindOwned(table, user, id).value;
    assert table == table[..i] + [table[i]] + table[i + 1..];
    FilterAround(table[..i], table[i], table[i + 1..], p);
    FilterConcat(table[..i], table[i + 1..], p);
  }

  /** So another user's totals, and hence charts, are unchanged by the request. */
  lemma OthersTotalsUntouched(table: seq<Accounting>, user: UserId, other: UserId, id: nat,
                              lo: ValidDate, hi: ValidDate, kind: Kind)
    requires other != user && Destroy(table, user, id).Ok?
    ensures PeriodTotal(Destroy(table, user, id).value, other, lo, hi, kind) == PeriodTotal(table, other, lo, hi, kind)
  {
    DestroyKeepsOthers(table, user, other, id);
    PeriodTotalOwnRowsOnly(Destroy(table, user, id).value, table, other, lo, hi, kind);
  }

  /** A created record counts in its owner's totals exactly from then on. */
  lemma CreateAddsToTotal(table: seq<Accounting>, user: UserId, id: nat, d: Draft, lo: ValidDate, hi: ValidDate)
    requires forall j :: 0 <= j < |table| ==> table[j].id != id
    requires Create(table, user, id, d).Ok?
    ensures var k := ParseKind(d.kind.value).value;
            PeriodTotal(Create(table, user, id, d).value, user, lo, hi, k) ==
            PeriodTotal(table, user, lo, hi, k) +
            (if Ordinal(lo) <= Ordinal(d.date.value) <= Ordinal(hi) then d.amount.value else 0)
  {
    var t := Create(table, user, id, d).value;
    assert t == table + [t[|table|]];
    PeriodTotalAppend(table, t[|table|], user, lo, hi, ParseKind(d.kind.value).value);
  }
}
