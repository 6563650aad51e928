/** The records of the bookkeeping service (core/models.py) and the user manager's checks. */
module Models {
  import opened Wrappers
  import opened Calendar

  /** The primary key of a user. */
  type UserId = nat

  /** `Accounting.type`, restricted by TYPE_CHOICES to 'income' and 'outcome'. */
  datatype Kind = Income | Outcome

  function KindName(k: Kind): string
  {
    match k
    case Income => "income"
    case Outcome => "outcome"
  }

  /** The choice check a submitted `type` goes through before a record is stored. */
  function ParseKind(s: string): (r: Option<Kind>)
    ensures r.Some? <==> s == "income" || s == "outcome"
    ensures r.Some? ==> KindName(r.value) == s
  {
    if s == "income" then Some(Income) else if s == "outcome" then Some(Outcome) else None
  }

  lemma ParseKindName(k: Kind)
    ensures ParseKind(KindName(k)) == Some(k)
  {
  }

  /** A user's spending or earning category. */
  datatype Category = Category(id: nat, owner: UserId, name: string)

  /** One income or outcome transaction. `categories` lists the many-to-many links in the
      order the relation yields them. */
  datatype Accounting = Accounting(
    id: nat,
    owner: UserId,
    date: ValidDate,
    kind: Kind,
    amount: int,
    categories: seq<Category>,
    title: string)

  /** A month target row: the income and outcome goals of one user for one month. */
  datatype MonthTarget = MonthTarget(income: int, outcome: int)

  /** The MonthTarget table, unique per (user, year, month). */
  type MonthTargets = map<(UserId, int, int), MonthTarget>

  /** A keyword argument value passed to the user manager. */
  datatype Value = Flag(b: bool) | Text(s: string) | Number(n: int)

  /** `set_password(None)` leaves an unusable password; any string is hashed and kept. */
  datatype Password = Unusable | Usable(raw: string)

  /** A user: the login account, the password and the remaining model fields. */
  datatype User = User(account: string, password: Password, fields: map<string, Value>)

  /** The keywords besides `account` and `password` that the User constructor accepts: its
      fields, and `pk`, the property that sets the primary key. */
  const UserFields: set<string> := {"id", "pk", "name", "email", "is_active", "is_staff", "is_superuser", "last_login"}

  /** `user.check_password(raw)`. */
  predicate CheckPassword(u: User, raw: string)
  {
    u.password == Usable(raw)
  }

  /** A boolean model field, with the model's default when it was not given. */
  function FlagOf(u: User, name: string, default: bool): bool
  {
    if name in u.fields && u.fields[name].Flag? then u.fields[name].b else default
  }

  predicate IsStaff(u: User) { FlagOf(u, "is_staff", false) }
  predicate IsSuperuser(u: User) { FlagOf(u, "is_superuser", false) }
  predicate IsActive(u: User) { FlagOf(u, "is_active", true) }

  /** `UserManager.create_user`: an empty account raises ValueError; the model constructor
      raises TypeError on a keyword that is not a field; otherwise the user carries the
      account, the extra fields and the password. */
  function CreateUser(account: string, password: Option<string>, extra: map<string, Value>): (r: Result<User>)
    ensures account == "" ==> r == Err("ValueError: User must have an account")
    ensures r.Ok? <==> account != "" && extra.Keys <= UserFields
    ensures r.Ok? ==> r.value.account == account && r.value.fields == extra
    ensures r.Ok? && password.Some? ==> CheckPassword(r.value, password.value)
    ensures r.Ok? && password.None? ==> forall raw :: !CheckPassword(r.value, raw)
  {
    if account == "" then Err("ValueError: User must have an account")
    else if !(extra.Keys <= UserFields) then Err("TypeError: unexpected keyword arguments")
    else
      var pw := match password case Some(p) => Usable(p) case None => Unusable;
      Ok(User(account, pw, extra))
  }

  /** What `extra_fields.setdefault(name, True)` leaves under `name`. */
  function WithDefaultTrue(extra: map<string, Value>, name: string): Value
  {
    if name in extra then extra[name] else Flag(true)
  }

  /** The keyword arguments once both flags have their default: the extras and the two flags. */
  function SuperuserFields(extra: map<string, Value>): (f: map<string, Value>)
    ensures f.Keys == extra.Keys + {"is_staff", "is_superuser"}
    ensures forall k :: k in extra ==> f[k] == extra[k]
    ensures f["is_staff"] == WithDefaultTrue(extra, "is_staff")
    ensures f["is_superuser"] == WithDefaultTrue(extra, "is_superuser")
  {
    extra["is_staff" := WithDefaultTrue(extra, "is_staff")]["is_superuser" := WithDefaultTrue(extra, "is_superuser")]
  }

  /** `UserManager.create_superuser`: both flags default to True; a flag given as anything
      but the boolean True is refused; then `create_user` runs with the completed fields. */
  method CreateSuperuser(account: string, password: Option<string>, extra: map<string, Value>)
    returns (r: Result<User>)
    ensures account == "" ==> r == Err("ValueError: SuperUser must have an account")
    ensures account != "" && WithDefaultTrue(extra, "is_staff") != Flag(true) ==>
              r == Err("ValueError: Superuser must have is_staff=True.")
    ensures account != "" && WithDefaultTrue(extra, "is_staff") == Flag(true) &&
            WithDefaultTrue(extra, "is_superuser") != Flag(true) ==>
              r == Err("ValueError: Superuser must have is_superuser=True.")
    ensures r.Ok? <==> account != "" && extra.Keys <= UserFields &&
                       WithDefaultTrue(extra, "is_staff") == Flag(true) &&
                       WithDefaultTrue(extra, "is_superuser") == Flag(true)
    ensures r.Ok? ==> r.value.account == account && IsStaff(r.value) && IsSuperuser(r.value)
    ensures r.Ok? ==> r == CreateUser(account, password, SuperuserFields(extra))
    ensures r.Ok? ==> r.value.fields.Keys == extra.Keys + {"is_staff", "is_superuser"}
    ensures r.Ok? ==> forall k :: k in extra ==> r.value.fields[k] == extra[k]
    ensures r.Ok? && password.Some? ==> CheckPassword(r.value, password.value)
    ensures r.Ok? && password.None? ==> forall raw :: !CheckPassword(r.value, raw)
  {
    if account == "" {
      return Err("ValueError: SuperUser must have an account");
    }
    var fields := extra;
    if "is_superuser" !in fields {
      fields := fields["is_superuser" := Flag(true)];
    }
    if "is_staff" !in fields {
      fields := fields["is_staff" := Flag(true)];
    }
    if fields["is_staff"] != Flag(true) {
      return Err("ValueError: Superuser must have is_staff=True.");
    }
    if fields["is_superuser"] != Flag(true) {
      return Err("ValueError: Superuser must have is_superuser=True.");
    }
    assert fields == SuperuserFields(extra);
    r := CreateUser(account, password, fields);
  }
}
