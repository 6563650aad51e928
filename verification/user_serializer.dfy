/** `UserSerializer` of user/serializers.py: the field checks, the password confirmation, and
    the password handling on create and update. A payload is the submitted form as a map from
    field name to text. */
module UserSerializer {
  import opened Wrappers
  import opened Models

  type Payload = map<string, string>

  /** `Meta.fields` plus the declared `password_verify`; other keys are ignored. */
  const Declared: set<string> := {"account", "password", "password_verify", "email", "name"}

  /** `min_length` of `password` and of `password_verify`. */
  const MinLength := 5

  const MustMatch := "Passwords must match"
  const FieldRequired := "This field is required."
  const FieldBlank := "This field may not be blank."
  const FieldTooShort := "Ensure this field has at least 5 characters."

  /** Python's `str.isspace` on one character: the ASCII controls tab to carriage return and
      the file to unit separators, the space, and the Unicode spaces and line separators. */
  predicate IsSpace(c: char)
  {
    var n := c as int;
    9 <= n <= 13 || 28 <= n <= 32 || n == 0x85 || n == 0xA0 || n == 0x1680 ||
    0x2000 <= n <= 0x200A || n == 0x2028 || n == 0x2029 || n == 0x202F || n == 0x205F || n == 0x3000
  }

  /** Where `lstrip()` cuts `s`: the first position from `i` on that is not whitespace. */
  function StripStart(s: string, i: nat): (j: nat)
    requires i <= |s|
    ensures i <= j <= |s| && (j < |s| ==> !IsSpace(s[j]))
    ensures forall k :: i <= k < j ==> IsSpace(s[k])
    decreases |s| - i
  {
    if i < |s| && IsSpace(s[i]) then StripStart(s, i + 1) else i
  }

  /** Where `rstrip()` cuts `s[lo..j]`: the end of its last character that is not whitespace. */
  function StripEnd(s: string, lo: nat, j: nat): (e: nat)
    requires lo <= j <= |s|
    ensures lo <= e <= j && (lo < e ==> !IsSpace(s[e - 1]))
    ensures forall k :: e <= k < j ==> IsSpace(s[k])
  {
    if lo < j && IsSpace(s[j - 1]) then StripEnd(s, lo, j - 1) else j
  }

  /** `strip()`, which a `CharField` applies to its input before any other check: the result is
      the input less a whitespace prefix and a whitespace suffix, neither starts nor ends with
      whitespace, is empty exactly when the input is all whitespace, and is the input itself
      when that has no whitespace at either end. */
  function Strip(s: string): (r: string)
    ensures exists i, j :: 0 <= i <= j <= |s| && r == s[i..j] &&
              (forall k :: 0 <= k < i ==> IsSpace(s[k])) && (forall k :: j <= k < |s| ==> IsSpace(s[k]))
    ensures r != [] ==> !IsSpace(r[0]) && !IsSpace(r[|r| - 1])
    ensures r == [] <==> forall i :: 0 <= i < |s| ==> IsSpace(s[i])
    ensures (s == [] || (!IsSpace(s[0]) && !IsSpace(s[|s| - 1]))) ==> r == s
  {
    var i := StripStart(s, 0);
    s[i..StripEnd(s, i, |s|)]
  }

  /** The declared fields of a submission, each stripped as its `CharField` does. */
  function Cleaned(data: Payload): (v: Payload)
    ensures v.Keys == data.Keys * Declared
    ensures forall k :: k in v ==> v[k] == Strip(data[k])
  {
    map k | k in data && k in Declared :: Strip(data[k])
  }

  /** Some given field is empty once stripped. */
  predicate AnyBlank(v: Payload)
  {
    exists k :: k in v && v[k] == ""
  }

  /** A password field that is present and shorter than the minimum. */
  predicate TooShort(data: Payload, field: string)
  {
    field in data && |data[field]| < MinLength
  }

  /** Both passwords are given and differ. */
  predicate Mismatch(data: Payload)
  {
    "password" in data && "password_verify" in data && data["password"] != data["password_verify"]
  }

  /** `validate`: `password_verify` is removed from the data whatever happens; when both
      passwords were given they must be equal. The rest of the data is returned as it was. */
  method Validate(data: Payload) returns (r: Result<Payload>)
    ensures Mismatch(data) ==> r == Err(MustMatch)
    ensures !Mismatch(data) ==> r.Ok? && r.value == data - {"password_verify"}
    ensures r.Ok? ==> "password_verify" !in r.value
  {
    var d := data;
    var passwordVerify: Option<string> := None;
    if "password_verify" in d {
      passwordVerify := Some(d["password_verify"]);
      d := d - {"password_verify"};
    }
    if "password" in d && passwordVerify.Some? {
      if d["password"] != passwordVerify.value {
        return Err(MustMatch);
      }
    }
    r := Ok(d);
  }

  /** `is_valid`: unknown keys are dropped and every declared field is stripped; a full
      submission must carry every declared field; no field may be blank once stripped; each
      password field must have at least five characters after stripping; then `validate` runs
      on the stripped values. */
  method IsValid(data: Payload, partial: bool) returns (r: Result<Payload>)
    ensures var v := Cleaned(data);
            (!partial && !(Declared <= v.Keys) ==> r == Err(FieldRequired)) &&
            ((partial || Declared <= v.Keys) && AnyBlank(v) ==> r == Err(FieldBlank)) &&
            (((partial || Declared <= v.Keys) && !AnyBlank(v) &&
              (TooShort(v, "password") || TooShort(v, "password_verify"))) ==> r == Err(FieldTooShort)) &&
            (((partial || Declared <= v.Keys) && !AnyBlank(v) && !TooShort(v, "password") &&
              !TooShort(v, "password_verify") && Mismatch(v)) ==> r == Err(MustMatch)) &&
            (r.Ok? <==> (partial || Declared <= v.Keys) && !AnyBlank(v) && !TooShort(v, "password") &&
                        !TooShort(v, "password_verify") && !Mismatch(v)) &&
            (r.Ok? ==> r.value.Keys == data.Keys * Declared - {"password_verify"} &&
                       forall k :: k in r.value ==> r.value[k] == Strip(data[k]) && r.value[k] != "")
  {
    var known := map k | k in data && k in Declared :: Strip(data[k]);
    if !partial && !(Declared <= known.Keys) {
      return Err(FieldRequired);
    }
    if exists k :: k in known && known[k] == "" {
      return Err(FieldBlank);
    }
    if TooShort(known, "password") || TooShort(known, "password_verify") {
      return Err(FieldTooShort);
    }
    r := Validate(known);
  }

  /** `create`: `password_verify` is dropped and the rest goes to `create_user` — the account
      as the account, the password as the password, and the other fields as extra fields. A
      payload without account leaves `create_user` short of its positional argument. */
  method Create(validated: Payload) returns (r: Result<User>)
    ensures "account" !in validated ==> r == Err("TypeError")
    ensures "account" in validated ==>
              var extra := map k | k in validated && k !in {"account", "password", "password_verify"} :: Text(validated[k]);
              r == CreateUser(validated["account"],
                              if "password" in validated then Some(validated["password"]) else None, extra)
  {
    var d := validated - {"password_verify"};
    if "account" !in d {
      return Err("TypeError");
    }
    var password: Option<string> := if "password" in d then Some(d["password"]) else None;
    var extra := map k | k in d && k !in {"account", "password"} :: Text(d[k]);
    assert extra == map k | k in validated && k !in {"account", "password", "password_verify"} :: Text(validated[k]);
    r := CreateUser(d["account"], password, extra);
  }

  /** Signing up: validation, then creation. A complete submission whose stripped fields
      pass the checks creates a user, and nothing else does; that user has the stripped account,
      logs in with the stripped password and holds the stripped email and name. */
  method Register(data: Payload) returns (r: Result<User>)
    ensures var v := Cleaned(data);
            r.Ok? <==> Declared <= data.Keys && !AnyBlank(v) && !TooShort(v, "password") &&
                       !TooShort(v, "password_verify") && !Mismatch(v)
    ensures var v := Cleaned(data);
            (Declared <= data.Keys && !AnyBlank(v) && !TooShort(v, "password") && !TooShort(v, "password_verify") &&
             Mismatch(v)) ==> r == Err(MustMatch)
    ensures r.Ok? ==> "account" in data && "password" in data &&
                      r.value.account == Strip(data["account"]) && CheckPassword(r.value, Strip(data["password"]))
    ensures r.Ok? ==> "email" in data && "name" in data &&
                      r.value.fields == map["email" := Text(Strip(data["email"])), "name" := Text(Strip(data["name"]))]
  {
    var v := IsValid(data, false);
    if v.Err? {
      return Err(v.error);
    }
    var validated := v.value;
    assert Declared <= Cleaned(data).Keys;
    ValidatedKeys(data.Keys);
    ExtraFields(validated);
    r := Create(validated);
  }

  /** A complete submission keeps the declared fields but the confirmation. */
  lemma ValidatedKeys(keys: set<string>)
    requires Declared <= keys
    ensures keys * Declared - {"password_verify"} == {"account", "password", "email", "name"}
  {
  }

  /** A validated sign-up hands exactly its email and name to `create_user` as extra fields. */
  lemma ExtraFields(validated: Payload)
    requires validated.Keys == {"account", "password", "email", "name"}
    ensures var extra := map k | k in validated && k !in {"account", "password", "password_verify"} :: Text(validated[k]);
            extra == map["email" := Text(validated["email"]), "name" := Text(validated["name"])] &&
            extra.Keys <= UserFields
  {
    var extra := map k | k in validated && k !in {"account", "password", "password_verify"} :: Text(validated[k]);
    assert extra.Keys == {"email", "name"};
  }

  /** `update`: the password is taken out of the generic attribute update, the account and the
      other fields are assigned, and the password is set only when it is not empty. */
  method Update(instance: User, validated: Payload) returns (user: User)
    ensures user.account == if "account" in validated then validated["account"] else instance.account
    ensures forall k :: k in validated && k !in {"account", "password"} ==>
              k in user.fields && user.fields[k] == Text(validated[k])
    ensures forall k :: k in instance.fields && k !in validated ==>
              k in user.fields && user.fields[k] == instance.fields[k]
    ensures user.fields.Keys == instance.fields.Keys + (validated.Keys - {"account", "password"})
    ensures "password" in validated && validated["password"] != "" ==> CheckPassword(user, validated["password"])
    ensures !("password" in validated && validated["password"] != "") ==> user.password == instance.password
  {
    var password: Option<string> := if "password" in validated then Some(validated["password"]) else None;
    user := instance;
    if "account" in validated {
      user := user.(account := validated["account"]);
    }
    var attrs := map k | k in validated && k !in {"account", "password"} :: Text(validated[k]);
    user := user.(fields := user.fields + attrs);
    if password.Some? && password.value != "" {
      user := user.(password := Usable(password.value));
    }
  }

  /** Padding does not count towards the length: a padded four-letter password is too short. */
  lemma PaddingIsStripped()
    ensures Strip(" abcd ") == "abcd"
    ensures TooShort(Cleaned(map["password" := " abcd "]), "password")
  {
    assert StripStart(" abcd ", 1) == 1;
    assert StripEnd(" abcd ", 1, 5) == 5;
  }

  /** A password that differs from its confirmation only by padding matches it. */
  lemma PaddingStillMatches()
    ensures !Mismatch(Cleaned(map["password" := " abcde", "password_verify" := "abcde"]))
  {
    var m := map["password" := " abcde", "password_verify" := "abcde"];
    assert Strip(" abcde") == "abcde" by {
      assert StripStart(" abcde", 1) == 1;
      assert StripEnd(" abcde", 1, 6) == 6;
    }
    assert Strip("abcde") == "abcde";
    assert Cleaned(m)["password"] == Cleaned(m)["password_verify"];
  }

  /** A field of whitespace alone is blank. */
  lemma WhitespaceIsBlank()
    ensures AnyBlank(Cleaned(map["name" := " \t"]))
  {
    assert Strip(" \t") == "";
    assert Cleaned(map["name" := " \t"])["name"] == "";
  }
}
