/** src/api/V1/validations/registerValidation.js: the registration body.
    Names of 2 to 30 characters, an email address, a password of at least 8
    characters drawn from letters, digits and `@$!%*?&` with one of each
    class, a phone of 10 to 15 digits, an address, and optionally a
    non-empty array of role names; no other key. */
module RegisterValidation {
  import opened Wrappers
  import opened Text
  import opened Joi
  import UserModel

  const FIRST_EMPTY := "First name is required"
  const FIRST_MIN := "First name must be at least 2 characters"
  const FIRST_MAX := "First name must be at most 30 characters"
  const LAST_EMPTY := "Last name is required"
  const LAST_MIN := "Last name must be at least 2 characters"
  const LAST_MAX := "Last name must be at most 30 characters"
  const EMAIL_INVALID := "Please provide a valid email"
  const EMAIL_EMPTY := "Email is required"
  const PASSWORD_MIN := "Password must be at least 8 characters"
  const PASSWORD_EMPTY := "Password is required"
  const PASSWORD_PATTERN := "Password must include at least one uppercase letter, one lowercase letter, one number, and one special character (@$!%*?&)"
  const PHONE_PATTERN := "Phone number must be between 10 and 15 digits"
  const PHONE_EMPTY := "Phone number is required"
  const ADDRESS_EMPTY := "Address is required"

  /** The registration body; a key absent from the request is None, keys
      the schema does not declare are listed in `extra`. */
  datatype Body = Body(
    firstName: Option<string>,
    lastName: Option<string>,
    email: Option<string>,
    password: Option<string>,
    phone: Option<string>,
    address: Option<string>,
    roles: Option<seq<string>>,
    extra: seq<string>)

  predicate IsPasswordChar(c: char) {
    IsAlnum(c) || UserModel.IsPasswordSpecial(c)
  }

  /** `/^(?=.*[a-z])(?=.*[A-Z])(?=.*\d)(?=.*[@$!%*?&])[A-Za-z\d@$!%*?&]{8,}$/` */
  predicate PasswordPattern(s: string) {
    |s| >= 8 && (forall i | 0 <= i < |s| :: IsPasswordChar(s[i])) &&
    UserModel.HasLower(s) && UserModel.HasUpper(s) && UserModel.HasDigit(s) && UserModel.HasPasswordSpecial(s)
  }

  /** `/^[0-9]{10,15}$/` */
  predicate PhonePattern(s: string) {
    10 <= |s| <= 15 && AllDigits(s)
  }

  function NameKey(key: string, value: Option<string>, empty: string, min: string, max: string): seq<Detail> {
    StringKey(key, value, true, RequiredMessage(key), empty,
              [Check(|value.GetOr("")| >= 2, min), Check(|value.GetOr("")| <= 30, max)])
  }

  /** `"roles[i]"` of the item at index i. */
  function ItemLabel(i: nat): string {
    "\"roles[" + NatToString(i) + "]\""
  }

  /** The empty items of `roles`, from index `from` on, as `items(Joi.string())`
      reports them. */
  function EmptyItems(roles: seq<string>, from: nat): (r: seq<Detail>)
    requires from <= |roles|
    ensures r == [] <==> forall i | from <= i < |roles| :: roles[i] != ""
    decreases |roles| - from
  {
    if from == |roles| then []
    else (if roles[from] == "" then [Detail("roles", ItemLabel(from) + " is not allowed to be empty")] else []) +
         EmptyItems(roles, from + 1)
  }

  /** `Joi.array().items(Joi.string()).min(1).optional()` */
  function RolesKey(roles: Option<seq<string>>): (r: seq<Detail>)
    ensures r == [] <==> roles.None? || (|roles.value| >= 1 && forall i | 0 <= i < |roles.value| :: roles.value[i] != "")
  {
    match roles
    case None => []
    case Some(rs) =>
      EmptyItems(rs, 0) +
      (if |rs| < 1 then [Detail("roles", "\"roles\" must contain at least 1 items")] else [])
  }

  /** The failures of `registerUserValidation.validate(body)` in key order,
      unknown keys last. */
  function Details(b: Body): seq<Detail> {
    NameKey("firstName", b.firstName, FIRST_EMPTY, FIRST_MIN, FIRST_MAX) +
    NameKey("lastName", b.lastName, LAST_EMPTY, LAST_MIN, LAST_MAX) +
    StringKey("email", b.email, true, RequiredMessage("email"), EMAIL_EMPTY,
              [Check(IsEmail(b.email.GetOr("")), EMAIL_INVALID)]) +
    StringKey("password", b.password, true, RequiredMessage("password"), PASSWORD_EMPTY,
              [Check(|b.password.GetOr("")| >= 8, PASSWORD_MIN),
               Check(PasswordPattern(b.password.GetOr("")), PASSWORD_PATTERN)]) +
    StringKey("phone", b.phone, true, RequiredMessage("phone"), PHONE_EMPTY,
              [Check(PhonePattern(b.phone.GetOr("")), PHONE_PATTERN)]) +
    StringKey("address", b.address, true, RequiredMessage("address"), ADDRESS_EMPTY, []) +
    RolesKey(b.roles) +
    UnknownKeys(b.extra)
  }

  predicate NameOk(v: Option<string>) {
    v.Some? && 2 <= |v.value| <= 30
  }

  /** What the schema accepts, stated key by key. */
  predicate Accepts(b: Body) {
    NameOk(b.firstName) && NameOk(b.lastName) &&
    b.email.Some? && IsEmail(b.email.value) &&
    b.password.Some? && PasswordPattern(b.password.value) &&
    b.phone.Some? && PhonePattern(b.phone.value) &&
    b.address.Some? && b.address.value != "" &&
    (b.roles.Some? ==> |b.roles.value| >= 1 && forall i | 0 <= i < |b.roles.value| :: b.roles.value[i] != "") &&
    b.extra == []
  }

  /** The schema reports no failure exactly for the bodies it accepts. */
  lemma DetailsEmptyIff(b: Body)
    ensures Details(b) == [] <==> Accepts(b)
  {
    var first := NameKey("firstName", b.firstName, FIRST_EMPTY, FIRST_MIN, FIRST_MAX);
    var last := NameKey("lastName", b.lastName, LAST_EMPTY, LAST_MIN, LAST_MAX);
    var email := StringKey("email", b.email, true, RequiredMessage("email"), EMAIL_EMPTY,
                           [Check(IsEmail(b.email.GetOr("")), EMAIL_INVALID)]);
    var password := StringKey("password", b.password, true, RequiredMessage("password"), PASSWORD_EMPTY,
                              [Check(|b.password.GetOr("")| >= 8, PASSWORD_MIN),
                               Check(PasswordPattern(b.password.GetOr("")), PASSWORD_PATTERN)]);
    var phone := StringKey("phone", b.phone, true, RequiredMessage("phone"), PHONE_EMPTY,
                           [Check(PhonePattern(b.phone.GetOr("")), PHONE_PATTERN)]);
    var address := StringKey("address", b.address, true, RequiredMessage("address"), ADDRESS_EMPTY, []);
    assert Details(b) == first + last + email + password + phone + address + RolesKey(b.roles) + UnknownKeys(b.extra);
    NameKeyEmpty("firstName", b.firstName, FIRST_EMPTY, FIRST_MIN, FIRST_MAX);
    NameKeyEmpty("lastName", b.lastName, LAST_EMPTY, LAST_MIN, LAST_MAX);
    assert email == [] <==> b.email.Some? && IsEmail(b.email.value) by {
      assert !IsEmail("");
    }
    assert password == [] <==> b.password.Some? && PasswordPattern(b.password.value) by {
      if b.password.Some? && b.password.value != "" {
        FailedChecksOfTwo("password", Check(|b.password.value| >= 8, PASSWORD_MIN),
                          Check(PasswordPattern(b.password.value), PASSWORD_PATTERN));
      }
    }
    assert phone == [] <==> b.phone.Some? && PhonePattern(b.phone.value);
    assert address == [] <==> b.address.Some? && b.address.value != "";
  }

  /** A name key reports nothing exactly for a name of 2 to 30 characters. */
  lemma NameKeyEmpty(key: string, v: Option<string>, empty: string, min: string, max: string)
    ensures NameKey(key, v, empty, min, max) == [] <==> NameOk(v)
  {
    if v.Some? && v.value != "" {
      FailedChecksOfTwo(key, Check(|v.value| >= 2, min), Check(|v.value| <= 30, max));
    }
  }

  /** An empty first name is what the handler reports first, whatever else
      is wrong with the body. */
  lemma EmptyFirstNameReported(b: Body)
    requires b.firstName == Some("")
    ensures FirstMessage(Details(b)) == Some(FIRST_EMPTY)
  {
  }

  /** A name of 1 or of 31 characters is refused, of 2 or 30 accepted. */
  lemma NameBounds(v: string)
    ensures |v| == 1 ==> NameKey("firstName", Some(v), FIRST_EMPTY, FIRST_MIN, FIRST_MAX) == [Detail("firstName", FIRST_MIN)]
    ensures |v| == 31 ==> NameKey("firstName", Some(v), FIRST_EMPTY, FIRST_MIN, FIRST_MAX) == [Detail("firstName", FIRST_MAX)]
    ensures 2 <= |v| <= 30 ==> NameKey("firstName", Some(v), FIRST_EMPTY, FIRST_MIN, FIRST_MAX) == []
  {
    if |v| > 0 {
      assert v != "";
      FailedChecksOfTwo("firstName", Check(|v| >= 2, FIRST_MIN), Check(|v| <= 30, FIRST_MAX));
    }
  }

  /** A short password is reported with the length message before the
      pattern message. */
  lemma ShortPasswordReportedByLength(p: string)
    requires 0 < |p| < 8
    ensures StringKey("password", Some(p), true, RequiredMessage("password"), PASSWORD_EMPTY,
              [Check(|p| >= 8, PASSWORD_MIN), Check(PasswordPattern(p), PASSWORD_PATTERN)]) ==
            [Detail("password", PASSWORD_MIN), Detail("password", PASSWORD_PATTERN)]
  {
    assert p != "";
    FailedChecksOfTwo("password", Check(|p| >= 8, PASSWORD_MIN), Check(PasswordPattern(p), PASSWORD_PATTERN));
  }

  // ---------------------------------------------------------------------------
  // Inclusions between this schema and the User model's path rules.

  /** Every password this schema accepts passes the User model's password rule. */
  lemma PasswordPatternImpliesSchemaPassword(p: string)
    requires PasswordPattern(p)
    ensures UserModel.SchemaPassword(p)
  {
    forall i | 0 <= i < |p| ensures !IsLineTerminator(p[i]) {
      assert IsPasswordChar(p[i]);
    }
  }

  /** The User model's rule admits passwords this schema refuses: a space is
      not among the allowed characters. */
  lemma SchemaPasswordAdmitsMore()
    ensures UserModel.SchemaPassword("Aa1@ xyz") && !PasswordPattern("Aa1@ xyz")
  {
    var p := "Aa1@ xyz";
    assert IsUpper(p[0]) && IsLower(p[1]) && IsDigit(p[2]) && UserModel.IsPasswordSpecial(p[3]);
    assert !IsPasswordChar(p[4]);
  }

  /** Every phone this schema accepts passes the User model's phone rule. */
  lemma PhonePatternImpliesSchemaPhone(s: string)
    ensures PhonePattern(s) <==> UserModel.SchemaPhone(s)
  {
  }

  /** An address this schema accepts, lowercased as the `lowercase` setter
      stores it, matches the User model's `/.+@.+\..+/`. */
  lemma EmailImpliesSchemaPattern(e: string)
    requires IsEmail(e)
    ensures UserModel.EmailPattern(ToLower(e))
  {
    var a :| 0 < a < |e| && e[a] == '@' && '@' !in e[..a] && '@' !in e[a + 1..] && Domain(e[a + 1..]);
    var d := e[a + 1..];
    assert |d| > 0 && d[0] != '.' && d[|d| - 1] != '.' && '.' in d;
    var k :| 0 <= k < |d| && d[k] == '.';
    assert 0 < k < |d| - 1;
    var b := a + 1 + k;
    assert e[b] == d[k];
    var l := ToLower(e);
    assert |l| == |e|;
    assert l[a] == LowerChar(e[a]) == '@';
    assert l[b] == LowerChar(e[b]) == '.';
    forall j | 0 <= j < |l| ensures !IsLineTerminator(l[j]) {
      LowerKeepsLines(e[j]);
    }
    assert UserModel.EmailPatternAt(l, a, b);
  }

  /** Lower-casing never turns a character into a line terminator, or one
      into another character. */
  lemma LowerKeepsLines(c: char)
    ensures IsLineTerminator(LowerChar(c)) <==> IsLineTerminator(c)
  {
  }
}
