/** src/api/V1/validations/loginValidation.js: `email` a required email
    address, `password` a required string of at least 8 characters. */
module LoginValidation {
  import opened Wrappers
  import opened Joi

  const EMAIL_INVALID := "Veuillez fournir un email valide"
  const EMAIL_EMPTY := "L'email est requis"
  const PASSWORD_SHORT := "Le mot de passe doit comporter au moins 8 caractères"
  const PASSWORD_EMPTY := "Le mot de passe est requis"

  /** The failures of `loginValidation.validate({ email, password })`, in key order. */
  function Details(email: Option<string>, password: Option<string>): seq<Detail> {
    StringKey("email", email, true, RequiredMessage("email"), EMAIL_EMPTY,
              [Check(IsEmail(email.GetOr("")), EMAIL_INVALID)]) +
    StringKey("password", password, true, RequiredMessage("password"), PASSWORD_EMPTY,
              [Check(|password.GetOr("")| >= 8, PASSWORD_SHORT)])
  }

  /** What the schema accepts, stated directly. */
  predicate Accepts(email: Option<string>, password: Option<string>) {
    email.Some? && IsEmail(email.value) && password.Some? && |password.value| >= 8
  }

  /** The schema reports no failure exactly for the inputs it accepts. */
  lemma DetailsEmptyIff(email: Option<string>, password: Option<string>)
    ensures Details(email, password) == [] <==> Accepts(email, password)
  {
    if email.Some? && email.value == "" {
      assert !IsEmail("");
    }
  }

  /** The first failure, which is what the login handler reports. */
  lemma FirstFailure(email: Option<string>, password: Option<string>)
    ensures email.None? ==> FirstMessage(Details(email, password)) == Some(RequiredMessage("email"))
    ensures email == Some("") ==> FirstMessage(Details(email, password)) == Some(EMAIL_EMPTY)
    ensures email.Some? && IsEmail(email.value) && password == Some("") ==>
              FirstMessage(Details(email, password)) == Some(PASSWORD_EMPTY)
    ensures email.Some? && IsEmail(email.value) && password.None? ==>
              FirstMessage(Details(email, password)) == Some(RequiredMessage("password"))
  {
    var emailPart := StringKey("email", email, true, RequiredMessage("email"), EMAIL_EMPTY,
                               [Check(IsEmail(email.GetOr("")), EMAIL_INVALID)]);
    var passwordPart := StringKey("password", password, true, RequiredMessage("password"), PASSWORD_EMPTY,
                                  [Check(|password.GetOr("")| >= 8, PASSWORD_SHORT)]);
    assert Details(email, password) == emailPart + passwordPart;
    if email.None? {
      assert emailPart == [Detail("email", RequiredMessage("email"))];
    } else if email.value == "" {
      assert emailPart == [Detail("email", EMAIL_EMPTY)];
    } else if IsEmail(email.value) {
      assert emailPart == [];
      if password.None? {
        assert passwordPart == [Detail("password", RequiredMessage("password"))];
      }
    }
  }

  /** The length bound on the password is exactly 8. */
  lemma PasswordLengthBound(email: string, password: string)
    requires IsEmail(email)
    ensures |password| == 7 ==> FirstMessage(Details(Some(email), Some(password))) == Some(PASSWORD_SHORT)
    ensures |password| == 8 ==> Details(Some(email), Some(password)) == []
  {
    assert email != "" by { assert !IsEmail(""); }
    if |password| == 7 {
      assert password != "";
    }
    if |password| == 8 {
      assert password != "";
    }
  }
}
