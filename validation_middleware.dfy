/** src/api/V1/middlewares/validationMiddleware.js: the forgot-password and
    reset-password schemas and `validateRequest`, which validates with
    `abortEarly: false` and answers 400 with every failure, or passes on. */
module ValidationMiddleware {
  import opened Wrappers
  import opened Text
  import opened Joi
  import UserModel
  import RegisterValidation

  const FORGOT_EMAIL_INVALID := "Please provide a valid email address"
  const FORGOT_EMAIL_REQUIRED := "Email is required"
  const TOKEN_REQUIRED := "Reset token is required"
  const NEW_PASSWORD_MIN := "Password must be at least 8 characters long"
  const NEW_PASSWORD_PATTERN := "Password must include one lowercase character, one uppercase character, a number, and a special character"
  const NEW_PASSWORD_REQUIRED := "New password is required"

  /** `/^(?=.*\d)(?=.*[a-z])(?=.*[A-Z])(?=.*[^a-zA-Z0-9]).{8,}$/`: since `.`
      stops at a line terminator and `.{8,}$` must reach the end, the whole
      string is free of them, and each look-ahead asks for one character of
      its class anywhere. */
  predicate ResetPassword(s: string) {
    |s| >= 8 && UserModel.NoLineTerminator(s) &&
    UserModel.HasDigit(s) && UserModel.HasLower(s) && UserModel.HasUpper(s) &&
    exists i | 0 <= i < |s| :: !IsAlnum(s[i])
  }

  /** The failures of `forgotPasswordSchema` for the body `{ email, ...extra }`. */
  function ForgotDetails(email: Option<string>, extra: seq<string>): seq<Detail> {
    StringKey("email", email, true, FORGOT_EMAIL_REQUIRED, EmptyMessage("email"),
              [Check(IsEmail(email.GetOr("")), FORGOT_EMAIL_INVALID)]) +
    UnknownKeys(extra)
  }

  /** The failures of `resetPasswordSchema` for `{ token, newPassword, ...extra }`. */
  function ResetDetails(token: Option<string>, newPassword: Option<string>, extra: seq<string>): seq<Detail> {
    StringKey("token", token, true, TOKEN_REQUIRED, EmptyMessage("token"), []) +
    StringKey("newPassword", newPassword, true, NEW_PASSWORD_REQUIRED, EmptyMessage("newPassword"),
              [Check(|newPassword.GetOr("")| >= 8, NEW_PASSWORD_MIN),
               Check(ResetPassword(newPassword.GetOr("")), NEW_PASSWORD_PATTERN)]) +
    UnknownKeys(extra)
  }

  /** What the middleware does: answer 400 with `{ errors }`, or call `next()`. */
  datatype Outcome = Rejected(status: nat, errors: seq<Detail>) | Next

  /** `validateRequest(schema)(req, res, next)` for a body whose failures are
      `details`: each `{ field: path[0], message }` is kept, in order. */
  function ValidateRequest(details: seq<Detail>): (r: Outcome)
    ensures r.Next? <==> details == []
    ensures r.Rejected? ==> r.status == 400 && r.errors == details
  {
    if details == [] then Next else Rejected(400, details)
  }

  /** The forgot-password body passes exactly when it is `{ email }` with an
      email address in it. */
  lemma ForgotAccepts(email: Option<string>, extra: seq<string>)
    ensures ValidateRequest(ForgotDetails(email, extra)).Next? <==> email.Some? && IsEmail(email.value) && extra == []
    ensures email.None? ==> ValidateRequest(ForgotDetails(email, extra)).errors[0] == Detail("email", FORGOT_EMAIL_REQUIRED)
  {
    assert !IsEmail("");
  }

  /** The reset body passes exactly when the token is a non-empty string and
      the new password meets the rule; a missing token is reported by name. */
  lemma ResetAccepts(token: Option<string>, newPassword: Option<string>, extra: seq<string>)
    ensures ValidateRequest(ResetDetails(token, newPassword, extra)).Next? <==>
              token.Some? && token.value != "" && newPassword.Some? && ResetPassword(newPassword.value) && extra == []
    ensures token.None? ==> ValidateRequest(ResetDetails(token, newPassword, extra)).errors[0] == Detail("token", TOKEN_REQUIRED)
  {
    if newPassword.Some? && newPassword.value != "" {
      var p := newPassword.value;
      FailedChecksOfTwo("newPassword", Check(|p| >= 8, NEW_PASSWORD_MIN), Check(ResetPassword(p), NEW_PASSWORD_PATTERN));
    }
  }

  /** Every failure is reported, not just the first: a short password with
      no digit and an unknown key give three errors. */
  lemma AllFailuresCollected(token: string, extra: string)
    requires token != ""
    ensures ValidateRequest(ResetDetails(Some(token), Some("abc"), [extra])) ==
            Rejected(400, [Detail("newPassword", NEW_PASSWORD_MIN), Detail("newPassword", NEW_PASSWORD_PATTERN),
                           Detail(extra, UnknownMessage(extra))])
  {
    FailedChecksOfTwo("newPassword", Check(|"abc"| >= 8, NEW_PASSWORD_MIN), Check(ResetPassword("abc"), NEW_PASSWORD_PATTERN));
  }

  // ---------------------------------------------------------------------------
  // Inclusions between the password rules.

  /** Every password accepted at registration is accepted for a reset. */
  lemma RegisterPasswordPassesReset(p: string)
    requires RegisterValidation.PasswordPattern(p)
    ensures ResetPassword(p)
  {
    RegisterValidation.PasswordPatternImpliesSchemaPassword(p);
    SchemaPasswordPassesReset(p);
  }

  /** Every password the User model's rule accepts is accepted for a reset:
      the model's special characters are not alphanumeric. */
  lemma SchemaPasswordPassesReset(p: string)
    requires UserModel.SchemaPassword(p)
    ensures ResetPassword(p)
  {
    var i :| 0 <= i < |p| && UserModel.IsPasswordSpecial(p[i]);
    assert !IsAlnum(p[i]);
  }

  /** The reset rule admits passwords the registration schema refuses, such
      as one whose only special character is '#'. */
  lemma ResetAdmitsMore()
    ensures ResetPassword("Abcdef1#") && !RegisterValidation.PasswordPattern("Abcdef1#")
    ensures !UserModel.SchemaPassword("Abcdef1#")
  {
    var p := "Abcdef1#";
    assert IsUpper(p[0]) && IsLower(p[1]) && IsDigit(p[6]) && !IsAlnum(p[7]);
    assert !RegisterValidation.IsPasswordChar(p[7]);
    assert forall i | 0 <= i < |p| :: !UserModel.IsPasswordSpecial(p[i]);
  }
}
