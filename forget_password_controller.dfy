/** src/api/V1/controllers/auth/forgetPasswordController.js:
    `forgotPasswordController`. The user is looked up by email, a reset link
    is built around an access token, and the reset mail is handed to the
    transport. Nothing is stored, so the handler is a function from the
    collection and the request to the reply and the mail sent. */
module ForgetPasswordController {
  import opened Wrappers
  import Text
  import opened UserModel
  import opened Environment
  import Jwt
  import TokenService
  import Mail

  const USER_NOT_FOUND := "User not found"
  const RESET_SENT := "Password reset email sent successfully"
  const RESET_MAIL_ERROR := "Error sending password reset email"

  datatype ForgotReply = ForgotReply(status: int, message: string)

  /** The reply and the mail delivered, if any. */
  datatype ForgotOutcome = ForgotOutcome(reply: ForgotReply, sent: Option<Mail.Mail>)

  /** `generateAccessToken({ userId: user._id }, '1h')`: the object is
      signed as the `userId` of the payload, and the second argument is
      ignored. */
  function ResetToken(env: Env, id: nat, nowMs: nat): (t: string)
    ensures Jwt.Decode(t) == Some(Jwt.Token(env.accessSecret, Jwt.UserIdClaim(Jwt.UserIdObject(id)),
                                            nowMs / 1000 + TokenService.ACCESS_TTL_SECONDS))
  {
    TokenService.GenerateAccessToken(env, Jwt.UserIdObject(id), nowMs)
  }

  /** `${process.env.FRONTEND_URL}/auth/reset-password/${resetToken}` */
  function ResetUrl(env: Env, token: string): string {
    env.frontendUrl + "/auth/reset-password/" + token
  }

  /** `forgotPasswordController(req, res)` for `req.body.email`. */
  function ForgotPassword(env: Env, usersUp: bool, docs: seq<User>, mailUp: bool, email: Option<string>, nowMs: nat)
    : (r: ForgotOutcome)
    ensures r.sent.Some? <==> r.reply.status == 200
    ensures r.sent.Some? ==> usersUp && mailUp && FindByEmail(docs, email).Some?
  {
    if !usersUp then ForgotOutcome(ForgotReply(500, RESET_MAIL_ERROR), None)
    else match FindByEmail(docs, email)
      case None => ForgotOutcome(ForgotReply(404, USER_NOT_FOUND), None)
      case Some(u) =>
        var m := Mail.ResetMail(u.email, ResetUrl(env, ResetToken(env, u.id, nowMs)), Some(u.firstName), Some(u.lastName));
        if !mailUp then ForgotOutcome(ForgotReply(500, RESET_MAIL_ERROR), None)
        else ForgotOutcome(ForgotReply(200, RESET_SENT), Some(m))
  }

  /** An email no user has gets 404 and no mail. */
  lemma UnknownEmailNotFound(env: Env, docs: seq<User>, mailUp: bool, email: Option<string>, nowMs: nat)
    requires FindByEmail(docs, email).None?
    ensures ForgotPassword(env, true, docs, mailUp, email, nowMs) == ForgotOutcome(ForgotReply(404, USER_NOT_FOUND), None)
  {
  }

  /** A known email gets the reset mail at the user's stored address; its
      link is the front-end URL, the reset path and a token whose payload is
      `{userId: {userId: id}}` under the access secret for one hour. */
  lemma ResetMailSent(env: Env, docs: seq<User>, email: string, nowMs: nat)
    requires FirstWithEmail(docs, Text.ToLower(email)).Some?
    ensures var u := FirstWithEmail(docs, Text.ToLower(email)).value;
            var r := ForgotPassword(env, true, docs, true, Some(email), nowMs);
            r.reply == ForgotReply(200, RESET_SENT) && r.sent.Some? &&
            r.sent.value.to == u.email && u.email == Text.ToLower(email) &&
            r.sent.value.text == env.frontendUrl + "/auth/reset-password/" + ResetToken(env, u.id, nowMs) &&
            Jwt.Decode(ResetToken(env, u.id, nowMs)).value.claims == Jwt.UserIdClaim(Jwt.UserIdObject(u.id))
  {
  }

  /** A transport failure is answered 500 after the lookup succeeded. */
  lemma SendFailureIsServerError(env: Env, docs: seq<User>, email: Option<string>, nowMs: nat)
    requires FindByEmail(docs, email).Some?
    ensures ForgotPassword(env, true, docs, false, email, nowMs) == ForgotOutcome(ForgotReply(500, RESET_MAIL_ERROR), None)
  {
  }

  /** The reset link stays valid for the access-token hour whatever expiry
      the caller asked for: the token does not depend on it. */
  lemma ResetTokenLifetime(env: Env, id: nat, signedAt: nat, nowMs: nat)
    requires signedAt <= nowMs < signedAt + 1000 * TokenService.ACCESS_TTL_SECONDS - signedAt % 1000
    ensures Jwt.Verify(env.accessSecret, ResetToken(env, id, signedAt), nowMs) == Ok(Jwt.UserIdClaim(Jwt.UserIdObject(id)))
  {
    TokenService.AccessTokenVerifies(env, Jwt.UserIdObject(id), signedAt, nowMs);
  }
}
