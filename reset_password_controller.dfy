/** src/api/V1/controllers/auth/resetPasswordController.js:
    `resetPasswordController`. The token is checked with `jwtHelper`'s
    `verifyToken`, the user named by its `id` is loaded, the new password is
    hashed and written with validators off, and the confirmation mail is
    sent. */
module ResetPasswordController {
  import opened Wrappers
  import opened UserModel
  import opened AppState
  import opened Environment
  import Jwt
  import JwtHelper
  import Bcrypt
  import Mail

  const TOKEN_INVALID := "Password reset token is invalid or has expired"
  const USER_NOT_FOUND := "User not found"
  const RESET_DONE := "Password has been reset successfully"
  const SERVER_ERROR := "Server error. Please try again later."
  /** What `bcrypt.hash` throws for a missing password. */
  const ILLEGAL_ARGUMENTS := "Illegal arguments: undefined, string"

  /** `req.body.token` and `req.body.newPassword`. */
  datatype ResetRequest = ResetRequest(token: Option<string>, newPassword: Option<string>)

  datatype ResetReply = ResetReply(status: int, message: string)

  datatype ResetStep = ResetStep(reply: ResetReply, world: World)

  /** `resetPasswordController(req, res)` on the world `w`; `salt` is what
      `bcrypt.genSalt` yields. */
  function ResetPassword(env: Env, w: World, req: ResetRequest, salt: nat, nowMs: nat): (r: ResetStep)
    ensures r.world == w.(users := r.world.users, outbox := r.world.outbox)
    ensures r.reply.status == 200 ==> r.world.outbox != w.outbox
  {
    match JwtHelper.VerifyToken(env, req.token, nowMs)
    case None => ResetStep(ResetReply(400, TOKEN_INVALID), w)
    case Some(claims) =>
      if !w.usersUp then ResetStep(ResetReply(500, SERVER_ERROR), w)
      else match LookupById(w.users, Jwt.IdOf(claims))
        case Err(_) => ResetStep(ResetReply(500, SERVER_ERROR), w)
        case Ok(None) => ResetStep(ResetReply(400, USER_NOT_FOUND), w)
        case Ok(Some(u)) =>
          if req.newPassword.None? then ResetStep(ResetReply(500, SERVER_ERROR), w)
          else
            var digest := Bcrypt.Hash(Bcrypt.Plain(req.newPassword.value), salt);
            var m := Mail.ResetConfirmationMail(u.email, Some(u.firstName), Some(u.lastName));
            var w1 := w.(users := AfterUpdate(w.users, u.id, SetPassword(digest)),
                         outbox := Mail.Delivered(w.mailUp, w.outbox, m));
            if !w.mailUp then ResetStep(ResetReply(500, SERVER_ERROR), w1)
            else ResetStep(ResetReply(200, RESET_DONE), w1)
  }

  /** `resetPasswordController(req, res)` against the stores. */
  method ResetPasswordHandler(app: App, env: Env, req: ResetRequest, salt: nat, nowMs: nat) returns (reply: ResetReply)
    modifies app.users, app.mailer
    ensures ResetStep(reply, app.Snapshot()) == ResetPassword(env, old(app.Snapshot()), req, salt, nowMs)
  {
    var decoded := JwtHelper.VerifyToken(env, req.token, nowMs);
    if decoded.None? {
      return ResetReply(400, TOKEN_INVALID);
    }
    var found := app.users.FindById(Jwt.IdOf(decoded.value));
    if found.Err? {
      return ResetReply(500, SERVER_ERROR);
    }
    if found.value.None? {
      return ResetReply(400, USER_NOT_FOUND);
    }
    var u := found.value.value;
    if req.newPassword.None? {
      return ResetReply(500, SERVER_ERROR);
    }
    var digest := Bcrypt.Hash(Bcrypt.Plain(req.newPassword.value), salt);
    var _ := app.users.UpdateOne(u.id, SetPassword(digest));
    var failure := app.mailer.SendPasswordResetConfirmationEmail(u.email, Some(u.firstName), Some(u.lastName));
    if failure.Some? {
      return ResetReply(500, SERVER_ERROR);
    }
    reply := ResetReply(200, RESET_DONE);
  }

  // ---------------------------------------------------------------------------
  // Properties.

  /** A token `verifyToken` rejects (a missing one included) gets 400 with
      no lookup and no write. */
  lemma RejectedTokenChangesNothing(env: Env, w: World, req: ResetRequest, salt: nat, nowMs: nat)
    requires req.token.None? || Jwt.Verify(env.jwtSecret, req.token.value, nowMs).Err?
    ensures ResetPassword(env, w, req, salt, nowMs) == ResetStep(ResetReply(400, TOKEN_INVALID), w)
  {
  }

  /** A valid token naming no stored user gets 400 and no write. */
  lemma UnknownUserNoWrite(env: Env, w: World, id: nat, password: Option<string>, salt: nat, signedAt: nat, nowMs: nat)
    requires w.usersUp && FirstWithId(w.users, id).None?
    requires signedAt <= nowMs < signedAt + 1000 * JwtHelper.TOKEN_TTL_SECONDS - signedAt % 1000
    ensures var req := ResetRequest(Some(JwtHelper.GenerateToken(env, id, signedAt)), password);
            ResetPassword(env, w, req, salt, nowMs) == ResetStep(ResetReply(400, USER_NOT_FOUND), w)
  {
    JwtHelper.GenerateTokenVerifies(env, id, signedAt, nowMs);
  }

  /** A live `generateToken` token for a stored user sets that user's
      password to one hash of the new password, which then compares equal to
      it, changes no other field and no other user, and mails the
      confirmation to the stored address. */
  lemma ResetSetsOnlyPassword(env: Env, w: World, id: nat, password: string, salt: nat, signedAt: nat, nowMs: nat, other: nat)
    requires w.usersUp && w.mailUp && FirstWithId(w.users, id).Some?
    requires signedAt <= nowMs < signedAt + 1000 * JwtHelper.TOKEN_TTL_SECONDS - signedAt % 1000
    ensures var req := ResetRequest(Some(JwtHelper.GenerateToken(env, id, signedAt)), Some(password));
            var r := ResetPassword(env, w, req, salt, nowMs);
            var u := FirstWithId(w.users, id).value;
            var v := FirstWithId(r.world.users, id);
            r.reply == ResetReply(200, RESET_DONE) &&
            v == Some(u.(password := Bcrypt.Hash(Bcrypt.Plain(password), salt))) &&
            Bcrypt.Compare(password, v.value.password) &&
            (other != id ==> FirstWithId(r.world.users, other) == FirstWithId(w.users, other)) &&
            r.world.outbox == w.outbox + [Mail.ResetConfirmationMail(u.email, Some(u.firstName), Some(u.lastName))]
  {
    JwtHelper.GenerateTokenVerifies(env, id, signedAt, nowMs);
    UpdateOneFound(w.users, id, SetPassword(Bcrypt.Hash(Bcrypt.Plain(password), salt)), other);
    Bcrypt.CompareHashed(password, password, salt);
  }

  /** A transport failure is reported as 500 although the password has
      already been changed. */
  lemma MailFailureAfterWrite(env: Env, w: World, id: nat, password: string, salt: nat, signedAt: nat, nowMs: nat)
    requires w.usersUp && !w.mailUp && FirstWithId(w.users, id).Some?
    requires signedAt <= nowMs < signedAt + 1000 * JwtHelper.TOKEN_TTL_SECONDS - signedAt % 1000
    ensures var req := ResetRequest(Some(JwtHelper.GenerateToken(env, id, signedAt)), Some(password));
            var r := ResetPassword(env, w, req, salt, nowMs);
            r.reply == ResetReply(500, SERVER_ERROR) &&
            r.world.users == AfterUpdate(w.users, id, SetPassword(Bcrypt.Hash(Bcrypt.Plain(password), salt))) &&
            r.world.outbox == w.outbox
  {
    JwtHelper.GenerateTokenVerifies(env, id, signedAt, nowMs);
  }
}
