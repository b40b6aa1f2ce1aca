/** src/api/V1/controllers/auth/verifyEmailController.js: `verifyEmail`. The
    token from the verification link is checked with the access secret, the
    user named by its `userId` is loaded, and `isEmailVerified` is set. */
module VerifyEmailController {
  import opened Wrappers
  import opened UserModel
  import opened AppState
  import opened Environment
  import Jwt
  import TokenService

  const INVALID_TOKEN := "Invalid or expired token"
  const USER_NOT_FOUND := "User not found"
  const ALREADY_VERIFIED := "Email already verified"
  const VERIFIED := "Email verified successfully"
  const SERVER_ERROR := "Server error"

  /** The JSON body: `verified`, `message` and, from the catch, `error`. */
  datatype EmailReply = EmailReply(status: int, verified: bool, message: string, error: Option<string>)

  datatype EmailStep = EmailStep(reply: EmailReply, world: World)

  /** `verifyEmail(req, res)` for the path parameter `token`. A payload is an
      object, so the falsy-decode branch is never taken: a token that fails
      verification throws into the catch. */
  function VerifyEmail(env: Env, w: World, token: string, nowMs: nat): (r: EmailStep)
    ensures r.world == w.(users := r.world.users)
    ensures r.reply.verified <==> r.reply.status == 200
  {
    match Jwt.Verify(env.accessSecret, token, nowMs)
    case Err(e) => EmailStep(EmailReply(500, false, SERVER_ERROR, Some(e)), w)
    case Ok(claims) =>
      if !w.usersUp then EmailStep(EmailReply(500, false, SERVER_ERROR, Some(DB_DOWN)), w)
      else match LookupById(w.users, Jwt.UserIdOf(claims))
        case Err(e) => EmailStep(EmailReply(500, false, SERVER_ERROR, Some(e)), w)
        case Ok(None) => EmailStep(EmailReply(404, false, USER_NOT_FOUND, None), w)
        case Ok(Some(u)) =>
          if u.isEmailVerified then EmailStep(EmailReply(200, true, ALREADY_VERIFIED, None), w)
          else EmailStep(EmailReply(200, true, VERIFIED, None), w.(users := AfterUpdate(w.users, u.id, SetEmailVerified)))
  }

  /** `verifyEmail(req, res)` against the stores. */
  method VerifyEmailHandler(app: App, env: Env, token: string, nowMs: nat) returns (reply: EmailReply)
    modifies app.users
    ensures EmailStep(reply, app.Snapshot()) == VerifyEmail(env, old(app.Snapshot()), token, nowMs)
  {
    var decoded := Jwt.Verify(env.accessSecret, token, nowMs);
    if decoded.Err? {
      return EmailReply(500, false, SERVER_ERROR, Some(decoded.message));
    }
    var found := app.users.FindById(Jwt.UserIdOf(decoded.value));
    if found.Err? {
      return EmailReply(500, false, SERVER_ERROR, Some(found.message));
    }
    if found.value.None? {
      return EmailReply(404, false, USER_NOT_FOUND, None);
    }
    var u := found.value.value;
    if u.isEmailVerified {
      return EmailReply(200, true, ALREADY_VERIFIED, None);
    }
    var _ := app.users.UpdateOne(u.id, SetEmailVerified);
    reply := EmailReply(200, true, VERIFIED, None);
  }

  // ---------------------------------------------------------------------------
  // Properties.

  /** A token that does not verify under the access secret (another
      secret, expired, malformed) is answered 500, never 400, and nothing
      changes. */
  lemma BadTokenIsServerError(env: Env, w: World, token: string, nowMs: nat)
    requires Jwt.Verify(env.accessSecret, token, nowMs).Err?
    ensures VerifyEmail(env, w, token, nowMs) ==
            EmailStep(EmailReply(500, false, SERVER_ERROR, Some(Jwt.Verify(env.accessSecret, token, nowMs).message)), w)
  {
  }

  /** The 400 'Invalid or expired token' answer is never given. */
  lemma InvalidTokenNeverAnswered(env: Env, w: World, token: string, nowMs: nat)
    ensures VerifyEmail(env, w, token, nowMs).reply.status != 400
  {
  }

  /** A valid token for an id no user has gets 404 and nothing changes. */
  lemma UnknownUserNotFound(env: Env, w: World, id: nat, nowMs: nat, signedAt: nat)
    requires w.usersUp && FirstWithId(w.users, id).None?
    requires signedAt <= nowMs < signedAt + 1000 * TokenService.ACCESS_TTL_SECONDS - signedAt % 1000
    ensures VerifyEmail(env, w, TokenService.GenerateAccessToken(env, Jwt.IdValue(id), signedAt), nowMs) ==
            EmailStep(EmailReply(404, false, USER_NOT_FOUND, None), w)
  {
    TokenService.AccessTokenVerifies(env, Jwt.IdValue(id), signedAt, nowMs);
  }

  /** A valid access token for an unverified user sets that user's
      `isEmailVerified` and changes nothing else: every other id reads as
      before, and the user differs only in the flag. */
  lemma VerificationSetsOnlyTheFlag(env: Env, w: World, id: nat, nowMs: nat, signedAt: nat, other: nat)
    requires w.usersUp && FirstWithId(w.users, id).Some? && !FirstWithId(w.users, id).value.isEmailVerified
    requires signedAt <= nowMs < signedAt + 1000 * TokenService.ACCESS_TTL_SECONDS - signedAt % 1000
    ensures var r := VerifyEmail(env, w, TokenService.GenerateAccessToken(env, Jwt.IdValue(id), signedAt), nowMs);
            var u := FirstWithId(w.users, id).value;
            r.reply == EmailReply(200, true, VERIFIED, None) &&
            FirstWithId(r.world.users, id) == Some(u.(isEmailVerified := true)) &&
            (other != id ==> FirstWithId(r.world.users, other) == FirstWithId(w.users, other))
  {
    TokenService.AccessTokenVerifies(env, Jwt.IdValue(id), signedAt, nowMs);
    UpdateOneFound(w.users, id, SetEmailVerified, other);
  }

  /** Verification is idempotent: once it has succeeded, the same link
      reports 'Email already verified' and changes nothing. */
  lemma VerifyEmailIdempotent(env: Env, w: World, token: string, nowMs: nat, later: nat)
    requires VerifyEmail(env, w, token, nowMs).reply.status == 200
    requires Jwt.Verify(env.accessSecret, token, later).Ok?
    ensures var w1 := VerifyEmail(env, w, token, nowMs).world;
            VerifyEmail(env, w1, token, later) == EmailStep(EmailReply(200, true, ALREADY_VERIFIED, None), w1)
  {
    var r := VerifyEmail(env, w, token, nowMs);
    assert Jwt.Verify(env.accessSecret, token, nowMs).Ok?;
    var claims := Jwt.Verify(env.accessSecret, token, nowMs).value;
    assert Jwt.Verify(env.accessSecret, token, later) == Ok(claims) by {
      assert Jwt.Decode(token).Some?;
    }
    var v := Jwt.UserIdOf(claims);
    assert w.usersUp && LookupById(w.users, v).Ok? && LookupById(w.users, v).value.Some?;
    assert v.IdValue?;
    var u := FirstWithId(w.users, v.id).value;
    if !u.isEmailVerified {
      assert r.world.users == AfterUpdate(w.users, v.id, SetEmailVerified);
      UpdateOneFound(w.users, v.id, SetEmailVerified, v.id);
    }
  }
}
