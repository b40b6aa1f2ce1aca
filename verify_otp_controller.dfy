/** src/api/V1/controllers/auth/verifyOtpController.js: `verifyOtpHandler`.
    The user is looked up by email, the code is checked against the OTP
    ledger (which may delete the entry), and a `jwtHelper` token for the user
    is returned. */
module VerifyOtpController {
  import opened Wrappers
  import opened UserModel
  import opened AppState
  import opened Environment
  import Jwt
  import JwtHelper
  import OtpHelper

  const USER_NOT_FOUND := "User not found"
  const INVALID_OTP := "Invalid OTP"
  const OTP_FAILED := "OTP verification failed"
  const VERIFIED := "OTP verified, login successful"
  const SERVER_ERROR := "Server error"

  /** `req.body.email` and `req.body.otp`. */
  datatype OtpRequest = OtpRequest(email: Option<string>, otp: Option<string>)

  /** An error status with its message, or 200 with VERIFIED and the token. */
  datatype OtpReply = Rejected(status: int, message: string) | Verified(token: string)

  datatype OtpStep = OtpStep(reply: OtpReply, world: World)

  /** `verifyOtpHandler(req, res)` on the world `w`. */
  function VerifyOtpRequest(env: Env, w: World, req: OtpRequest, nowMs: nat): (r: OtpStep)
    ensures r.world == w.(otp := r.world.otp)
  {
    if !w.usersUp then OtpStep(Rejected(500, SERVER_ERROR), w)
    else match FindByEmail(w.users, req.email)
      case None => OtpStep(Rejected(400, USER_NOT_FOUND), w)
      case Some(u) =>
        var v := OtpHelper.VerifyOtp(w.otp, u.id, req.otp, nowMs);
        var w1 := w.(otp := v.store);
        if v.result.Err? then
          OtpStep(Rejected(400, if v.result.message != "" then v.result.message else OTP_FAILED), w1)
        else if !v.result.value then OtpStep(Rejected(400, INVALID_OTP), w1)
        else OtpStep(Verified(JwtHelper.GenerateToken(env, u.id, nowMs)), w1)
  }

  /** `verifyOtpHandler(req, res)` against the stores. */
  method VerifyOtpHandler(app: App, env: Env, req: OtpRequest, nowMs: nat) returns (reply: OtpReply)
    modifies app.ledger
    ensures OtpStep(reply, app.Snapshot()) == VerifyOtpRequest(env, old(app.Snapshot()), req, nowMs)
  {
    var found := app.users.FindOne(req.email);
    if found.Err? {
      return Rejected(500, SERVER_ERROR);
    }
    if found.value.None? {
      return Rejected(400, USER_NOT_FOUND);
    }
    var u := found.value.value;
    var valid := app.ledger.Verify(u.id, req.otp, nowMs);
    if valid.Err? {
      return Rejected(400, if valid.message != "" then valid.message else OTP_FAILED);
    }
    if !valid.value {
      return Rejected(400, INVALID_OTP);
    }
    reply := Verified(JwtHelper.GenerateToken(env, u.id, nowMs));
  }

  // ---------------------------------------------------------------------------
  // Properties.

  /** An email no user has is refused before the ledger is consulted. */
  lemma UnknownEmailRefused(env: Env, w: World, req: OtpRequest, nowMs: nat)
    requires w.usersUp && FindByEmail(w.users, req.email).None?
    ensures VerifyOtpRequest(env, w, req, nowMs) == OtpStep(Rejected(400, USER_NOT_FOUND), w)
  {
  }

  /** Every ledger failure is answered 400 with the thrown message: 'Invalid
      OTP' for no entry, 'OTP expired' (the entry is dropped), 'OTP invalid'
      (the entry is kept). The fallback message is never used, and 'Invalid
      OTP' reaches the client only through the thrown error, since the
      falsy-result branch is dead. */
  lemma OtpFailuresAnswered(env: Env, w: World, req: OtpRequest, nowMs: nat)
    requires w.usersUp && FindByEmail(w.users, req.email).Some?
    ensures var u := FindByEmail(w.users, req.email).value;
            var v := OtpHelper.VerifyOtp(w.otp, u.id, req.otp, nowMs);
            var r := VerifyOtpRequest(env, w, req, nowMs);
            r.world == w.(otp := v.store) &&
            (v.result.Err? ==> r.reply == Rejected(400, v.result.message)) &&
            (v.result.Ok? ==> r.reply == Verified(JwtHelper.GenerateToken(env, u.id, nowMs)))
    ensures VerifyOtpRequest(env, w, req, nowMs).reply != Rejected(400, OTP_FAILED)
  {
    var u := FindByEmail(w.users, req.email).value;
    OtpHelper.VerifyOutcomes(w.otp, u.id, req.otp, nowMs);
  }

  /** The correct live code returns a token carrying `{id: user._id}` that
      `verifyToken` accepts for its hour; the code is used up, so the same
      request a second time is refused with 'Invalid OTP'. */
  lemma CorrectCodeIssuesToken(env: Env, w: World, req: OtpRequest, nowMs: nat, later: nat)
    requires w.usersUp && FindByEmail(w.users, req.email).Some?
    requires var u := FindByEmail(w.users, req.email).value;
             OtpHelper.Key(u.id) in w.otp && nowMs <= w.otp[OtpHelper.Key(u.id)].expires &&
             req.otp == Some(w.otp[OtpHelper.Key(u.id)].otp)
    requires nowMs <= later < nowMs + 1000 * JwtHelper.TOKEN_TTL_SECONDS - nowMs % 1000
    ensures var u := FindByEmail(w.users, req.email).value;
            var r := VerifyOtpRequest(env, w, req, nowMs);
            r.reply.Verified? &&
            JwtHelper.VerifyToken(env, Some(r.reply.token), later) == Some(Jwt.IdClaim(Jwt.IdValue(u.id))) &&
            VerifyOtpRequest(env, r.world, req, later).reply == Rejected(400, INVALID_OTP)
  {
    var u := FindByEmail(w.users, req.email).value;
    OtpHelper.VerifyOutcomes(w.otp, u.id, req.otp, nowMs);
    JwtHelper.GenerateTokenVerifies(env, u.id, nowMs, later);
    var w1 := VerifyOtpRequest(env, w, req, nowMs).world;
    assert w1.users == w.users;
    OtpHelper.VerifyWithoutEntry(w1.otp, u.id, req.otp, later);
  }

  /** Without an email in the body the lookup matches the first stored
      user, so the code is checked against that user's entry. */
  lemma MissingEmailChecksFirstUser(env: Env, w: World, req: OtpRequest, nowMs: nat)
    requires w.usersUp && req.email.None? && w.users != []
    ensures var v := OtpHelper.VerifyOtp(w.otp, w.users[0].id, req.otp, nowMs);
            VerifyOtpRequest(env, w, req, nowMs).world == w.(otp := v.store)
  {
  }
}
