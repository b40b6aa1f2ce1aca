/** src/api/V1/controllers/auth/loginController.js: `login`, which checks the
    body, the credentials and the verified email, then either challenges an
    unknown device with an OTP or logs the user in; and `refreshToken`. */
module LoginController {
  import opened Wrappers
  import opened UserModel
  import opened AppState
  import opened Environment
  import Jwt
  import Bcrypt
  import Joi
  import LoginValidation
  import OtpHelper
  import OtpService
  import TokenService
  import Redis

  const INVALID_CREDENTIALS := "Invalid credentials"
  const EMAIL_NOT_VERIFIED := "Email not verified. Please check your email to verify your account."
  const INVALID_OTP := "Invalid or expired OTP"
  const OTP_SENT := "OTP sent to your email. Please verify your device."
  const LOGIN_OK := "Login successful"
  const SERVER_ERROR := "Server error. Please try again later."
  const REFRESH_NOT_FOUND := "Refresh token not found"
  const INVALID_REFRESH := "Invalid refresh token"
  /** `res.cookie('refreshToken', promise)`: `generateRefreshToken` is not
      awaited, so the cookie holds the serialised Promise, `j:{}`. */
  const PENDING_COOKIE := "j:{}"

  /** The parts of the request `login` reads: `req.body.email`, `.password`
      and `.otp`, the User-Agent header and `req.ip`. */
  datatype LoginRequest = LoginRequest(email: Option<string>, password: Option<string>, otp: Option<string>,
                                       userAgent: Option<string>, ip: string)

  /** The response. A successful login body holds `id` and `email`; its
      `name` and `role` are `user.name` and `user.role`, paths the User model
      does not have, so they are undefined and left out of the JSON. */
  datatype LoginReply =
    | Failed(status: int, message: string)
    | OtpRequired(accessToken: string, userId: nat)
    | LoggedIn(accessToken: string, userId: nat, email: string, refreshCookie: string)

  datatype LoginStep = LoginStep(reply: LoginReply, world: World)

  /** `user.devices.some(d => d.userAgent === userAgent && d.ipAddress === ipAddress)` */
  predicate KnownDevice(devices: seq<Device>, userAgent: Option<string>, ip: string) {
    exists i | 0 <= i < |devices| :: devices[i].userAgent == userAgent && devices[i].ipAddress == ip
  }

  /** `if (otp)`: a non-empty string. */
  predicate Truthy(v: Option<string>) {
    v.Some? && v.value != ""
  }

  /** The common tail of a successful login: `lastLogin` is set, an access
      token issued, and the refresh token registered without being awaited. */
  function Finish(env: Env, w: World, u: User, nowMs: nat): (r: LoginStep)
    ensures w.usersUp ==> r.reply == LoggedIn(TokenService.GenerateAccessToken(env, Jwt.IdValue(u.id), nowMs), u.id, u.email, PENDING_COOKIE)
  {
    if !w.usersUp then LoginStep(Failed(500, SERVER_ERROR), w)
    else
      var w1 := w.(users := AfterUpdate(w.users, u.id, SetLastLogin(nowMs)));
      var w2 := w1.(tokens := if w.tokensUp
                              then Redis.SetEx(w.tokens, TokenService.RegistryKey(TokenService.WRITE_PREFIX, Jwt.IdValue(u.id)),
                                               TokenService.RefreshToken(env, u.id, nowMs), TokenService.REFRESH_TTL_SECONDS, nowMs)
                              else w.tokens);
      LoginStep(LoggedIn(TokenService.GenerateAccessToken(env, Jwt.IdValue(u.id), nowMs), u.id, u.email, PENDING_COOKIE), w2)
  }

  /** `login(req, res)` on the world `w`; `draw` is the random integer a new
      OTP would be generated from. */
  function Login(env: Env, w: World, req: LoginRequest, draw: nat, nowMs: nat): (r: LoginStep)
    requires draw < 900000
  {
    match Joi.FirstMessage(LoginValidation.Details(req.email, req.password))
    case Some(m) => LoginStep(Failed(400, m), w)
    case None =>
      LoginValidation.DetailsEmptyIff(req.email, req.password);
      if !w.usersUp then LoginStep(Failed(500, SERVER_ERROR), w)
      else match FindByEmail(w.users, req.email)
        case None => LoginStep(Failed(400, INVALID_CREDENTIALS), w)
        case Some(u) =>
          if !Bcrypt.Compare(req.password.value, u.password) then LoginStep(Failed(400, INVALID_CREDENTIALS), w)
          else if !u.isEmailVerified then LoginStep(Failed(400, EMAIL_NOT_VERIFIED), w)
          else if KnownDevice(u.devices, req.userAgent, req.ip) then Finish(env, w, u, nowMs)
          else NewDevice(env, w, req, u, draw, nowMs)
  }

  /** The unknown-device branch of `login` for the loaded user `u`: check the
      OTP sent with the request, or send one. */
  function NewDevice(env: Env, w: World, req: LoginRequest, u: User, draw: nat, nowMs: nat): (r: LoginStep)
    requires draw < 900000 && req.email.Some?
  {
    if Truthy(req.otp) then
      var v := OtpHelper.VerifyOtp(w.otp, u.id, req.otp, nowMs);
      var w1 := w.(otp := v.store);
      if v.result.Err? then LoginStep(Failed(500, SERVER_ERROR), w1)
      else if !v.result.value then LoginStep(Failed(400, INVALID_OTP), w1)
      else
        var w2 := w1.(users := if w.usersUp then AfterUpdate(w1.users, u.id, PushDevice(Device(req.userAgent, req.ip, true, nowMs))) else w1.users);
        if !w.usersUp then LoginStep(Failed(500, SERVER_ERROR), w2)
        else Finish(env, w2, u, nowMs)
    else
      var sent := OtpService.SendOtpEffect(w.usersUp, w.users, w.otp, w.mailUp, w.outbox, req.email.value, draw, nowMs);
      var w1 := w.(otp := sent.ledger, outbox := sent.outbox);
      if sent.failure.Some? then LoginStep(Failed(500, SERVER_ERROR), w1)
      else LoginStep(OtpRequired(TokenService.GenerateAccessToken(env, Jwt.IdValue(u.id), nowMs), u.id), w1)
  }

  /** `login(req, res)` against the stores. */
  method LoginHandler(app: App, env: Env, req: LoginRequest, draw: nat, nowMs: nat) returns (reply: LoginReply)
    requires app.Valid() && draw < 900000
    modifies app.users, app.ledger, app.mailer, app.tokens
    ensures LoginStep(reply, app.Snapshot()) == Login(env, old(app.Snapshot()), req, draw, nowMs)
  {
    var details := LoginValidation.Details(req.email, req.password);
    if details != [] {
      return Failed(400, details[0].message);
    }
    LoginValidation.DetailsEmptyIff(req.email, req.password);
    var found := app.users.FindOne(req.email);
    if found.Err? {
      return Failed(500, SERVER_ERROR);
    }
    if found.value.None? {
      return Failed(400, INVALID_CREDENTIALS);
    }
    var u := found.value.value;
    if !Bcrypt.Compare(req.password.value, u.password) {
      return Failed(400, INVALID_CREDENTIALS);
    }
    if !u.isEmailVerified {
      return Failed(400, EMAIL_NOT_VERIFIED);
    }
    if KnownDevice(u.devices, req.userAgent, req.ip) {
      reply := FinishLogin(app, env, u, nowMs);
    } else {
      reply := NewDeviceHandler(app, env, req, u, draw, nowMs);
    }
  }

  method NewDeviceHandler(app: App, env: Env, req: LoginRequest, u: User, draw: nat, nowMs: nat) returns (reply: LoginReply)
    requires app.Valid() && draw < 900000 && req.email.Some?
    modifies app.users, app.ledger, app.mailer, app.tokens
    ensures LoginStep(reply, app.Snapshot()) == NewDevice(env, old(app.Snapshot()), req, u, draw, nowMs)
  {
    if Truthy(req.otp) {
      var valid := app.ledger.Verify(u.id, req.otp, nowMs);
      if valid.Err? {
        return Failed(500, SERVER_ERROR);
      }
      if !valid.value {
        return Failed(400, INVALID_OTP);
      }
      var pushed := app.users.UpdateOne(u.id, PushDevice(Device(req.userAgent, req.ip, true, nowMs)));
      if !pushed {
        return Failed(500, SERVER_ERROR);
      }
      reply := FinishLogin(app, env, u, nowMs);
    } else {
      var failure := OtpService.SendOtp(app.users, app.ledger, app.mailer, req.email.value, draw, nowMs);
      if failure.Some? {
        return Failed(500, SERVER_ERROR);
      }
      reply := OtpRequired(TokenService.GenerateAccessToken(env, Jwt.IdValue(u.id), nowMs), u.id);
    }
  }

  method FinishLogin(app: App, env: Env, u: User, nowMs: nat) returns (reply: LoginReply)
    requires app.Valid()
    modifies app.users, app.tokens
    ensures LoginStep(reply, app.Snapshot()) == Finish(env, old(app.Snapshot()), u, nowMs)
  {
    var updated := app.users.UpdateOne(u.id, SetLastLogin(nowMs));
    if !updated {
      return Failed(500, SERVER_ERROR);
    }
    var accessToken := TokenService.GenerateAccessToken(env, Jwt.IdValue(u.id), nowMs);
    // Not awaited: whether the write succeeds does not reach this handler.
    var _ := TokenService.GenerateRefreshToken(app.tokens, env, u.id, nowMs);
    reply := LoggedIn(accessToken, u.id, u.email, PENDING_COOKIE);
  }

  // ---------------------------------------------------------------------------
  // Properties of `login`.

  /** A body the schema refuses is answered with its first failure before
      anything is looked up; nothing changes. */
  lemma InvalidBodyRefusedFirst(env: Env, w: World, req: LoginRequest, draw: nat, nowMs: nat)
    requires draw < 900000 && LoginValidation.Details(req.email, req.password) != []
    ensures Login(env, w, req, draw, nowMs) ==
            LoginStep(Failed(400, LoginValidation.Details(req.email, req.password)[0].message), w)
  {
  }

  /** An unknown email and a wrong password get the identical answer and
      change nothing. */
  lemma CredentialsFailureIsUniform(env: Env, w: World, req: LoginRequest, draw: nat, nowMs: nat)
    requires draw < 900000 && LoginValidation.Accepts(req.email, req.password) && w.usersUp
    requires FindByEmail(w.users, req.email).None? ||
             !Bcrypt.Compare(req.password.value, FindByEmail(w.users, req.email).value.password)
    ensures Login(env, w, req, draw, nowMs) == LoginStep(Failed(400, INVALID_CREDENTIALS), w)
  {
    LoginValidation.DetailsEmptyIff(req.email, req.password);
  }

  /** The unverified-email answer comes only once the password has matched. */
  lemma UnverifiedEmailAfterPassword(env: Env, w: World, req: LoginRequest, draw: nat, nowMs: nat)
    requires draw < 900000 && w.usersUp
    ensures Login(env, w, req, draw, nowMs).reply == Failed(400, EMAIL_NOT_VERIFIED) <==>
              LoginValidation.Accepts(req.email, req.password) &&
              FindByEmail(w.users, req.email).Some? &&
              Bcrypt.Compare(req.password.value, FindByEmail(w.users, req.email).value.password) &&
              !FindByEmail(w.users, req.email).value.isEmailVerified
    ensures Login(env, w, req, draw, nowMs).reply == Failed(400, EMAIL_NOT_VERIFIED) ==>
              Login(env, w, req, draw, nowMs).world == w
  {
    LoginValidation.DetailsEmptyIff(req.email, req.password);
    var d := LoginValidation.Details(req.email, req.password);
    if d != [] {
      assert Joi.FirstMessage(d) == Some(d[0].message);
      LoginValidation.FirstFailure(req.email, req.password);
      assert d[0].message in {LoginValidation.EMAIL_INVALID, LoginValidation.EMAIL_EMPTY,
                              LoginValidation.PASSWORD_SHORT, LoginValidation.PASSWORD_EMPTY,
                              Joi.RequiredMessage("email"), Joi.RequiredMessage("password")};
    }
  }

  /** The falsy-result branch of the OTP check is dead: `verifyOtp` throws
      instead of returning false, so 'Invalid or expired OTP' is never sent. */
  lemma InvalidOtpNeverAnswered(env: Env, w: World, req: LoginRequest, draw: nat, nowMs: nat)
    requires draw < 900000
    ensures Login(env, w, req, draw, nowMs).reply != Failed(400, INVALID_OTP)
  {
    var d := LoginValidation.Details(req.email, req.password);
    if d != [] {
      LoginValidation.DetailsEmptyIff(req.email, req.password);
      LoginValidation.FirstFailure(req.email, req.password);
      assert d[0].message in {LoginValidation.EMAIL_INVALID, LoginValidation.EMAIL_EMPTY,
                              LoginValidation.PASSWORD_SHORT, LoginValidation.PASSWORD_EMPTY,
                              Joi.RequiredMessage("email"), Joi.RequiredMessage("password")};
      assert Joi.RequiredMessage("email")[0] == '"' && Joi.RequiredMessage("password")[0] == '"';
      assert |LoginValidation.EMAIL_INVALID| == 32 && |LoginValidation.EMAIL_EMPTY| == 18;
      assert |LoginValidation.PASSWORD_SHORT| == 52 && |LoginValidation.PASSWORD_EMPTY| == 26;
      assert |INVALID_OTP| == 22 && INVALID_OTP[0] == 'I';
    }
  }

  /** A verified user on an unknown device who sends no OTP is challenged:
      a fresh code is filed under their id and mailed, and neither the
      collection nor the refresh-token registry is touched. */
  lemma UnknownDeviceChallenged(env: Env, w: World, req: LoginRequest, draw: nat, nowMs: nat)
    requires draw < 900000 && LoginValidation.Accepts(req.email, req.password) && w.usersUp && w.mailUp
    requires FindByEmail(w.users, req.email).Some?
    requires var u := FindByEmail(w.users, req.email).value;
             Bcrypt.Compare(req.password.value, u.password) && u.isEmailVerified &&
             !KnownDevice(u.devices, req.userAgent, req.ip) && !Truthy(req.otp)
    ensures var u := FindByEmail(w.users, req.email).value;
            var r := Login(env, w, req, draw, nowMs);
            r.reply == OtpRequired(TokenService.GenerateAccessToken(env, Jwt.IdValue(u.id), nowMs), u.id) &&
            r.world.users == w.users && r.world.tokens == w.tokens &&
            r.world.otp == OtpHelper.StoreOtp(w.otp, u.id, OtpHelper.GenerateOtp(draw), nowMs) &&
            r.world.outbox == w.outbox + [OtpService.OtpMailFor(req.email.value, u, OtpHelper.GenerateOtp(draw))]
  {
    LoginValidation.DetailsEmptyIff(req.email, req.password);
    assert FindByEmail(w.users, Some(req.email.value)) == FindByEmail(w.users, req.email);
  }

  /** An OTP error thrown by `verifyOtp` ends in 500 with no device added;
      only the ledger may have changed (an expired entry is dropped). */
  lemma OtpErrorIsServerError(env: Env, w: World, req: LoginRequest, draw: nat, nowMs: nat)
    requires draw < 900000 && LoginValidation.Accepts(req.email, req.password) && w.usersUp
    requires FindByEmail(w.users, req.email).Some?
    requires var u := FindByEmail(w.users, req.email).value;
             Bcrypt.Compare(req.password.value, u.password) && u.isEmailVerified &&
             !KnownDevice(u.devices, req.userAgent, req.ip) && Truthy(req.otp) &&
             OtpHelper.VerifyOtp(w.otp, u.id, req.otp, nowMs).result.Err?
    ensures var u := FindByEmail(w.users, req.email).value;
            Login(env, w, req, draw, nowMs) ==
            LoginStep(Failed(500, SERVER_ERROR), w.(otp := OtpHelper.VerifyOtp(w.otp, u.id, req.otp, nowMs).store))
  {
    LoginValidation.DetailsEmptyIff(req.email, req.password);
  }

  /** A correct OTP from an unknown device adds exactly one verified device
      for that user agent and address, records the login, and logs in; the
      next login from the same pair is no longer challenged. */
  lemma CorrectOtpRegistersDevice(env: Env, w: World, req: LoginRequest, draw: nat, nowMs: nat)
    requires draw < 900000 && LoginValidation.Accepts(req.email, req.password) && w.usersUp
    requires FindByEmail(w.users, req.email).Some?
    requires var u := FindByEmail(w.users, req.email).value;
             Bcrypt.Compare(req.password.value, u.password) && u.isEmailVerified &&
             !KnownDevice(u.devices, req.userAgent, req.ip) && Truthy(req.otp) &&
             OtpHelper.VerifyOtp(w.otp, u.id, req.otp, nowMs).result.Ok?
    ensures var u := FindByEmail(w.users, req.email).value;
            var r := Login(env, w, req, draw, nowMs);
            var dev := Device(req.userAgent, req.ip, true, nowMs);
            r.reply == LoggedIn(TokenService.GenerateAccessToken(env, Jwt.IdValue(u.id), nowMs), u.id, u.email, PENDING_COOKIE) &&
            r.world.users == AfterUpdate(AfterUpdate(w.users, u.id, PushDevice(dev)), u.id, SetLastLogin(nowMs)) &&
            FirstWithId(r.world.users, u.id).Some? &&
            FirstWithId(r.world.users, u.id).value.devices == FirstWithId(w.users, u.id).value.devices + [dev] &&
            KnownDevice(FirstWithId(r.world.users, u.id).value.devices, req.userAgent, req.ip)
  {
    LoginValidation.DetailsEmptyIff(req.email, req.password);
    var u := FindByEmail(w.users, req.email).value;
    var dev := Device(req.userAgent, req.ip, true, nowMs);
    assert u in w.users;
    assert FirstWithId(w.users, u.id).Some?;
    var d1 := AfterUpdate(w.users, u.id, PushDevice(dev));
    UpdateOneFound(w.users, u.id, PushDevice(dev), u.id);
    UpdateOneFound(d1, u.id, SetLastLogin(nowMs), u.id);
    var ds := FirstWithId(w.users, u.id).value.devices + [dev];
    assert ds[|ds| - 1] == dev;
  }

  // ---------------------------------------------------------------------------
  // `refreshToken`

  datatype RefreshReply = RefreshFailed(status: int, message: string) | NewAccessToken(accessToken: string)

  /** `refreshToken(req, res)` for the `refreshToken` cookie. The name `jwt`
      is not imported in this file, so `jwt.verify` throws a ReferenceError
      for every cookie and the catch answers 403. */
  function RefreshToken(cookie: Option<string>): (r: RefreshReply)
    ensures r.RefreshFailed?
    ensures r.status == (if Truthy(cookie) then 403 else 401)
  {
    if !Truthy(cookie) then RefreshFailed(401, REFRESH_NOT_FOUND) else RefreshFailed(403, INVALID_REFRESH)
  }
}
