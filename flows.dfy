/** Properties that span several handlers: what the token one handler issues
    does in another, and what a new account can and cannot do. Each lemma
    chains the handlers' functions on the world one leaves behind. */
module Flows {
  import opened Wrappers
  import opened Text
  import opened UserModel
  import opened AppState
  import opened Environment
  import Jwt
  import JwtHelper
  import Bcrypt
  import TokenService
  import LoginController
  import LoginValidation
  import RegisterController
  import RegisterValidation
  import VerifyOtpController
  import VerifyEmailController
  import ForgetPasswordController
  import ResetPasswordController

  /** Appending a document with an email no stored document has makes it
      what that email finds. */
  lemma {:induction false} FirstWithEmailAppended(docs: seq<User>, u: User, email: string)
    requires FirstWithEmail(docs, email).None? && u.email == email
    ensures FirstWithEmail(docs + [u], email) == Some(u)
    decreases |docs|
  {
    if docs == [] {
      assert docs + [u] == [u];
    } else {
      assert (docs + [u])[1..] == docs[1..] + [u];
      FirstWithEmailAppended(docs[1..], u, email);
    }
  }

  /** Appending a document with a fresh id makes it what that id finds. */
  lemma {:induction false} FirstWithIdAppended(docs: seq<User>, u: User)
    requires forall i | 0 <= i < |docs| :: docs[i].id != u.id
    ensures FirstWithId(docs + [u], u.id) == Some(u)
    decreases |docs|
  {
    if docs == [] {
      assert docs + [u] == [u];
    } else {
      assert (docs + [u])[1..] == docs[1..] + [u];
      FirstWithIdAppended(docs[1..], u);
    }
  }

  /** The world a successful registration leaves: the old documents and the
      new one after them. The new account is the only one with its email and
      its id, is unverified, and its digest matches only the text of the
      first hash of the registered password, never that password. */
  lemma RegisteredWorld(env: Env, w: World, req: RegisterController.RegisterRequest, salt: nat, hookSalt: nat, nowMs: nat)
    requires RegisterController.Register(env, w, req, salt, hookSalt, nowMs).reply.Registered?
    ensures var r := RegisterController.Register(env, w, req, salt, hookSalt, nowMs);
            var u := r.world.users[|w.users|];
            r.world.usersUp && r.world.users == w.users + [u] && u.id == r.reply.userId &&
            RegisterValidation.Accepts(req.body) &&
            FirstWithEmail(r.world.users, ToLower(req.body.email.value)) == Some(u) &&
            FirstWithEmail(w.users, ToLower(req.body.email.value)).None? &&
            u.email == ToLower(req.body.email.value) &&
            (forall i | 0 <= i < |w.users| :: w.users[i].id != u.id) &&
            FirstWithId(r.world.users, u.id) == Some(u) &&
            !u.isEmailVerified &&
            (forall q :: Bcrypt.Compare(q, u.password) <==> q == FirstHashText(req, salt)) &&
            FirstHashText(req, salt) != req.body.password.value
  {
    var r := RegisterController.Register(env, w, req, salt, hookSalt, nowMs);
    RegisterController.RegisteredStages(env, w, req, salt, hookSalt, nowMs);
    RegisterController.RegisteredAccountAppended(env, w, req, salt, hookSalt, nowMs);
    RegisterController.RegisteredAccountContents(env, w, req, salt, hookSalt, nowMs);
    var u := r.world.users[|w.users|];
    assert r.world.users == r.world.users[..|w.users|] + [u];
    FirstWithEmailAppended(w.users, u, ToLower(req.body.email.value));
    FirstWithIdAppended(w.users, u);
  }

  /** The text of the handler's hash of the registered password: the only
      text the stored twice-hashed digest matches. */
  function FirstHashText(req: RegisterController.RegisterRequest, salt: nat): (t: string)
    requires RegisterValidation.Accepts(req.body)
    ensures t != req.body.password.value && |t| >= 8
  {
    var v := Bcrypt.Plain(req.body.password.value);
    assert |Bcrypt.TextOf(Bcrypt.Hash(v, salt))| > |Bcrypt.TextOf(v)|;
    Bcrypt.TextOf(Bcrypt.Hash(v, salt))
  }

  /** The password of a registered account is hashed twice (once in the
      handler, once in the pre-save hook), so a login with that email gets
      past the password check only with the text of the first hash: every
      other accepted login body, the registered password included, is
      answered 'Invalid credentials' and changes nothing. */
  lemma RegisteredAccountNeverLogsIn(env: Env, w: World, req: RegisterController.RegisterRequest, salt: nat, hookSalt: nat,
                                     nowMs: nat, login: LoginController.LoginRequest, draw: nat, later: nat)
    requires RegisterController.Register(env, w, req, salt, hookSalt, nowMs).reply.Registered?
    requires draw < 900000 && LoginValidation.Accepts(login.email, login.password)
    requires login.email.Some? && RegisterValidation.Accepts(req.body) &&
             ToLower(login.email.value) == ToLower(req.body.email.value)
    requires login.password.value != FirstHashText(req, salt)
    ensures var w1 := RegisterController.Register(env, w, req, salt, hookSalt, nowMs).world;
            LoginController.Login(env, w1, login, draw, later) ==
            LoginController.LoginStep(LoginController.Failed(400, LoginController.INVALID_CREDENTIALS), w1)
  {
    RegisteredWorld(env, w, req, salt, hookSalt, nowMs);
    var w1 := RegisterController.Register(env, w, req, salt, hookSalt, nowMs).world;
    LoginController.CredentialsFailureIsUniform(env, w1, login, draw, later);
  }

  /** The text of the first hash, used as a password, does get past the
      password check of a newly registered account: the login is stopped
      only by the unverified email, and changes nothing. */
  lemma FirstHashTextPassesPasswordCheck(env: Env, w: World, req: RegisterController.RegisterRequest, salt: nat,
                                         hookSalt: nat, nowMs: nat, login: LoginController.LoginRequest,
                                         draw: nat, later: nat)
    requires RegisterController.Register(env, w, req, salt, hookSalt, nowMs).reply.Registered?
    requires draw < 900000 && LoginValidation.Accepts(login.email, login.password)
    requires login.email.Some? && RegisterValidation.Accepts(req.body) &&
             ToLower(login.email.value) == ToLower(req.body.email.value)
    requires login.password.value == FirstHashText(req, salt)
    ensures var w1 := RegisterController.Register(env, w, req, salt, hookSalt, nowMs).world;
            LoginController.Login(env, w1, login, draw, later) ==
            LoginController.LoginStep(LoginController.Failed(400, LoginController.EMAIL_NOT_VERIFIED), w1)
  {
    RegisteredWorld(env, w, req, salt, hookSalt, nowMs);
    var w1 := RegisterController.Register(env, w, req, salt, hookSalt, nowMs).world;
    LoginController.UnverifiedEmailAfterPassword(env, w1, login, draw, later);
  }

  /** An unverified account appended last, whose digest the login's
      password does not match: an access token for its id verifies it, and
      afterwards that login is still refused at the password check. */
  lemma {:induction false} AppendedAccountVerifiesButNeverLogsIn(env: Env, w: World, before: seq<User>, u: User,
                                                               email: string, signedAt: nat, nowMs: nat,
                                                               login: LoginController.LoginRequest, draw: nat, last: nat)
    requires w.usersUp && w.users == before + [u] && !u.isEmailVerified && u.email == email
    requires FirstWithEmail(before, email).None? && forall i | 0 <= i < |before| :: before[i].id != u.id
    requires signedAt <= nowMs < signedAt + 1000 * TokenService.ACCESS_TTL_SECONDS - signedAt % 1000
    requires draw < 900000 && LoginValidation.Accepts(login.email, login.password)
    requires login.email.Some? && ToLower(login.email.value) == email
    requires !Bcrypt.Compare(login.password.value, u.password)
    ensures var v := VerifyEmailController.VerifyEmail(env, w, TokenService.GenerateAccessToken(env, Jwt.IdValue(u.id), signedAt), nowMs);
            v.reply == VerifyEmailController.EmailReply(200, true, VerifyEmailController.VERIFIED, None) &&
            FirstWithId(v.world.users, u.id) == Some(u.(isEmailVerified := true)) &&
            LoginController.Login(env, v.world, login, draw, last) ==
              LoginController.LoginStep(LoginController.Failed(400, LoginController.INVALID_CREDENTIALS), v.world)
  {
    FirstWithIdAppended(before, u);
    VerifyEmailController.VerificationSetsOnlyTheFlag(env, w, u.id, nowMs, signedAt, u.id);
    var v := VerifyEmailController.VerifyEmail(env, w, TokenService.GenerateAccessToken(env, Jwt.IdValue(u.id), signedAt), nowMs);
    var u1 := u.(isEmailVerified := true);
    assert v.world.users == before + [u1] by {
      var after := AfterUpdate(before + [u], u.id, SetEmailVerified);
      assert v.world.users == after;
      forall i | 0 <= i < |after| ensures after[i] == (before + [u1])[i] {
        if i < |before| {
          assert (before + [u])[i] == before[i];
        }
      }
    }
    FirstWithEmailAppended(before, u1, email);
    LoginController.CredentialsFailureIsUniform(env, v.world, login, draw, last);
  }

  /** The token a registration files and mails verifies the new account's
      email within the hour, and setting the flag changes nothing for login:
      no password but the first hash's text, the registered one included,
      gets past the password check. */
  lemma RegisteredAccountVerifiesButNeverLogsIn(env: Env, w: World, req: RegisterController.RegisterRequest, salt: nat,
                                                hookSalt: nat, nowMs: nat, later: nat,
                                                login: LoginController.LoginRequest, draw: nat, last: nat)
    requires RegisterController.Register(env, w, req, salt, hookSalt, nowMs).reply.Registered?
    requires nowMs <= later < nowMs + 1000 * TokenService.ACCESS_TTL_SECONDS - nowMs % 1000
    requires draw < 900000 && LoginValidation.Accepts(login.email, login.password)
    requires login.email.Some? && RegisterValidation.Accepts(req.body) &&
             ToLower(login.email.value) == ToLower(req.body.email.value)
    requires login.password.value != FirstHashText(req, salt)
    ensures var r := RegisterController.Register(env, w, req, salt, hookSalt, nowMs);
            var id := r.reply.userId;
            var v := VerifyEmailController.VerifyEmail(env, r.world, TokenService.GenerateAccessToken(env, Jwt.IdValue(id), nowMs), later);
            v.reply == VerifyEmailController.EmailReply(200, true, VerifyEmailController.VERIFIED, None) &&
            FirstWithId(v.world.users, id).Some? && FirstWithId(v.world.users, id).value.isEmailVerified &&
            LoginController.Login(env, v.world, login, draw, last) ==
              LoginController.LoginStep(LoginController.Failed(400, LoginController.INVALID_CREDENTIALS), v.world)
  {
    RegisteredWorld(env, w, req, salt, hookSalt, nowMs);
    var r := RegisterController.Register(env, w, req, salt, hookSalt, nowMs);
    AppendedAccountVerifiesButNeverLogsIn(env, r.world, w.users, r.world.users[|w.users|], ToLower(req.body.email.value),
                                          nowMs, later, login, draw, last);
  }

  /** The link the forgot-password handler mails cannot reset a password:
      its token is signed with the access secret and carries `userId`, while
      the reset handler verifies with the `jwtHelper` secret and reads `id`.
      With two secrets the signature fails; with one the `id` is undefined
      and no user is found. Either way the answer is 400 and nothing changes. */
  lemma ForgotTokenRejectedByReset(env: Env, w: World, id: nat, signedAt: nat, nowMs: nat,
                                   newPassword: Option<string>, salt: nat)
    requires w.usersUp
    ensures var t := ForgetPasswordController.ResetToken(env, id, signedAt);
            var r := ResetPasswordController.ResetPassword(env, w, ResetPasswordController.ResetRequest(Some(t), newPassword), salt, nowMs);
            r.world == w && r.reply.status == 400
  {
    var t := ForgetPasswordController.ResetToken(env, id, signedAt);
    var v := Jwt.Verify(env.jwtSecret, t, nowMs);
    if v.Ok? {
      assert v.value == Jwt.UserIdClaim(Jwt.UserIdObject(id));
      assert Jwt.IdOf(v.value) == Jwt.Undefined;
    }
  }

  /** The token the OTP check issues is what the reset handler accepts:
      within its hour it resets that user's password, after which the new
      password matches the stored digest. */
  lemma OtpTokenResetsPassword(env: Env, w: World, req: VerifyOtpController.OtpRequest, nowMs: nat, later: nat,
                               password: string, salt: nat)
    requires w.usersUp && w.mailUp && FindByEmail(w.users, req.email).Some?
    requires VerifyOtpController.VerifyOtpRequest(env, w, req, nowMs).reply.Verified?
    requires nowMs <= later < nowMs + 1000 * JwtHelper.TOKEN_TTL_SECONDS - nowMs % 1000
    ensures var o := VerifyOtpController.VerifyOtpRequest(env, w, req, nowMs);
            var u := FindByEmail(w.users, req.email).value;
            var r := ResetPasswordController.ResetPassword(env, o.world,
                       ResetPasswordController.ResetRequest(Some(o.reply.token), Some(password)), salt, later);
            r.reply == ResetPasswordController.ResetReply(200, ResetPasswordController.RESET_DONE) &&
            FirstWithId(r.world.users, u.id).Some? &&
            Bcrypt.Compare(password, FirstWithId(r.world.users, u.id).value.password)
  {
    var o := VerifyOtpController.VerifyOtpRequest(env, w, req, nowMs);
    var u := FindByEmail(w.users, req.email).value;
    assert o.reply.token == JwtHelper.GenerateToken(env, u.id, nowMs);
    assert FirstWithId(w.users, u.id).Some? by {
      assert u in w.users;
    }
    ResetPasswordController.ResetSetsOnlyPassword(env, o.world, u.id, password, salt, nowMs, later, u.id);
  }
}
