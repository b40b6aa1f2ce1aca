/** src/api/V1/middlewares/authenticateTokenMiddleware.js: `verifyToken`
    takes the second space-separated word of the Authorization header as an
    access token, verifies it under JWT_ACCESS_SECRET, and passes the
    payload's `userId` on as `req.userId`. */
module AuthenticateTokenMiddleware {
  import opened Wrappers
  import opened Text
  import Jwt
  import opened Environment
  import TokenService

  const TOKEN_REQUIRED := "Access token is required"
  const INVALID_TOKEN := "Invalid token"

  /** `authHeader && authHeader.split(' ')[1]`, None when it is falsy: no
      header, the empty header, fewer than two words, or an empty second word. */
  function BearerToken(header: Option<string>): (r: Option<string>)
    ensures r.Some? ==> r.value != "" && ' ' !in r.value
  {
    match header
    case None => None
    case Some(h) =>
      var words := Split(h, ' ');
      if |words| < 2 || words[1] == "" then None else Some(words[1])
  }

  /** What `verifyToken(req, res, next)` does: answer, or call `next()` once
      with `req.userId` set. */
  datatype Outcome = Refused(status: nat, message: string) | Next(userId: Jwt.JsValue)

  function VerifyToken(env: Env, header: Option<string>, nowMs: nat): (r: Outcome)
    ensures BearerToken(header).None? <==> r == Refused(401, TOKEN_REQUIRED)
    ensures BearerToken(header).Some? ==>
              match Jwt.Verify(env.accessSecret, BearerToken(header).value, nowMs)
              case Ok(c) => r == Next(Jwt.UserIdOf(c))
              case Err(_) => r == Refused(403, INVALID_TOKEN)
  {
    match BearerToken(header)
    case None => Refused(401, TOKEN_REQUIRED)
    case Some(t) =>
      match Jwt.Verify(env.accessSecret, t, nowMs)
      case Ok(c) => Next(Jwt.UserIdOf(c))
      case Err(_) => Refused(403, INVALID_TOKEN)
  }

  /** The token is the word after the first space, whatever the first word is. */
  lemma SecondWordIsToken(scheme: string, token: string)
    requires ' ' !in scheme && ' ' !in token && token != ""
    ensures BearerToken(Some(scheme + " " + token)) == Some(token)
  {
    SplitAfterPrefix(scheme, ' ', token);
    assert Split(token, ' ') == [token];
  }

  /** 'Bearer' alone leaves no token. */
  lemma SchemeAlone()
    ensures BearerToken(Some("Bearer")) == None
  {
    assert forall i | 0 <= i < 6 :: "Bearer"[i] != ' ';
  }

  /** A double space after the first word makes the second word empty: no token. */
  lemma DoubleSpace(scheme: string, token: string)
    requires ' ' !in scheme
    ensures BearerToken(Some(scheme + "  " + token)) == None
  {
    var h := scheme + "  " + token;
    var rest := [' '] + token;
    assert h == scheme + [' '] + rest;
    SplitAfterPrefix(scheme, ' ', rest);
    assert rest == [] + [' '] + token;
    SplitAfterPrefix([], ' ', token);
    var words := Split(h, ' ');
    assert words == [scheme] + ([[]] + Split(token, ' '));
    assert words[1] == [];
  }

  /** An access token from `generateAccessToken(v)` sent as `Bearer <token>`
      passes with `req.userId = v` within its hour, and is refused with 403
      once it has expired. */
  lemma AccessTokenAccepted(env: Env, v: Jwt.JsValue, signedAt: nat, nowMs: nat)
    requires signedAt <= nowMs
    ensures var h := Some("Bearer " + TokenService.GenerateAccessToken(env, v, signedAt));
            (nowMs < signedAt + 1000 * TokenService.ACCESS_TTL_SECONDS - signedAt % 1000 ==> VerifyToken(env, h, nowMs) == Next(v)) &&
            (nowMs >= signedAt + 1000 * TokenService.ACCESS_TTL_SECONDS + 1000 ==> VerifyToken(env, h, nowMs) == Refused(403, INVALID_TOKEN))
  {
    var t := TokenService.GenerateAccessToken(env, v, signedAt);
    Jwt.EncodeHasNoSpace(Jwt.Token(env.accessSecret, Jwt.UserIdClaim(v), signedAt / 1000 + TokenService.ACCESS_TTL_SECONDS));
    SecondWordIsToken("Bearer", t);
    assert "Bearer " + t == "Bearer" + " " + t;
    Jwt.SignedLifetime(env.accessSecret, Jwt.UserIdClaim(v), signedAt, TokenService.ACCESS_TTL_SECONDS, nowMs);
  }

  /** Tokens signed with any other secret are refused with 403. */
  lemma ForeignSecretRefused(env: Env, secret: Jwt.Secret, c: Jwt.Claims, signedAt: nat, ttl: nat, nowMs: nat)
    requires secret != env.accessSecret
    ensures VerifyToken(env, Some("Bearer " + Jwt.Sign(secret, c, signedAt, ttl)), nowMs) == Refused(403, INVALID_TOKEN)
  {
    var t := Jwt.Sign(secret, c, signedAt, ttl);
    Jwt.EncodeHasNoSpace(Jwt.Token(secret, c, signedAt / 1000 + ttl));
    SecondWordIsToken("Bearer", t);
    assert "Bearer " + t == "Bearer" + " " + t;
    Jwt.VerifySigned(env.accessSecret, secret, c, signedAt, ttl, nowMs);
  }
}
