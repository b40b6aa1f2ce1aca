/** src/api/V1/services/tokenService.js: access tokens `{userId}` under
    JWT_ACCESS_SECRET for an hour, refresh tokens `{userId}` under
    JWT_REFRESH_SECRET for seven days, registered in Redis under
    `refreshToken:<id>`, and the registry check of a presented refresh token.

    `verifyRefreshToken` reads `refresh_token:<id>`, a different key from the
    one written, through an identifier `redis` that the file never declares
    (its client is `redisClient`). The lookup is modelled over an explicit
    binding of that identifier and an explicit key prefix, so that both
    discrepancies can be stated: with the binding the file has (none), every
    call returns null; and even with a bound client the written token is
    never found under the key read. */
module TokenService {
  import opened Wrappers
  import opened Text
  import Jwt
  import opened Environment
  import Redis

  const ACCESS_TTL_SECONDS: nat := 60 * 60
  const REFRESH_TTL_SECONDS: nat := 7 * 24 * 60 * 60
  const REFRESH_FAILED := "Failed to generate refresh token"
  const WRITE_PREFIX := "refreshToken:"
  const LOOKUP_PREFIX := "refresh_token:"

  /** `generateAccessToken(userId)`: `userId` is whatever the caller passes. */
  function GenerateAccessToken(env: Env, userId: Jwt.JsValue, nowMs: nat): (t: string)
    ensures Jwt.Decode(t) == Some(Jwt.Token(env.accessSecret, Jwt.UserIdClaim(userId), nowMs / 1000 + ACCESS_TTL_SECONDS))
  {
    Jwt.DecodeEncode(Jwt.Token(env.accessSecret, Jwt.UserIdClaim(userId), nowMs / 1000 + ACCESS_TTL_SECONDS));
    Jwt.Sign(env.accessSecret, Jwt.UserIdClaim(userId), nowMs, ACCESS_TTL_SECONDS)
  }

  /** An access token verifies under the access secret, with payload
      `{userId}`, for its hour, and under no other secret. */
  lemma AccessTokenVerifies(env: Env, userId: Jwt.JsValue, signedAt: nat, nowMs: nat)
    requires signedAt <= nowMs < signedAt + 1000 * ACCESS_TTL_SECONDS - signedAt % 1000
    ensures Jwt.Verify(env.accessSecret, GenerateAccessToken(env, userId, signedAt), nowMs) == Ok(Jwt.UserIdClaim(userId))
    ensures forall key | key != env.accessSecret ::
              Jwt.Verify(key, GenerateAccessToken(env, userId, signedAt), nowMs) == Err("invalid signature")
  {
    Jwt.SignedLifetime(env.accessSecret, Jwt.UserIdClaim(userId), signedAt, ACCESS_TTL_SECONDS, nowMs);
    forall key | key != env.accessSecret
      ensures Jwt.Verify(key, GenerateAccessToken(env, userId, signedAt), nowMs) == Err("invalid signature")
    {
      Jwt.VerifySigned(key, env.accessSecret, Jwt.UserIdClaim(userId), signedAt, ACCESS_TTL_SECONDS, nowMs);
    }
  }

  /** The token `generateRefreshToken(userId)` signs. */
  function RefreshToken(env: Env, userId: nat, nowMs: nat): (t: string)
    ensures Jwt.Decode(t) == Some(Jwt.Token(env.refreshSecret, Jwt.UserIdClaim(Jwt.IdValue(userId)), nowMs / 1000 + REFRESH_TTL_SECONDS))
  {
    Jwt.DecodeEncode(Jwt.Token(env.refreshSecret, Jwt.UserIdClaim(Jwt.IdValue(userId)), nowMs / 1000 + REFRESH_TTL_SECONDS));
    Jwt.Sign(env.refreshSecret, Jwt.UserIdClaim(Jwt.IdValue(userId)), nowMs, REFRESH_TTL_SECONDS)
  }

  /** The registry key `${prefix}${userId}`. */
  function RegistryKey(prefix: string, userId: Jwt.JsValue): string {
    prefix + Jwt.Render(userId)
  }

  /** The written and the read key never coincide, whatever the two ids. */
  lemma KeysNeverMeet(u: Jwt.JsValue, v: Jwt.JsValue)
    ensures RegistryKey(WRITE_PREFIX, u) != RegistryKey(LOOKUP_PREFIX, v)
  {
    assert RegistryKey(WRITE_PREFIX, u)[7] == 'T';
    assert RegistryKey(LOOKUP_PREFIX, v)[7] == '_';
  }

  /** One registry entry per user: the written key determines the id. */
  lemma WriteKeyInjective(u: nat, v: nat)
    ensures RegistryKey(WRITE_PREFIX, Jwt.IdValue(u)) == RegistryKey(WRITE_PREFIX, Jwt.IdValue(v)) <==> u == v
  {
    var a := RegistryKey(WRITE_PREFIX, Jwt.IdValue(u));
    var b := RegistryKey(WRITE_PREFIX, Jwt.IdValue(v));
    if a == b {
      assert a[|WRITE_PREFIX|..] == NatToString(u);
      assert b[|WRITE_PREFIX|..] == NatToString(v);
      NatToStringInjective(u, v);
    }
  }

  /** `verifyRefreshToken(refreshToken)` with the identifier `redis` bound to
      a client holding `store` (None: unbound, so reading it throws a
      ReferenceError) and reading under `prefix`. Every throw is caught and
      gives null. */
  function VerifyRefreshTokenIn(env: Env, store: Option<Redis.Data>, prefix: string,
                                token: string, nowMs: nat): (r: Option<Jwt.Claims>)
    ensures r.Some? ==> Jwt.Verify(env.refreshSecret, token, nowMs) == Ok(r.value)
    ensures r.Some? ==> store.Some? && Redis.Get(store.value, RegistryKey(prefix, Jwt.UserIdOf(r.value)), nowMs) == Some(Redis.Text(token))
    ensures Jwt.Verify(env.refreshSecret, token, nowMs).Ok? && store.Some? &&
            Redis.Get(store.value, RegistryKey(prefix, Jwt.UserIdOf(Jwt.Verify(env.refreshSecret, token, nowMs).value)), nowMs)
              == Some(Redis.Text(token)) ==>
            r == Some(Jwt.Verify(env.refreshSecret, token, nowMs).value)
  {
    match Jwt.Verify(env.refreshSecret, token, nowMs)
    case Err(_) => None
    case Ok(c) =>
      match store
      case None => None
      case Some(d) =>
        if Redis.Get(d, RegistryKey(prefix, Jwt.UserIdOf(c)), nowMs) == Some(Redis.Text(token)) then Some(c)
        else None
  }

  /** `verifyRefreshToken` as written. */
  function VerifyRefreshToken(env: Env, token: string, nowMs: nat): Option<Jwt.Claims> {
    VerifyRefreshTokenIn(env, None, LOOKUP_PREFIX, token, nowMs)
  }

  /** As written, every call returns null. */
  lemma VerifyRefreshTokenIsNull(env: Env, token: string, nowMs: nat)
    ensures VerifyRefreshToken(env, token, nowMs).None?
  {
  }

  /** Read under the key it is written under, a registered token comes back
      with its payload while it is live; this is the registry compare the
      function is meant to perform. */
  lemma RegistryRoundTrip(env: Env, d: Redis.Data, userId: nat, signedAt: nat, nowMs: nat)
    requires signedAt <= nowMs < signedAt + 1000 * REFRESH_TTL_SECONDS - signedAt % 1000
    ensures var t := RefreshToken(env, userId, signedAt);
            var d1 := Redis.SetEx(d, RegistryKey(WRITE_PREFIX, Jwt.IdValue(userId)), t, REFRESH_TTL_SECONDS, signedAt);
            VerifyRefreshTokenIn(env, Some(d1), WRITE_PREFIX, t, nowMs) == Some(Jwt.UserIdClaim(Jwt.IdValue(userId)))
  {
    Jwt.SignedLifetime(env.refreshSecret, Jwt.UserIdClaim(Jwt.IdValue(userId)), signedAt, REFRESH_TTL_SECONDS, nowMs);
  }

  /** Read under `refresh_token:`, a token written by `generateRefreshToken`
      is invisible: the lookup sees exactly what it saw before the write. */
  lemma LookupMissesWrite(env: Env, d: Redis.Data, userId: nat, token: string, signedAt: nat, nowMs: nat)
    ensures var d1 := Redis.SetEx(d, RegistryKey(WRITE_PREFIX, Jwt.IdValue(userId)), token, REFRESH_TTL_SECONDS, signedAt);
            VerifyRefreshTokenIn(env, Some(d1), LOOKUP_PREFIX, token, nowMs) ==
            VerifyRefreshTokenIn(env, Some(d), LOOKUP_PREFIX, token, nowMs)
  {
    match Jwt.Verify(env.refreshSecret, token, nowMs)
    case Err(_) =>
    case Ok(c) =>
      KeysNeverMeet(Jwt.IdValue(userId), Jwt.UserIdOf(c));
  }

  // ---------------------------------------------------------------------------
  // The registry write.

  /** `generateRefreshToken(userId)` against the module's client. */
  method GenerateRefreshToken(client: Redis.Client, env: Env, userId: nat, nowMs: nat) returns (r: Result<string>)
    modifies client`data
    ensures r == if client.up then Ok(RefreshToken(env, userId, nowMs)) else Err(REFRESH_FAILED)
    ensures client.data == if client.up
                           then Redis.SetEx(old(client.data), RegistryKey(WRITE_PREFIX, Jwt.IdValue(userId)),
                                            RefreshToken(env, userId, nowMs), REFRESH_TTL_SECONDS, nowMs)
                           else old(client.data)
  {
    var token := RefreshToken(env, userId, nowMs);
    var ok := client.Set(RegistryKey(WRITE_PREFIX, Jwt.IdValue(userId)), token, REFRESH_TTL_SECONDS, nowMs);
    if !ok {
      return Err(REFRESH_FAILED);
    }
    r := Ok(token);
  }

  /** A second refresh token for a user replaces the first in the registry. */
  lemma LatestRefreshTokenWins(d: Redis.Data, userId: nat, first: string, second: string, t1: nat, t2: nat, at: nat)
    requires t1 <= t2 <= at <= t2 + 1000 * REFRESH_TTL_SECONDS
    ensures var k := RegistryKey(WRITE_PREFIX, Jwt.IdValue(userId));
            Redis.Get(Redis.SetEx(Redis.SetEx(d, k, first, REFRESH_TTL_SECONDS, t1), k, second, REFRESH_TTL_SECONDS, t2), k, at) ==
            Some(Redis.Text(second))
  {
    var k := RegistryKey(WRITE_PREFIX, Jwt.IdValue(userId));
    Redis.GetAfterSetEx(Redis.SetEx(d, k, first, REFRESH_TTL_SECONDS, t1), k, second, REFRESH_TTL_SECONDS, t2, at);
  }
}
