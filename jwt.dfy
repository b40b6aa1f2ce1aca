/** jsonwebtoken's `sign` and `verify`, kept abstract: a token is the record
    (secret, payload, expiry) and its text form is the five decimal fields
    secret.claimKind.valueKind.id.exp joined by dots (a real JWT is three
    base64url parts; like them, this text has no spaces). Secrets are opaque
    key identities that are only compared for equality. Expiry is in whole
    seconds, as the `exp` claim is: `sign` at clock time `now` (milliseconds)
    with `expiresIn` seconds sets `exp = floor(now / 1000) + expiresIn`, and
    `verify` rejects once `floor(now / 1000) >= exp`. */
module Jwt {
  import opened Wrappers
  import opened Text

  type Secret = nat

  /** A payload field as the handlers read it: absent, an id, or the object
      `{userId: id}` (what forgetPasswordController.js passes as the "id"). */
  datatype JsValue = Undefined | IdValue(id: nat) | UserIdObject(id: nat)

  /** The two payload shapes the source signs: `{userId: v}` and `{id: v}`. */
  datatype Claims = UserIdClaim(userId: JsValue) | IdClaim(id: JsValue)

  datatype Token = Token(secret: Secret, claims: Claims, exp: nat)

  /** `decoded.userId` */
  function UserIdOf(c: Claims): JsValue {
    match c
    case UserIdClaim(v) => v
    case IdClaim(_) => Undefined
  }

  /** `decoded.id` */
  function IdOf(c: Claims): JsValue {
    match c
    case IdClaim(v) => v
    case UserIdClaim(_) => Undefined
  }

  /** A template literal's rendering of a payload value, as in
      `${decoded.userId}`: an id prints as its decimal text, an object as
      "[object Object]". */
  function Render(v: JsValue): (r: string)
    ensures v.IdValue? ==> r == NatToString(v.id)
  {
    match v
    case Undefined => "undefined"
    case IdValue(n) => NatToString(n)
    case UserIdObject(_) => "[object Object]"
  }

  // ---------------------------------------------------------------------------
  // Text form.

  function ClaimKind(c: Claims): nat {
    if c.UserIdClaim? then 0 else 1
  }

  function ClaimValue(c: Claims): JsValue {
    match c
    case UserIdClaim(v) => v
    case IdClaim(v) => v
  }

  function ValueKind(v: JsValue): nat {
    match v
    case Undefined => 0
    case IdValue(_) => 1
    case UserIdObject(_) => 2
  }

  function ValueId(v: JsValue): nat {
    match v
    case Undefined => 0
    case IdValue(n) => n
    case UserIdObject(n) => n
  }

  function ValueOf(kind: nat, id: nat): Option<JsValue> {
    if kind == 0 then Some(Undefined)
    else if kind == 1 then Some(IdValue(id))
    else if kind == 2 then Some(UserIdObject(id))
    else None
  }

  function ClaimsOf(kind: nat, v: JsValue): Option<Claims> {
    if kind == 0 then Some(UserIdClaim(v))
    else if kind == 1 then Some(IdClaim(v))
    else None
  }

  function Fields(t: Token): seq<string> {
    [ NatToString(t.secret), NatToString(ClaimKind(t.claims)),
      NatToString(ValueKind(ClaimValue(t.claims))), NatToString(ValueId(ClaimValue(t.claims))),
      NatToString(t.exp) ]
  }

  function Encode(t: Token): string {
    Join(Fields(t), '.')
  }

  /** The token a string denotes; None when it is not well formed. */
  function Decode(s: string): Option<Token> {
    var f := Split(s, '.');
    if |f| != 5 then None else DecodeFields(f)
  }

  function DecodeFields(f: seq<string>): Option<Token>
    requires |f| == 5
  {
    if exists i | 0 <= i < 5 :: ParseNat(f[i]).None? then None
    else
      var v := ValueOf(ParseNat(f[2]).value, ParseNat(f[3]).value);
      if v.None? then None
      else
        var c := ClaimsOf(ParseNat(f[1]).value, v.value);
        if c.None? then None
        else Some(Token(ParseNat(f[0]).value, c.value, ParseNat(f[4]).value))
  }

  lemma SplitEncode(t: Token)
    ensures Split(Encode(t), '.') == Fields(t)
  {
    var f := Fields(t);
    forall i | 0 <= i < |f| ensures '.' !in f[i] {
      assert AllDigits(f[i]);
    }
    SplitJoin(f, '.');
  }

  /** Every token reads back from its text form. */
  lemma DecodeEncode(t: Token)
    ensures Decode(Encode(t)) == Some(t)
  {
    var f := Fields(t);
    SplitEncode(t);
    ParseNatToString(t.secret);
    ParseNatToString(ClaimKind(t.claims));
    ParseNatToString(ValueKind(ClaimValue(t.claims)));
    ParseNatToString(ValueId(ClaimValue(t.claims)));
    ParseNatToString(t.exp);
    assert forall i | 0 <= i < 5 :: ParseNat(f[i]).Some?;
    assert DecodeFields(f) == Some(t);
  }

  predicate InTokenAlphabet(s: string) {
    forall i | 0 <= i < |s| :: IsDigit(s[i]) || s[i] == '.'
  }

  lemma {:induction false} JoinOfDigitFields(parts: seq<string>)
    requires forall i | 0 <= i < |parts| :: AllDigits(parts[i])
    ensures InTokenAlphabet(Join(parts, '.'))
    decreases |parts|
  {
    if |parts| > 1 {
      JoinOfDigitFields(parts[1..]);
      var rest := Join(parts[1..], '.');
      assert Join(parts, '.') == parts[0] + ['.'] + rest;
      assert AllDigits(parts[0]);
    }
  }

  /** The text form of a token is non-empty and has no space in it, so it survives
      being put after `Bearer ` in a header or at the end of a URL path. */
  lemma EncodeHasNoSpace(t: Token)
    ensures |Encode(t)| > 0 && InTokenAlphabet(Encode(t)) && ' ' !in Encode(t)
  {
    var f := Fields(t);
    JoinOfDigitFields(f);
    assert Encode(t) == f[0] + ['.'] + Join(f[1..], '.');
  }

  // ---------------------------------------------------------------------------
  // sign / verify

  /** `jwt.sign(claims, secret, { expiresIn })` at clock time `nowMs`. */
  function Sign(secret: Secret, claims: Claims, nowMs: nat, expiresIn: nat): string {
    Encode(Token(secret, claims, nowMs / 1000 + expiresIn))
  }

  /** `jwt.verify(token, secret)`: the payload, or the message of the error it throws. */
  function Verify(secret: Secret, token: string, nowMs: nat): (r: Result<Claims>)
    ensures r.Ok? ==> exists t :: Decode(token) == Some(t) && t.secret == secret &&
                                   nowMs / 1000 < t.exp && t.claims == r.value
  {
    match Decode(token)
    case None => Err("jwt malformed")
    case Some(t) =>
      if t.secret != secret then Err("invalid signature")
      else if nowMs / 1000 >= t.exp then Err("jwt expired")
      else Ok(t.claims)
  }

  /** A token signed with one secret verifies under that secret, with its own
      payload, until its expiry second; under any other secret it fails. */
  lemma VerifySigned(key: Secret, secret: Secret, claims: Claims, signedAt: nat, expiresIn: nat, nowMs: nat)
    ensures Verify(key, Sign(secret, claims, signedAt, expiresIn), nowMs) ==
            if key != secret then Err("invalid signature")
            else if nowMs / 1000 >= signedAt / 1000 + expiresIn then Err("jwt expired")
            else Ok(claims)
  {
    DecodeEncode(Token(secret, claims, signedAt / 1000 + expiresIn));
  }

  /** A token verifies for at least `expiresIn` seconds after it was signed
      and is rejected from one second past that on. */
  lemma SignedLifetime(secret: Secret, claims: Claims, signedAt: nat, expiresIn: nat, nowMs: nat)
    requires signedAt <= nowMs
    ensures nowMs < signedAt + 1000 * expiresIn - (signedAt % 1000) ==>
              Verify(secret, Sign(secret, claims, signedAt, expiresIn), nowMs) == Ok(claims)
    ensures nowMs >= signedAt + 1000 * expiresIn + 1000 ==>
              Verify(secret, Sign(secret, claims, signedAt, expiresIn), nowMs) == Err("jwt expired")
  {
    VerifySigned(secret, secret, claims, signedAt, expiresIn, nowMs);
  }
}

/** The configuration the source reads from `process.env`. */
module Environment {
  import Jwt

  datatype Env = Env(
    accessSecret: Jwt.Secret,        // JWT_ACCESS_SECRET
    refreshSecret: Jwt.Secret,       // JWT_REFRESH_SECRET
    jwtSecret: Jwt.Secret,           // JWT_SECRET (jwtHelper.js)
    refreshTokenSecret: Jwt.Secret,  // REFRESH_TOKEN_SECRET (loginController.js refreshToken)
    frontendUrl: string)             // FRONTEND_URL
}

/** src/api/V1/helpers/jwtHelper.js: tokens with payload `{id}` under JWT_SECRET. */
module JwtHelper {
  import opened Wrappers
  import Jwt
  import opened Environment

  const TOKEN_TTL_SECONDS: nat := 3600

  /** `generateToken(userId)` */
  function GenerateToken(env: Env, userId: nat, nowMs: nat): string {
    Jwt.Sign(env.jwtSecret, Jwt.IdClaim(Jwt.IdValue(userId)), nowMs, TOKEN_TTL_SECONDS)
  }

  /** `verifyToken(token)`: the payload, or null when `jwt.verify` throws (a
      missing token makes it throw too). */
  function VerifyToken(env: Env, token: Option<string>, nowMs: nat): (r: Option<Jwt.Claims>)
    ensures token.None? ==> r.None?
    ensures token.Some? ==> (r.Some? <==> Jwt.Verify(env.jwtSecret, token.value, nowMs).Ok?)
  {
    match token
    case None => None
    case Some(t) =>
      match Jwt.Verify(env.jwtSecret, t, nowMs)
      case Ok(c) => Some(c)
      case Err(_) => None
  }

  /** A `generateToken` token carries `{id: userId}` for its hour. */
  lemma GenerateTokenVerifies(env: Env, userId: nat, signedAt: nat, nowMs: nat)
    requires signedAt <= nowMs < signedAt + 1000 * TOKEN_TTL_SECONDS - signedAt % 1000
    ensures VerifyToken(env, Some(GenerateToken(env, userId, signedAt)), nowMs) == Some(Jwt.IdClaim(Jwt.IdValue(userId)))
    ensures Jwt.IdOf(VerifyToken(env, Some(GenerateToken(env, userId, signedAt)), nowMs).value) == Jwt.IdValue(userId)
  {
    Jwt.SignedLifetime(env.jwtSecret, Jwt.IdClaim(Jwt.IdValue(userId)), signedAt, TOKEN_TTL_SECONDS, nowMs);
  }
}
