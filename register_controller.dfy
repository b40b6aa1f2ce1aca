/** src/api/V1/controllers/auth/registerController.js: `register`. The body is
    checked against the registration schema, the attempt is counted per client
    address in Redis (at most five an hour), the email must be free and every
    role name must resolve, and then the account is created with one
    unverified device, a verification token is filed in Redis and the
    verification mail goes out. */
module RegisterController {
  import opened Wrappers
  import opened Text
  import opened UserModel
  import opened AppState
  import opened Environment
  import Jwt
  import Bcrypt
  import Joi
  import RegisterValidation
  import RoleModel
  import TokenService
  import Redis
  import Mail

  const ATTEMPT_LIMIT: nat := 5
  const ATTEMPT_EXPIRY_SECONDS: nat := 3600
  const VERIFICATION_TTL_SECONDS: nat := 3600

  const TOO_MANY_ATTEMPTS := "Too many registration attempts. Please try again later."
  const EMAIL_TAKEN := "Email is already registered"
  const ROLES_INVALID := "One or more roles are invalid"
  const REGISTERED := "User registered successfully. Please check your email for verification."
  const REGISTRATION_ERROR := "An error occurred during registration. Please try again later."

  /** The parts of the request `register` reads: the body, the User-Agent
      header and `req.ip`. */
  datatype RegisterRequest = RegisterRequest(body: RegisterValidation.Body, userAgent: Option<string>, ip: string)

  /** The response: an error status with its message, or 201 with
      REGISTERED and the new user's id. */
  datatype RegisterReply = Failed(status: int, message: string) | Registered(userId: nat)

  datatype RegisterStep = RegisterStep(reply: RegisterReply, world: World)

  /** `registration_attempts:${ipAddress}` */
  function AttemptKey(ip: string): string {
    "registration_attempts:" + ip
  }

  /** `email_verification:${newUser._id}` */
  function VerificationKey(id: nat): string {
    "email_verification:" + NatToString(id)
  }

  /** `${process.env.FRONTEND_URL}/auth/verify-email/${verificationToken}` */
  function VerificationLink(env: Env, token: string): string {
    env.frontendUrl + "/auth/verify-email/" + token
  }

  /** `roleDocs.map(role => role._id)` */
  function RoleIds(docs: seq<RoleModel.Role>): (ids: seq<nat>)
    ensures |ids| == |docs| && forall i | 0 <= i < |docs| :: ids[i] == docs[i].id
  {
    seq(|docs|, i requires 0 <= i < |docs| => docs[i].id)
  }

  // ---------------------------------------------------------------------------
  // The attempt counter.

  /** `incr` of the attempt key, then `expire` when the count is 1: the count
      (or the error the client throws) and the new data. */
  function CountAttempt(up: bool, d: Redis.Data, ip: string, nowMs: nat): (r: (Result<nat>, Redis.Data))
    ensures !up ==> r == (Err(Redis.CLOSED), d)
    ensures r.0.Ok? ==> r.0.value >= 1
  {
    if !up then (Err(Redis.CLOSED), d)
    else match Redis.Incr(d, AttemptKey(ip), nowMs)
      case Err(e) => (Err(e), d)
      case Ok((n, d1)) =>
        if n == 1 then (Ok(n), Redis.Expire(d1, AttemptKey(ip), ATTEMPT_EXPIRY_SECONDS, nowMs).1)
        else (Ok(n), d1)
  }

  /** The address may still register: no live counter, or one below the limit. */
  predicate Admitted(d: Redis.Data, ip: string, nowMs: nat) {
    match Redis.Get(d, AttemptKey(ip), nowMs)
    case None => true
    case Some(v) => v.Counter? && v.count < ATTEMPT_LIMIT
  }

  /** Every counter in the store is positive and carries an expiry. */
  predicate CountersExpire(d: Redis.Data) {
    forall k | k in d :: d[k].value.Counter? ==> d[k].value.count >= 1 && d[k].expiresAt.Some?
  }

  // ---------------------------------------------------------------------------
  // `register`

  /** A registration writes the user collection, the counter client and the
      outbox, and nothing else. */
  predicate OnlyAccountStores(w: World, w': World) {
    w' == w.(users := w'.users, registrations := w'.registrations, outbox := w'.outbox)
  }

  /** `register(req, res)` on the world `w`. `salt` is what `bcrypt.genSalt`
      yields in the handler, `hookSalt` what it yields in the pre-save hook. */
  function Register(env: Env, w: World, req: RegisterRequest, salt: nat, hookSalt: nat, nowMs: nat): (r: RegisterStep)
    ensures OnlyAccountStores(w, r.world)
  {
    match Joi.FirstMessage(RegisterValidation.Details(req.body))
    case Some(m) => RegisterStep(Failed(400, m), w)
    case None =>
      RegisterValidation.DetailsEmptyIff(req.body);
      var (count, regs) := CountAttempt(w.registrationsUp, w.registrations, req.ip, nowMs);
      var w1 := w.(registrations := regs);
      if count.Err? then RegisterStep(Failed(500, REGISTRATION_ERROR), w1)
      else if count.value > ATTEMPT_LIMIT then RegisterStep(Failed(429, TOO_MANY_ATTEMPTS), w1)
      else CreateAccount(env, w1, req, salt, hookSalt, nowMs)
  }

  /** The document `new User({...})` builds from an accepted body. */
  function Applicant(docs: seq<User>, req: RegisterRequest, roleIds: seq<nat>, salt: nat, nowMs: nat): (u: User)
    requires RegisterValidation.Accepts(req.body)
    ensures u.password == Bcrypt.Hash(Bcrypt.Plain(req.body.password.value), salt)
    ensures u.email == ToLower(req.body.email.value) && u.roles == roleIds && !u.isEmailVerified
    ensures u.devices == [Device(req.userAgent, req.ip, false, nowMs)]
    ensures forall i | 0 <= i < |docs| :: docs[i].id < u.id
  {
    var b := req.body;
    NewUser(FreshId(docs), b.firstName.value, b.lastName.value, b.email.value,
            Bcrypt.Hash(Bcrypt.Plain(b.password.value), salt), b.phone.value, b.address.value,
            roleIds, false, [Device(req.userAgent, req.ip, false, nowMs)], nowMs)
  }

  /** From the email check to the save, for a body the schema accepted. */
  function CreateAccount(env: Env, w: World, req: RegisterRequest, salt: nat, hookSalt: nat, nowMs: nat): (r: RegisterStep)
    requires RegisterValidation.Accepts(req.body)
    ensures OnlyAccountStores(w, r.world)
  {
    if !w.usersUp then RegisterStep(Failed(500, REGISTRATION_ERROR), w)
    else if FindByEmail(w.users, req.body.email).Some? then RegisterStep(Failed(400, EMAIL_TAKEN), w)
    else ResolveRoles(env, w, req, salt, hookSalt, nowMs)
  }

  /** `Role.find({ name: { $in: roles } })` and the count check. */
  function ResolveRoles(env: Env, w: World, req: RegisterRequest, salt: nat, hookSalt: nat, nowMs: nat): (r: RegisterStep)
    requires RegisterValidation.Accepts(req.body)
    ensures OnlyAccountStores(w, r.world)
  {
    if !w.rolesUp then RegisterStep(Failed(500, REGISTRATION_ERROR), w)
    else
      var names := req.body.roles.GetOr([]);
      var found := RoleModel.FindNamedIn(w.roles, names);
      if |found| != |names| then RegisterStep(Failed(400, ROLES_INVALID), w)
      else SaveAccount(env, w, Applicant(w.users, req, RoleIds(found), salt, nowMs), hookSalt, nowMs)
  }

  /** `newUser.save()` */
  function SaveAccount(env: Env, w: World, doc: User, hookSalt: nat, nowMs: nat): (r: RegisterStep)
    ensures OnlyAccountStores(w, r.world)
  {
    if !w.usersUp then RegisterStep(Failed(500, REGISTRATION_ERROR), w)
    else match SaveNew(w.users, doc, hookSalt)
      case Err(_) => RegisterStep(Failed(500, REGISTRATION_ERROR), w)
      case Ok((stored, docs)) => Welcome(env, w.(users := docs), stored, nowMs)
  }

  /** After the save: the verification token is filed and mailed. */
  function Welcome(env: Env, w: World, stored: User, nowMs: nat): (r: RegisterStep)
    ensures OnlyAccountStores(w, r.world)
  {
    var token := TokenService.GenerateAccessToken(env, Jwt.IdValue(stored.id), nowMs);
    if !w.registrationsUp then RegisterStep(Failed(500, REGISTRATION_ERROR), w)
    else
      var m := Mail.VerificationMail(stored.email, VerificationLink(env, token), Some(stored.firstName), Some(stored.lastName));
      RegisterStep(Registered(stored.id),
                   w.(registrations := Redis.SetEx(w.registrations, VerificationKey(stored.id), token, VERIFICATION_TTL_SECONDS, nowMs),
                      outbox := Mail.Delivered(w.mailUp, w.outbox, m)))
  }

  /** `register(req, res)` against the stores. */
  method RegisterHandler(app: App, env: Env, req: RegisterRequest, salt: nat, hookSalt: nat, nowMs: nat)
    returns (reply: RegisterReply)
    requires app.Valid()
    modifies app.users, app.registrations, app.mailer
    ensures RegisterStep(reply, app.Snapshot()) == Register(env, old(app.Snapshot()), req, salt, hookSalt, nowMs)
  {
    var details := RegisterValidation.Details(req.body);
    if details != [] {
      return Failed(400, details[0].message);
    }
    RegisterValidation.DetailsEmptyIff(req.body);
    var count := CountAttemptHandler(app.registrations, req.ip, nowMs);
    if count.Err? {
      return Failed(500, REGISTRATION_ERROR);
    }
    if count.value > ATTEMPT_LIMIT {
      return Failed(429, TOO_MANY_ATTEMPTS);
    }
    reply := CreateAccountHandler(app, env, req, salt, hookSalt, nowMs);
  }

  method CountAttemptHandler(client: Redis.Client, ip: string, nowMs: nat) returns (count: Result<nat>)
    modifies client`data
    ensures (count, client.data) == CountAttempt(client.up, old(client.data), ip, nowMs)
  {
    count := client.Increment(AttemptKey(ip), nowMs);
    if count.Ok? && count.value == 1 {
      var _ := client.SetExpiry(AttemptKey(ip), ATTEMPT_EXPIRY_SECONDS, nowMs);
    }
  }

  method CreateAccountHandler(app: App, env: Env, req: RegisterRequest, salt: nat, hookSalt: nat, nowMs: nat)
    returns (reply: RegisterReply)
    requires app.Valid() && RegisterValidation.Accepts(req.body)
    modifies app.users, app.registrations, app.mailer
    ensures RegisterStep(reply, app.Snapshot()) == CreateAccount(env, old(app.Snapshot()), req, salt, hookSalt, nowMs)
  {
    var existing := app.users.FindOne(req.body.email);
    if existing.Err? {
      return Failed(500, REGISTRATION_ERROR);
    }
    if existing.value.Some? {
      return Failed(400, EMAIL_TAKEN);
    }
    reply := ResolveRolesHandler(app, env, req, salt, hookSalt, nowMs);
  }

  method ResolveRolesHandler(app: App, env: Env, req: RegisterRequest, salt: nat, hookSalt: nat, nowMs: nat)
    returns (reply: RegisterReply)
    requires app.Valid() && RegisterValidation.Accepts(req.body)
    modifies app.users, app.registrations, app.mailer
    ensures RegisterStep(reply, app.Snapshot()) == ResolveRoles(env, old(app.Snapshot()), req, salt, hookSalt, nowMs)
  {
    var names := req.body.roles.GetOr([]);
    var found := app.roles.FindIn(names);
    if found.Failed? {
      return Failed(500, REGISTRATION_ERROR);
    }
    if |found.value| != |names| {
      return Failed(400, ROLES_INVALID);
    }
    var doc := Applicant(app.users.docs, req, RoleIds(found.value), salt, nowMs);
    reply := SaveAccountHandler(app, env, doc, hookSalt, nowMs);
  }

  method SaveAccountHandler(app: App, env: Env, doc: User, hookSalt: nat, nowMs: nat) returns (reply: RegisterReply)
    requires app.Valid()
    modifies app.users, app.registrations, app.mailer
    ensures RegisterStep(reply, app.Snapshot()) == SaveAccount(env, old(app.Snapshot()), doc, hookSalt, nowMs)
  {
    var saved := app.users.Save(doc, hookSalt);
    if saved.Err? {
      return Failed(500, REGISTRATION_ERROR);
    }
    reply := WelcomeHandler(app, env, saved.value, nowMs);
  }

  method WelcomeHandler(app: App, env: Env, stored: User, nowMs: nat) returns (reply: RegisterReply)
    requires app.Valid()
    modifies app.registrations, app.mailer
    ensures RegisterStep(reply, app.Snapshot()) == Welcome(env, old(app.Snapshot()), stored, nowMs)
  {
    var token := TokenService.GenerateAccessToken(env, Jwt.IdValue(stored.id), nowMs);
    var filed := app.registrations.Set(VerificationKey(stored.id), token, VERIFICATION_TTL_SECONDS, nowMs);
    if !filed {
      return Failed(500, REGISTRATION_ERROR);
    }
    app.mailer.SendVerificationEmail(stored.email, VerificationLink(env, token), Some(stored.firstName), Some(stored.lastName));
    reply := Registered(stored.id);
  }

  // ---------------------------------------------------------------------------
  // The attempt counter.

  /** The first attempt from an address (or the first after its counter
      expired) counts 1 and opens an hour's window; a later one counts on
      and keeps the window. No other key changes. */
  lemma AttemptCounting(d: Redis.Data, ip: string, nowMs: nat)
    requires CountersExpire(d)
    requires Redis.Get(d, AttemptKey(ip), nowMs).None? || Redis.Get(d, AttemptKey(ip), nowMs).value.Counter?
    ensures Redis.Get(d, AttemptKey(ip), nowMs).None? ==>
              CountAttempt(true, d, ip, nowMs) ==
              (Ok(1), d[AttemptKey(ip) := Redis.Entry(Redis.Counter(1), Some(nowMs + 1000 * ATTEMPT_EXPIRY_SECONDS))])
    ensures Redis.Get(d, AttemptKey(ip), nowMs).Some? ==>
              var n := Redis.Get(d, AttemptKey(ip), nowMs).value.count + 1;
              CountAttempt(true, d, ip, nowMs) ==
              (Ok(n), d[AttemptKey(ip) := Redis.Entry(Redis.Counter(n), d[AttemptKey(ip)].expiresAt)])
  {
    var key := AttemptKey(ip);
    if Redis.Get(d, key, nowMs).None? {
      Redis.IncrThenExpire(d, key, ATTEMPT_EXPIRY_SECONDS, nowMs);
    } else {
      var n := Redis.Get(d, key, nowMs).value.count + 1;
      assert n > 1;
    }
  }

  /** Counting an attempt keeps every counter expiring. */
  lemma CountAttemptKeepsExpiry(d: Redis.Data, ip: string, nowMs: nat)
    requires CountersExpire(d)
    ensures CountersExpire(CountAttempt(true, d, ip, nowMs).1)
  {
    var key := AttemptKey(ip);
    match Redis.Incr(d, key, nowMs)
    case Err(_) =>
    case Ok((n, d1)) =>
      if n == 1 {
        Redis.IncrThenExpire(d, key, ATTEMPT_EXPIRY_SECONDS, nowMs);
      } else {
        assert Redis.Get(d, key, nowMs).Some?;
      }
  }

  /** A locked-out address is let in again once its window has passed: the
      count starts over. */
  lemma LockoutEnds(d: Redis.Data, ip: string, nowMs: nat)
    requires CountersExpire(d)
    requires AttemptKey(ip) in d && d[AttemptKey(ip)].value.Counter?
    requires nowMs > d[AttemptKey(ip)].expiresAt.value
    ensures CountAttempt(true, d, ip, nowMs).0 == Ok(1)
    ensures Admitted(d, ip, nowMs)
  {
    assert Redis.Get(d, AttemptKey(ip), nowMs).None?;
  }

  // ---------------------------------------------------------------------------
  // Properties of `register`.

  /** A body the schema refuses is answered 400 with its first failure,
      before the attempt is counted: nothing changes. */
  lemma InvalidBodyChangesNothing(env: Env, w: World, req: RegisterRequest, salt: nat, hookSalt: nat, nowMs: nat)
    requires !RegisterValidation.Accepts(req.body)
    ensures var r := Register(env, w, req, salt, hookSalt, nowMs);
            r.world == w && r.reply.Failed? && r.reply.status == 400 &&
            Some(r.reply.message) == Joi.FirstMessage(RegisterValidation.Details(req.body))
  {
    RegisterValidation.DetailsEmptyIff(req.body);
  }

  /** Once an address has made five counted attempts within the window, an
      accepted body is refused with 429: the counter goes up, and no account
      or mail is made. */
  lemma SixthAttemptRefused(env: Env, w: World, req: RegisterRequest, salt: nat, hookSalt: nat, nowMs: nat, c: nat)
    requires RegisterValidation.Accepts(req.body) && w.registrationsUp
    requires Redis.Get(w.registrations, AttemptKey(req.ip), nowMs) == Some(Redis.Counter(c)) && c >= ATTEMPT_LIMIT
    ensures var r := Register(env, w, req, salt, hookSalt, nowMs);
            var key := AttemptKey(req.ip);
            r.reply == Failed(429, TOO_MANY_ATTEMPTS) &&
            r.world == w.(registrations := w.registrations[key := Redis.Entry(Redis.Counter(c + 1), w.registrations[key].expiresAt)])
  {
    var key := AttemptKey(req.ip);
    var d1 := w.registrations[key := Redis.Entry(Redis.Counter(c + 1), w.registrations[key].expiresAt)];
    assert CountAttempt(w.registrationsUp, w.registrations, req.ip, nowMs) == (Ok(c + 1), d1) by {
      assert Redis.Incr(w.registrations, key, nowMs) == Ok((c + 1, d1));
    }
    assert Joi.FirstMessage(RegisterValidation.Details(req.body)).None? by {
      RegisterValidation.DetailsEmptyIff(req.body);
    }
  }

  /** An accepted body from an admitted address has its attempt counted
      and goes on to account creation. */
  lemma AdmittedAttemptProceeds(env: Env, w: World, req: RegisterRequest, salt: nat, hookSalt: nat, nowMs: nat)
    requires RegisterValidation.Accepts(req.body) && w.registrationsUp
    requires CountersExpire(w.registrations) && Admitted(w.registrations, req.ip, nowMs)
    ensures Register(env, w, req, salt, hookSalt, nowMs) ==
            CreateAccount(env, w.(registrations := CountAttempt(true, w.registrations, req.ip, nowMs).1), req, salt, hookSalt, nowMs)
  {
    RegisterValidation.DetailsEmptyIff(req.body);
    AttemptCounting(w.registrations, req.ip, nowMs);
  }

  /** An admitted attempt with an email that is already registered (in any
      letter case) is refused; the attempt still counts, and nothing else
      changes. */
  lemma DuplicateEmailRefused(env: Env, w: World, req: RegisterRequest, salt: nat, hookSalt: nat, nowMs: nat)
    requires RegisterValidation.Accepts(req.body) && w.registrationsUp && w.usersUp
    requires CountersExpire(w.registrations) && Admitted(w.registrations, req.ip, nowMs)
    requires FirstWithEmail(w.users, ToLower(req.body.email.value)).Some?
    ensures var r := Register(env, w, req, salt, hookSalt, nowMs);
            r.reply == Failed(400, EMAIL_TAKEN) &&
            r.world == w.(registrations := CountAttempt(true, w.registrations, req.ip, nowMs).1)
  {
    AdmittedAttemptProceeds(env, w, req, salt, hookSalt, nowMs);
  }

  /** Role names must resolve one for one: with unique role names, a list
      that names one role twice is refused, and no account is made. */
  lemma RepeatedRoleRefused(env: Env, w: World, req: RegisterRequest, salt: nat, hookSalt: nat, nowMs: nat, x: string)
    requires RegisterValidation.Accepts(req.body) && w.registrationsUp && w.usersUp && w.rolesUp
    requires CountersExpire(w.registrations) && Admitted(w.registrations, req.ip, nowMs)
    requires FirstWithEmail(w.users, ToLower(req.body.email.value)).None?
    requires RoleModel.UniqueNames(w.roles) && req.body.roles == Some([x, x])
    ensures var r := Register(env, w, req, salt, hookSalt, nowMs);
            r.reply == Failed(400, ROLES_INVALID) &&
            r.world == w.(registrations := CountAttempt(true, w.registrations, req.ip, nowMs).1)
  {
    AdmittedAttemptProceeds(env, w, req, salt, hookSalt, nowMs);
    RepeatedNameFindsOne(w.roles, x);
  }

  lemma RepeatedNameFindsOne(roles: seq<RoleModel.Role>, x: string)
    requires RoleModel.UniqueNames(roles)
    ensures |RoleModel.FindNamedIn(roles, [x, x])| <= 1
  {
    RoleModel.NamedInOneName(roles, RoleModel.Trimmed([x, x]), Trim(x));
  }

  // Each stage of a successful registration passes on to the next.

  lemma RegisteredPassedValidation(env: Env, w: World, req: RegisterRequest, salt: nat, hookSalt: nat, nowMs: nat)
    requires Register(env, w, req, salt, hookSalt, nowMs).reply.Registered?
    ensures RegisterValidation.Accepts(req.body) && w.registrationsUp
    ensures Register(env, w, req, salt, hookSalt, nowMs) ==
            CreateAccount(env, w.(registrations := CountAttempt(true, w.registrations, req.ip, nowMs).1), req, salt, hookSalt, nowMs)
  {
    RegisterValidation.DetailsEmptyIff(req.body);
  }

  lemma RegisteredPassedChecks(env: Env, w: World, req: RegisterRequest, salt: nat, hookSalt: nat, nowMs: nat)
    requires RegisterValidation.Accepts(req.body)
    requires CreateAccount(env, w, req, salt, hookSalt, nowMs).reply.Registered?
    ensures w.usersUp && FirstWithEmail(w.users, ToLower(req.body.email.value)).None?
    ensures var found := RoleModel.FindNamedIn(w.roles, req.body.roles.GetOr([]));
            |found| == |req.body.roles.GetOr([])| &&
            CreateAccount(env, w, req, salt, hookSalt, nowMs) ==
            SaveAccount(env, w, Applicant(w.users, req, RoleIds(found), salt, nowMs), hookSalt, nowMs)
  {
  }

  /** A saved document is appended with one more bcrypt round on its
      password, and the verification token is filed and mailed. */
  lemma SavedAccount(env: Env, w: World, doc: User, hookSalt: nat, nowMs: nat)
    requires SaveAccount(env, w, doc, hookSalt, nowMs).reply.Registered?
    ensures var r := SaveAccount(env, w, doc, hookSalt, nowMs);
            var u := doc.(password := Bcrypt.Hash(doc.password, hookSalt));
            var token := TokenService.GenerateAccessToken(env, Jwt.IdValue(doc.id), nowMs);
            r.reply.userId == doc.id && r.world.users == w.users + [u] &&
            r.world.registrations == Redis.SetEx(w.registrations, VerificationKey(doc.id), token, VERIFICATION_TTL_SECONDS, nowMs) &&
            r.world.outbox == Mail.Delivered(w.mailUp, w.outbox,
              Mail.VerificationMail(u.email, VerificationLink(env, token), Some(u.firstName), Some(u.lastName)))
  {
  }

  /** A successful registration went through every check and ended in the
      save of the document built from the body. */
  lemma RegisteredStages(env: Env, w: World, req: RegisterRequest, salt: nat, hookSalt: nat, nowMs: nat)
    requires Register(env, w, req, salt, hookSalt, nowMs).reply.Registered?
    ensures RegisterValidation.Accepts(req.body) && w.usersUp && w.registrationsUp
    ensures FirstWithEmail(w.users, ToLower(req.body.email.value)).None?
    ensures var names := req.body.roles.GetOr([]);
            var found := RoleModel.FindNamedIn(w.roles, names);
            |found| == |names| &&
            Register(env, w, req, salt, hookSalt, nowMs) ==
            SaveAccount(env, w.(registrations := CountAttempt(true, w.registrations, req.ip, nowMs).1),
                        Applicant(w.users, req, RoleIds(found), salt, nowMs), hookSalt, nowMs)
  {
    RegisteredPassedValidation(env, w, req, salt, hookSalt, nowMs);
    var w1 := w.(registrations := CountAttempt(true, w.registrations, req.ip, nowMs).1);
    RegisteredPassedChecks(env, w1, req, salt, hookSalt, nowMs);
  }

  /** A successful registration appends exactly one document, with an id no
      stored document has, to the user collection. */
  lemma RegisteredAccountAppended(env: Env, w: World, req: RegisterRequest, salt: nat, hookSalt: nat, nowMs: nat)
    requires Register(env, w, req, salt, hookSalt, nowMs).reply.Registered?
    ensures var r := Register(env, w, req, salt, hookSalt, nowMs);
            var id := r.reply.userId;
            |r.world.users| == |w.users| + 1 && r.world.users[..|w.users|] == w.users &&
            r.world.users[|w.users|].id == id &&
            forall i | 0 <= i < |w.users| :: w.users[i].id != id
  {
    RegisteredStages(env, w, req, salt, hookSalt, nowMs);
    var w1 := w.(registrations := CountAttempt(true, w.registrations, req.ip, nowMs).1);
    var doc := Applicant(w.users, req, RoleIds(RoleModel.FindNamedIn(w.roles, req.body.roles.GetOr([]))), salt, nowMs);
    SavedAccount(env, w1, doc, hookSalt, nowMs);
    var r := Register(env, w, req, salt, hookSalt, nowMs);
    assert r.world.users[..|w.users|] == w.users;
  }

  /** The new document holds the lower-cased email, the resolved role ids one
      for each name, an unverified email and one unverified device. Its
      password is the registered password hashed twice, in the handler and
      in the pre-save hook, so the registered password no longer matches it:
      only the text of the first hash does. */
  lemma RegisteredAccountContents(env: Env, w: World, req: RegisterRequest, salt: nat, hookSalt: nat, nowMs: nat)
    requires Register(env, w, req, salt, hookSalt, nowMs).reply.Registered?
    ensures RegisterValidation.Accepts(req.body)
    ensures FirstWithEmail(w.users, ToLower(req.body.email.value)).None?
    ensures var r := Register(env, w, req, salt, hookSalt, nowMs);
            var u := r.world.users[|w.users|];
            var names := req.body.roles.GetOr([]);
            u.email == ToLower(req.body.email.value) &&
            !u.isEmailVerified && u.devices == [Device(req.userAgent, req.ip, false, nowMs)] &&
            u.roles == RoleIds(RoleModel.FindNamedIn(w.roles, names)) && |u.roles| == |names| &&
            var pw := req.body.password.value;
            u.password == Bcrypt.Hash(Bcrypt.Hash(Bcrypt.Plain(pw), salt), hookSalt) &&
            Bcrypt.Rounds(u.password) == 2 && !Bcrypt.Compare(pw, u.password) &&
            (forall q :: Bcrypt.Compare(q, u.password) <==> q == Bcrypt.TextOf(Bcrypt.Hash(Bcrypt.Plain(pw), salt)))
  {
    RegisteredStages(env, w, req, salt, hookSalt, nowMs);
    var w1 := w.(registrations := CountAttempt(true, w.registrations, req.ip, nowMs).1);
    var doc := Applicant(w.users, req, RoleIds(RoleModel.FindNamedIn(w.roles, req.body.roles.GetOr([]))), salt, nowMs);
    SavedAccount(env, w1, doc, hookSalt, nowMs);
    var r := Register(env, w, req, salt, hookSalt, nowMs);
    assert r.world.users[|w.users|] == doc.(password := Bcrypt.Hash(doc.password, hookSalt));
    assert Bcrypt.Rounds(doc.password) == 1;
    forall q {
      Bcrypt.CompareTwiceHashed(Bcrypt.Plain(req.body.password.value), q, salt, hookSalt);
    }
  }

  /** The verification token, an access token for the new id, is filed under
      that id for an hour, and the verification mail carries it in its link
      when the transport works. */
  lemma RegisteredVerificationSent(env: Env, w: World, req: RegisterRequest, salt: nat, hookSalt: nat, nowMs: nat)
    requires Register(env, w, req, salt, hookSalt, nowMs).reply.Registered?
    ensures var r := Register(env, w, req, salt, hookSalt, nowMs);
            var u := r.world.users[|w.users|];
            var token := TokenService.GenerateAccessToken(env, Jwt.IdValue(r.reply.userId), nowMs);
            Redis.Get(r.world.registrations, VerificationKey(r.reply.userId), nowMs + 1000 * VERIFICATION_TTL_SECONDS) ==
              Some(Redis.Text(token)) &&
            r.world.outbox == Mail.Delivered(w.mailUp, w.outbox,
              Mail.VerificationMail(u.email, VerificationLink(env, token), Some(u.firstName), Some(u.lastName)))
  {
    RegisteredStages(env, w, req, salt, hookSalt, nowMs);
    var w1 := w.(registrations := CountAttempt(true, w.registrations, req.ip, nowMs).1);
    var doc := Applicant(w.users, req, RoleIds(RoleModel.FindNamedIn(w.roles, req.body.roles.GetOr([]))), salt, nowMs);
    SavedAccount(env, w1, doc, hookSalt, nowMs);
    var r := Register(env, w, req, salt, hookSalt, nowMs);
    assert r.world.users[|w.users|] == doc.(password := Bcrypt.Hash(doc.password, hookSalt));
  }
}
