/** src/api/V1/models/User.js: the user document, the schema's setters and
    validators, the pre-save hashing hook, `updateLastLogin`, and the queries
    and updates the handlers run against the collection.

    User.js declares no `devices` path; the handlers read and write
    `user.devices` all the same (registerController.js, loginController.js,
    logoutController.js), and this model keeps `devices` on the document as
    they use it. */
module UserModel {
  import opened Wrappers
  import opened Text
  import opened Bcrypt
  import Jwt

  /** A device as registerController.js and loginController.js write it. */
  datatype Device = Device(userAgent: Option<string>, ipAddress: string, isVerified: bool, lastLogin: nat)

  datatype User = User(
    id: nat,
    firstName: string,
    lastName: string,
    email: string,
    password: Digest,
    phone: string,
    address: string,
    roles: seq<nat>,
    isEmailVerified: bool,
    createdAt: nat,
    lastLogin: Option<nat>,
    isLocked: bool,
    devices: seq<Device>)

  const DB_DOWN := "MongoNetworkError: connection closed"
  const VALIDATION_FAILED := "User validation failed"
  const CAST_FAILED := "Cast to ObjectId failed for value (type Object) at path \"_id\" for model \"User\""

  // ---------------------------------------------------------------------------
  // Field rules.

  predicate NoLineTerminator(s: string) {
    forall i | 0 <= i < |s| :: !IsLineTerminator(s[i])
  }

  /** `/.+@.+\..+/`, unanchored: some '@' with a character before it, then at
      least one character, then a '.', then a character, none of them a line
      terminator. */
  predicate EmailPattern(s: string) {
    exists a, b | 0 <= a < |s| && 0 <= b < |s| :: EmailPatternAt(s, a, b)
  }

  /** The '@' at index a and the '.' at index b witness the pattern. */
  predicate EmailPatternAt(s: string, a: nat, b: nat) {
    0 < a && a + 1 < b && b + 1 < |s| &&
    s[a] == '@' && s[b] == '.' &&
    !IsLineTerminator(s[a - 1]) && !IsLineTerminator(s[b + 1]) &&
    forall k | a < k < b :: !IsLineTerminator(s[k])
  }

  predicate IsPasswordSpecial(c: char) {
    c in "@$!%*?&"
  }

  predicate HasLower(s: string) { exists i | 0 <= i < |s| :: IsLower(s[i]) }
  predicate HasUpper(s: string) { exists i | 0 <= i < |s| :: IsUpper(s[i]) }
  predicate HasDigit(s: string) { exists i | 0 <= i < |s| :: IsDigit(s[i]) }
  predicate HasPasswordSpecial(s: string) { exists i | 0 <= i < |s| :: IsPasswordSpecial(s[i]) }

  /** The password path's `minlength: 8` and its validator
      `/^(?=.*[a-z])(?=.*[A-Z])(?=.*\d)(?=.*[@$!%*?&]).{8,}$/`. */
  predicate SchemaPassword(s: string) {
    |s| >= 8 && NoLineTerminator(s) &&
    HasLower(s) && HasUpper(s) && HasDigit(s) && HasPasswordSpecial(s)
  }

  /** `/^\d{10,15}$/` */
  predicate SchemaPhone(s: string) {
    10 <= |s| <= 15 && AllDigits(s)
  }

  /** The password path as the validators see it. The value checked is the
      digest's text; for a bcrypt hash (`$2a$10$` and 53 characters of
      `[./A-Za-z0-9]`) the model takes the rule to hold. */
  predicate PasswordPathValid(d: Digest) {
    match d
    case Plain(t) => SchemaPassword(t)
    case Hashed(_, _) => true
  }

  /** `countDocuments({ email })` */
  function EmailCount(docs: seq<User>, email: string): (n: nat)
    ensures n == 0 <==> forall i | 0 <= i < |docs| :: docs[i].email != email
    ensures n <= |docs|
  {
    if docs == [] then 0
    else (if docs[0].email == email then 1 else 0) + EmailCount(docs[1..], email)
  }

  /** The paths whose validators reject `doc` when it is saved while `docs`
      is the collection, in schema order. The email validator counts every
      stored document with that email, the document itself included when it
      is already stored, and fails on any non-zero count. */
  function FailingPaths(docs: seq<User>, doc: User): seq<string> {
    (if |doc.firstName| == 0 then ["firstName"] else []) +
    (if |doc.lastName| == 0 then ["lastName"] else []) +
    (if |doc.email| == 0 || !EmailPattern(doc.email) || EmailCount(docs, doc.email) != 0 then ["email"] else []) +
    (if !PasswordPathValid(doc.password) then ["password"] else []) +
    (if !SchemaPhone(doc.phone) then ["phone"] else []) +
    (if |doc.address| == 0 then ["address"] else [])
  }

  predicate Validates(docs: seq<User>, doc: User) {
    FailingPaths(docs, doc) == []
  }

  lemma ValidatesMeans(docs: seq<User>, doc: User)
    ensures Validates(docs, doc) <==>
      |doc.firstName| > 0 && |doc.lastName| > 0 &&
      |doc.email| > 0 && EmailPattern(doc.email) &&
      (forall i | 0 <= i < |docs| :: docs[i].email != doc.email) &&
      PasswordPathValid(doc.password) && SchemaPhone(doc.phone) && |doc.address| > 0
  {
    var n := EmailCount(docs, doc.email);
    assert n == 0 <==> forall i | 0 <= i < |docs| :: docs[i].email != doc.email;
  }

  // ---------------------------------------------------------------------------
  // Construction, save and the pre-save hook.

  /** `new User({...})`: the `trim` and `lowercase` setters run on assignment,
      `isLocked` and `createdAt` take their defaults, `lastLogin` is unset. */
  function NewUser(id: nat, firstName: string, lastName: string, email: string, password: Digest,
                   phone: string, address: string, roles: seq<nat>, isEmailVerified: bool,
                   devices: seq<Device>, nowMs: nat): (u: User)
    ensures u.id == id && u.password == password && u.roles == roles && u.devices == devices
    ensures u.firstName == Trim(firstName) && u.lastName == Trim(lastName) && u.email == ToLower(email)
    ensures u.isEmailVerified == isEmailVerified && !u.isLocked && u.lastLogin.None? && u.createdAt == nowMs
  {
    User(id, Trim(firstName), Trim(lastName), ToLower(email), password, phone, address, roles,
         isEmailVerified, nowMs, None, false, devices)
  }

  /** An id no stored document has: ObjectIds are unique. */
  function FreshId(docs: seq<User>): (id: nat)
    ensures forall i | 0 <= i < |docs| :: docs[i].id < id
  {
    if docs == [] then 1
    else
      var rest := FreshId(docs[1..]);
      if docs[0].id < rest then rest else docs[0].id + 1
  }

  /** `save()` of a new document: validation first, then the pre-save hook,
      which hashes the password because a new document's password counts as
      modified, whatever it already holds. */
  function SaveNew(docs: seq<User>, doc: User, salt: nat): (r: Result<(User, seq<User>)>)
    ensures r.Ok? <==> Validates(docs, doc)
    ensures r.Ok? ==> r.value.0 == doc.(password := Hash(doc.password, salt)) && r.value.1 == docs + [r.value.0]
  {
    if !Validates(docs, doc) then Err(VALIDATION_FAILED)
    else
      var stored := doc.(password := Hash(doc.password, salt));
      Ok((stored, docs + [stored]))
  }

  /** `updateLastLogin()`: `lastLogin` is set on the loaded document, then it
      is saved. Saving a loaded document validates its loaded paths too, so
      the email validator runs and counts the document itself. */
  function LastLoginSave(docs: seq<User>, u: User, nowMs: nat): (r: Result<(User, seq<User>)>)
    ensures r.Ok? ==> r.value.0 == u.(lastLogin := Some(nowMs))
  {
    var doc := u.(lastLogin := Some(nowMs));
    if !Validates(docs, doc) then Err(VALIDATION_FAILED)
    else Ok((doc, Replace(docs, doc)))
  }

  function Replace(docs: seq<User>, doc: User): (r: seq<User>)
    ensures |r| == |docs|
  {
    seq(|docs|, i requires 0 <= i < |docs| => if docs[i].id == doc.id then doc else docs[i])
  }

  /** A stored user can never have its last login recorded: the save is rejected. */
  lemma UpdateLastLoginRejectsStored(docs: seq<User>, u: User, nowMs: nat)
    requires u in docs
    ensures LastLoginSave(docs, u, nowMs).Err?
  {
    var i :| 0 <= i < |docs| && docs[i] == u;
    var doc := u.(lastLogin := Some(nowMs));
    assert docs[i].email == doc.email;
    ValidatesMeans(docs, doc);
  }

  /** The only path a successful `updateLastLogin` changes is `lastLogin`. */
  lemma UpdateLastLoginChangesOnlyLastLogin(docs: seq<User>, u: User, nowMs: nat)
    requires LastLoginSave(docs, u, nowMs).Ok?
    ensures var v := LastLoginSave(docs, u, nowMs).value.0;
            v.lastLogin == Some(nowMs) && v.(lastLogin := u.lastLogin) == u
  {
  }

  /** Saving a new document hashes its password exactly once more. */
  lemma SaveNewHashesOnceMore(docs: seq<User>, doc: User, salt: nat)
    requires SaveNew(docs, doc, salt).Ok?
    ensures Rounds(SaveNew(docs, doc, salt).value.0.password) == Rounds(doc.password) + 1
  {
  }

  /** No two documents end up with one email through `save()`. */
  lemma {:induction false} SaveNewKeepsEmailsUnique(docs: seq<User>, doc: User, salt: nat)
    requires forall i, j | 0 <= i < j < |docs| :: docs[i].email != docs[j].email
    requires SaveNew(docs, doc, salt).Ok?
    ensures var r := SaveNew(docs, doc, salt).value.1;
            forall i, j | 0 <= i < j < |r| :: r[i].email != r[j].email
  {
    ValidatesMeans(docs, doc);
  }

  // ---------------------------------------------------------------------------
  // Queries and updates.

  /** The first document with this email. */
  function FirstWithEmail(docs: seq<User>, email: string): (r: Option<User>)
    ensures r.Some? ==> r.value in docs && r.value.email == email
    ensures r.None? <==> forall i | 0 <= i < |docs| :: docs[i].email != email
  {
    if docs == [] then None
    else if docs[0].email == email then Some(docs[0])
    else FirstWithEmail(docs[1..], email)
  }

  /** `User.findOne({ email })`. The query value goes through the path's
      `lowercase` setter; an `undefined` email drops out of the filter, which
      then matches every document, so the first one is returned. */
  function FindByEmail(docs: seq<User>, email: Option<string>): (r: Option<User>)
    ensures r.Some? ==> r.value in docs
    ensures email.Some? ==> r == FirstWithEmail(docs, ToLower(email.value))
    ensures email.None? ==> r == if docs == [] then None else Some(docs[0])
  {
    match email
    case None => if docs == [] then None else Some(docs[0])
    case Some(e) => FirstWithEmail(docs, ToLower(e))
  }

  function FirstWithId(docs: seq<User>, id: nat): (r: Option<User>)
    ensures r.Some? ==> r.value in docs && r.value.id == id
    ensures r.None? <==> forall i | 0 <= i < |docs| :: docs[i].id != id
  {
    if docs == [] then None
    else if docs[0].id == id then Some(docs[0])
    else FirstWithId(docs[1..], id)
  }

  /** `User.findById(v)` for a payload value: `undefined` finds nothing, an
      object is not castable to an ObjectId. */
  function LookupById(docs: seq<User>, v: Jwt.JsValue): (r: Result<Option<User>>)
    ensures v.Undefined? ==> r == Ok(None)
    ensures v.IdValue? ==> r == Ok(FirstWithId(docs, v.id))
    ensures v.UserIdObject? ==> r.Err?
  {
    match v
    case Undefined => Ok(None)
    case IdValue(n) => Ok(FirstWithId(docs, n))
    case UserIdObject(_) => Err(CAST_FAILED)
  }

  /** The update documents the handlers pass to `User.updateOne`. */
  datatype Update =
    | PushDevice(device: Device)     // { $push: { devices } }
    | SetLastLogin(at: nat)          // { $set: { lastLogin } }
    | SetEmailVerified               // { isEmailVerified: true }
    | SetPassword(digest: Digest)    // { $set: { password } }, validators off

  function Apply(u: User, upd: Update): User {
    match upd
    case PushDevice(d) => u.(devices := u.devices + [d])
    case SetLastLogin(t) => u.(lastLogin := Some(t))
    case SetEmailVerified => u.(isEmailVerified := true)
    case SetPassword(p) => u.(password := p)
  }

  /** `User.updateOne({ _id: id }, upd)` */
  function AfterUpdate(docs: seq<User>, id: nat, upd: Update): (r: seq<User>)
    ensures |r| == |docs|
    ensures forall i | 0 <= i < |docs| :: r[i].id == docs[i].id && r[i].email == docs[i].email
  {
    seq(|docs|, i requires 0 <= i < |docs| => if docs[i].id == id then Apply(docs[i], upd) else docs[i])
  }

  /** After an update, a lookup by the updated id finds the updated document,
      and every other id and every email lookup of another id reads as before. */
  lemma {:induction false} UpdateOneFound(docs: seq<User>, id: nat, upd: Update, other: nat)
    ensures FirstWithId(AfterUpdate(docs, id, upd), id) ==
            match FirstWithId(docs, id) case None => None case Some(u) => Some(Apply(u, upd))
    ensures other != id ==> FirstWithId(AfterUpdate(docs, id, upd), other) == FirstWithId(docs, other)
    decreases |docs|
  {
    if docs != [] {
      assert AfterUpdate(docs, id, upd)[1..] == AfterUpdate(docs[1..], id, upd);
      UpdateOneFound(docs[1..], id, upd, other);
    }
  }

  /** An update never changes which document an email lookup finds, only its fields. */
  lemma {:induction false} UpdateOneEmailLookup(docs: seq<User>, id: nat, upd: Update, email: string)
    ensures FirstWithEmail(AfterUpdate(docs, id, upd), email).Some? == FirstWithEmail(docs, email).Some?
    ensures FirstWithEmail(docs, email).Some? ==>
              FirstWithEmail(AfterUpdate(docs, id, upd), email).value.id == FirstWithEmail(docs, email).value.id
    decreases |docs|
  {
    if docs != [] {
      assert AfterUpdate(docs, id, upd)[1..] == AfterUpdate(docs[1..], id, upd);
      UpdateOneEmailLookup(docs[1..], id, upd, email);
    }
  }

  /** The collection and its connection. */
  class Users {
    var up: bool
    var docs: seq<User>

    constructor (up: bool, docs: seq<User>)
      ensures this.up == up && this.docs == docs
    {
      this.up := up;
      this.docs := docs;
    }

    method FindOne(email: Option<string>) returns (r: Result<Option<User>>)
      ensures r == if up then Ok(FindByEmail(docs, email)) else Err(DB_DOWN)
    {
      if !up {
        return Err(DB_DOWN);
      }
      r := Ok(FindByEmail(docs, email));
    }

    method FindById(v: Jwt.JsValue) returns (r: Result<Option<User>>)
      ensures r == if up then LookupById(docs, v) else Err(DB_DOWN)
    {
      if !up {
        return Err(DB_DOWN);
      }
      r := LookupById(docs, v);
    }

    method UpdateOne(id: nat, upd: Update) returns (ok: bool)
      modifies this`docs
      ensures ok == up
      ensures docs == if up then AfterUpdate(old(docs), id, upd) else old(docs)
    {
      ok := up;
      if up {
        docs := AfterUpdate(docs, id, upd);
      }
    }

    /** `newUser.save()` of a document built by `NewUser`. */
    method Save(doc: User, salt: nat) returns (r: Result<User>)
      modifies this`docs
      ensures !up ==> r == Err(DB_DOWN) && docs == old(docs)
      ensures up && SaveNew(old(docs), doc, salt).Ok? ==>
                r == Ok(SaveNew(old(docs), doc, salt).value.0) && docs == SaveNew(old(docs), doc, salt).value.1
      ensures up && SaveNew(old(docs), doc, salt).Err? ==> r == Err(VALIDATION_FAILED) && docs == old(docs)
    {
      if !up {
        return Err(DB_DOWN);
      }
      if FailingPaths(docs, doc) != [] {
        return Err(VALIDATION_FAILED);
      }
      var stored := doc.(password := Hash(doc.password, salt));
      docs := docs + [stored];
      r := Ok(stored);
    }

    /** `user.updateLastLogin()` */
    method UpdateLastLogin(u: User, nowMs: nat) returns (r: Result<User>)
      modifies this`docs
      ensures !up ==> r == Err(DB_DOWN) && docs == old(docs)
      ensures up && LastLoginSave(old(docs), u, nowMs).Ok? ==>
                r == Ok(LastLoginSave(old(docs), u, nowMs).value.0) && docs == LastLoginSave(old(docs), u, nowMs).value.1
      ensures up && LastLoginSave(old(docs), u, nowMs).Err? ==> r == Err(VALIDATION_FAILED) && docs == old(docs)
    {
      if !up {
        return Err(DB_DOWN);
      }
      var doc := u.(lastLogin := Some(nowMs));
      if FailingPaths(docs, doc) != [] {
        return Err(VALIDATION_FAILED);
      }
      docs := Replace(docs, doc);
      r := Ok(doc);
    }
  }
}
