/** src/api/V1/services/otpService.js: `sendOtp(email)` looks the user up,
    issues a fresh code into the ledger, then mails it. Its one caller
    (loginController.js) passes the validated email string. */
module OtpService {
  import opened Wrappers
  import opened UserModel
  import OtpHelper
  import Mail
  import Text

  const USER_NOT_FOUND := "User not found"

  /** `sendOtpEmail(email, otp, user.firstName, user.lastName)`: the code fills
      the subject parameter, the first name the message parameter, the last
      name the first-name parameter, and the last-name parameter is unset. */
  function OtpMailFor(email: string, u: User, code: string): (m: Mail.Mail)
    ensures m.to == email && m.subject == code && m.text == u.firstName
    ensures m.greeting == u.lastName + " undefined"
  {
    Mail.OtpMail(email, Some(code), Some(u.firstName), Some(u.lastName), None)
  }

  /** What `sendOtp(email)` leaves behind: the message of the error it
      throws, if any, the ledger and the transport's outbox. */
  datatype Sent = Sent(failure: Option<string>, ledger: OtpHelper.Store, outbox: seq<Mail.Mail>)

  /** `sendOtp(email)` over the collection, the ledger and the transport.
      `draw` is the random integer behind `generateOtp()`. */
  function SendOtpEffect(usersUp: bool, docs: seq<User>, ledger: OtpHelper.Store, mailUp: bool,
                         outbox: seq<Mail.Mail>, email: string, draw: nat, nowMs: nat): (r: Sent)
    requires draw < 900000
    ensures !usersUp ==> r == Sent(Some(DB_DOWN), ledger, outbox)
    ensures usersUp && FindByEmail(docs, Some(email)).None? ==> r == Sent(Some(USER_NOT_FOUND), ledger, outbox)
  {
    if !usersUp then Sent(Some(DB_DOWN), ledger, outbox)
    else match FindByEmail(docs, Some(email))
      case None => Sent(Some(USER_NOT_FOUND), ledger, outbox)
      case Some(u) =>
        var code := OtpHelper.GenerateOtp(draw);
        var m := OtpMailFor(email, u, code);
        Sent(if mailUp then None else Some(Mail.OTP_FAILURE),
             OtpHelper.StoreOtp(ledger, u.id, code, nowMs),
             Mail.Delivered(mailUp, outbox, m))
  }

  /** `sendOtp(email)` against the objects. */
  method SendOtp(users: Users, ledger: OtpHelper.OtpLedger, mailer: Mail.Mailer,
                 email: string, draw: nat, nowMs: nat) returns (failure: Option<string>)
    requires draw < 900000
    modifies ledger, mailer`outbox
    ensures Sent(failure, ledger.entries, mailer.outbox) ==
            SendOtpEffect(users.up, users.docs, old(ledger.entries), mailer.up, old(mailer.outbox), email, draw, nowMs)
  {
    var found := users.FindOne(Some(email));
    if found.Err? {
      return Some(found.message);
    }
    if found.value.None? {
      return Some(USER_NOT_FOUND);
    }
    var u := found.value.value;
    var code := OtpHelper.GenerateOtp(draw);
    ledger.Put(u.id, code, nowMs);
    failure := mailer.SendOtpEmail(email, Some(code), Some(u.firstName), Some(u.lastName), None);
  }

  /** For a known email the user's ledger entry is replaced by a fresh
      six-digit code before the mail is attempted, so it is in place whether
      or not the mail went out; the mail carries the code as its subject. */
  lemma KnownEmailIssuesCode(usersUp: bool, docs: seq<User>, ledger: OtpHelper.Store, mailUp: bool,
                             outbox: seq<Mail.Mail>, email: string, draw: nat, nowMs: nat)
    requires draw < 900000 && usersUp && FindByEmail(docs, Some(email)).Some?
    ensures var u := FindByEmail(docs, Some(email)).value;
            var r := SendOtpEffect(usersUp, docs, ledger, mailUp, outbox, email, draw, nowMs);
            var code := r.ledger[OtpHelper.Key(u.id)].otp;
            OtpHelper.Key(u.id) in r.ledger &&
            |code| == 6 && Text.AllDigits(code) &&
            r.ledger[OtpHelper.Key(u.id)].expires == nowMs + OtpHelper.OTP_TTL_MS &&
            (forall k | k != OtpHelper.Key(u.id) :: (k in r.ledger <==> k in ledger) && (k in ledger ==> r.ledger[k] == ledger[k])) &&
            (mailUp ==> r.failure.None? && r.outbox == outbox + [OtpMailFor(email, u, code)]) &&
            (!mailUp ==> r.failure == Some(Mail.OTP_FAILURE) && r.outbox == outbox)
  {
  }

  /** The code just issued to a user is accepted for that user for five
      minutes, whether or not the mail went out: it is stored first. */
  lemma IssuedCodeIsLive(s: OtpHelper.Store, u: User, draw: nat, nowMs: nat, at: nat)
    requires draw < 900000 && nowMs <= at <= nowMs + OtpHelper.OTP_TTL_MS
    ensures var code := OtpHelper.GenerateOtp(draw);
            OtpHelper.VerifyOtp(OtpHelper.StoreOtp(s, u.id, code, nowMs), u.id, Some(code), at).result == Ok(true)
  {
    var code := OtpHelper.GenerateOtp(draw);
    var s1 := OtpHelper.StoreOtp(s, u.id, code, nowMs);
    assert s1[OtpHelper.Key(u.id)] == OtpHelper.OtpEntry(code, nowMs + OtpHelper.OTP_TTL_MS);
  }

  /** Issuing a code invalidates the previous one for that user. */
  lemma IssuingReplacesOldCode(s: OtpHelper.Store, u: User, draw: nat, earlier: string, nowMs: nat, at: nat)
    requires draw < 900000 && earlier != OtpHelper.GenerateOtp(draw) && nowMs <= at <= nowMs + OtpHelper.OTP_TTL_MS
    ensures var s1 := OtpHelper.StoreOtp(s, u.id, OtpHelper.GenerateOtp(draw), nowMs);
            OtpHelper.VerifyOtp(s1, u.id, Some(earlier), at).result == Err(OtpHelper.MISMATCH)
  {
    var s1 := OtpHelper.StoreOtp(s, u.id, OtpHelper.GenerateOtp(draw), nowMs);
    assert s1[OtpHelper.Key(u.id)].otp == OtpHelper.GenerateOtp(draw);
  }
}
