/** src/api/V1/services/emailService.js, kept abstract: the transport either
    delivers (the mail joins the outbox) or fails. The HTML templates are
    reduced to the values interpolated into them: the recipient, the subject,
    the `${firstName} ${lastName}` greeting and the one message-specific value
    (the link, or the OTP message paragraph). */
module Mail {
  import opened Wrappers

  datatype Mail = Mail(to: string, subject: string, greeting: string, text: string)

  const VERIFY_SUBJECT := "Verify Your Email - AlloMedia"
  const RESET_SUBJECT := "Password Reset Request - AlloMedia"
  const RESET_CONFIRMATION_SUBJECT := "Password Reset Confirmation - AlloMedia"
  const OTP_FAILURE := "Failed to send OTP email"
  /** The transport's own error, which two of the senders rethrow unchanged. */
  const TRANSPORT_FAILURE := "Mail transport error"

  /** A template literal's rendering of a value that may be `undefined`. */
  function Interpolate(v: Option<string>): string {
    match v
    case Some(s) => s
    case None => "undefined"
  }

  function Greeting(firstName: Option<string>, lastName: Option<string>): string {
    Interpolate(firstName) + " " + Interpolate(lastName)
  }

  /** The mail built by `sendVerificationEmail`. */
  function VerificationMail(to: string, link: string, firstName: Option<string>, lastName: Option<string>): (m: Mail)
    ensures m.to == to && m.subject == VERIFY_SUBJECT && m.text == link
  {
    Mail(to, VERIFY_SUBJECT, Greeting(firstName, lastName), link)
  }

  /** The mail built by `sendOtpEmail(userEmail, subject, message, firstName, lastName)`. */
  function OtpMail(to: string, subject: Option<string>, message: Option<string>,
                   firstName: Option<string>, lastName: Option<string>): (m: Mail)
    ensures m.to == to && m.subject == Interpolate(subject) && m.text == Interpolate(message)
  {
    Mail(to, Interpolate(subject), Greeting(firstName, lastName), Interpolate(message))
  }

  /** The mail built by `sendPasswordResetEmail`. */
  function ResetMail(to: string, resetUrl: string, firstName: Option<string>, lastName: Option<string>): (m: Mail)
    ensures m.to == to && m.subject == RESET_SUBJECT && m.text == resetUrl
  {
    Mail(to, RESET_SUBJECT, Greeting(firstName, lastName), resetUrl)
  }

  /** The mail built by `sendPasswordResetConfirmationEmail`. */
  function ResetConfirmationMail(to: string, firstName: Option<string>, lastName: Option<string>): (m: Mail)
    ensures m.to == to && m.subject == RESET_CONFIRMATION_SUBJECT && m.text == ""
  {
    Mail(to, RESET_CONFIRMATION_SUBJECT, Greeting(firstName, lastName), "")
  }

  /** The outbox after one `transporter.sendMail`. */
  function Delivered(up: bool, outbox: seq<Mail>, m: Mail): (r: seq<Mail>)
    ensures up ==> r == outbox + [m]
    ensures !up ==> r == outbox
  {
    if up then outbox + [m] else outbox
  }

  /** The transport: `up` says whether `sendMail` succeeds. */
  class Mailer {
    var up: bool
    var outbox: seq<Mail>

    constructor (up: bool)
      ensures this.up == up && outbox == []
    {
      this.up := up;
      outbox := [];
    }

    method Deliver(m: Mail) returns (ok: bool)
      modifies this`outbox
      ensures ok == up
      ensures outbox == Delivered(up, old(outbox), m)
    {
      ok := up;
      if up {
        outbox := outbox + [m];
      }
    }

    /** `sendVerificationEmail`: a transport failure is logged and swallowed. */
    method SendVerificationEmail(to: string, link: string, firstName: Option<string>, lastName: Option<string>)
      modifies this`outbox
      ensures outbox == Delivered(up, old(outbox), VerificationMail(to, link, firstName, lastName))
    {
      var _ := Deliver(VerificationMail(to, link, firstName, lastName));
    }

    /** `sendOtpEmail`: a transport failure becomes 'Failed to send OTP email'. */
    method SendOtpEmail(to: string, subject: Option<string>, message: Option<string>,
                        firstName: Option<string>, lastName: Option<string>) returns (failure: Option<string>)
      modifies this`outbox
      ensures failure == if up then None else Some(OTP_FAILURE)
      ensures outbox == Delivered(up, old(outbox), OtpMail(to, subject, message, firstName, lastName))
    {
      var ok := Deliver(OtpMail(to, subject, message, firstName, lastName));
      failure := if ok then None else Some(OTP_FAILURE);
    }

    /** `sendPasswordResetEmail`: a transport failure is rethrown. */
    method SendPasswordResetEmail(to: string, resetUrl: string, firstName: Option<string>, lastName: Option<string>)
      returns (failure: Option<string>)
      modifies this`outbox
      ensures failure == if up then None else Some(TRANSPORT_FAILURE)
      ensures outbox == Delivered(up, old(outbox), ResetMail(to, resetUrl, firstName, lastName))
    {
      var ok := Deliver(ResetMail(to, resetUrl, firstName, lastName));
      failure := if ok then None else Some(TRANSPORT_FAILURE);
    }

    /** `sendPasswordResetConfirmationEmail`: a transport failure is rethrown. */
    method SendPasswordResetConfirmationEmail(to: string, firstName: Option<string>, lastName: Option<string>)
      returns (failure: Option<string>)
      modifies this`outbox
      ensures failure == if up then None else Some(TRANSPORT_FAILURE)
      ensures outbox == Delivered(up, old(outbox), ResetConfirmationMail(to, firstName, lastName))
    {
      var ok := Deliver(ResetConfirmationMail(to, firstName, lastName));
      failure := if ok then None else Some(TRANSPORT_FAILURE);
    }
  }
}
