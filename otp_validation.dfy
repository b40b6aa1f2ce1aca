/** src/api/V1/validations/otpValidation.js: `otp` a required string of
    exactly six ASCII digits. */
module OtpValidation {
  import opened Wrappers
  import opened Text
  import opened Joi
  import OtpHelper

  const PATTERN_FAILED := "Le code OTP doit être un nombre à 6 chiffres"
  const OTP_EMPTY := "Le code OTP est requis"

  /** `/^[0-9]{6}$/` */
  predicate SixDigits(s: string) {
    |s| == 6 && AllDigits(s)
  }

  /** The failures of `otpValidation.validate({ otp })`. */
  function Details(otp: Option<string>): (r: seq<Detail>)
    ensures |r| <= 1
  {
    StringKey("otp", otp, true, RequiredMessage("otp"), OTP_EMPTY,
              [Check(SixDigits(otp.GetOr("")), PATTERN_FAILED)])
  }

  /** A code is accepted exactly when it is six characters, each 0-9; a
      missing code and the empty code are refused with their own messages. */
  lemma DetailsMeaning(otp: Option<string>)
    ensures Details(otp) == [] <==> otp.Some? && |otp.value| == 6 &&
                                    forall i | 0 <= i < 6 :: '0' <= otp.value[i] <= '9'
    ensures otp == Some("") ==> Details(otp) == [Detail("otp", OTP_EMPTY)]
    ensures otp.None? ==> Details(otp) == [Detail("otp", RequiredMessage("otp"))]
    ensures otp.Some? && otp.value != "" && !SixDigits(otp.value) ==>
              Details(otp) == [Detail("otp", PATTERN_FAILED)]
  {
  }

  /** Every code `generateOtp` issues passes the schema. */
  lemma GeneratedCodesPass(draw: nat)
    requires draw < 900000
    ensures Details(Some(OtpHelper.GenerateOtp(draw))) == []
  {
  }

  /** Codes with a leading zero pass the schema but are never issued. */
  lemma LeadingZeroPassesButIsNeverIssued(code: string, draw: nat)
    requires SixDigits(code) && code[0] == '0' && draw < 900000
    ensures Details(Some(code)) == []
    ensures OtpHelper.GenerateOtp(draw) != code
  {
  }
}
