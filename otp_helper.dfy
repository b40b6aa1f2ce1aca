/** src/api/V1/helpers/otpHelper.js: six-digit one-time codes kept per user
    id in the module's `otpStore` map, each with an expiry instant five
    minutes after it was stored. A code is single-use on success, survives a
    mismatch, and is dropped once presented after its expiry. */
module OtpHelper {
  import opened Wrappers
  import opened Text

  const OTP_TTL_MS: nat := 5 * 60 * 1000
  const NO_OTP := "Invalid OTP"
  const EXPIRED := "OTP expired"
  const MISMATCH := "OTP invalid"

  datatype OtpEntry = OtpEntry(otp: string, expires: nat)

  type Store = map<string, OtpEntry>

  /** `generateOtp()`. `draw` stands for `Math.floor(Math.random() * 900000)`,
      an integer in [0, 900000). */
  function GenerateOtp(draw: nat): (otp: string)
    requires draw < 900000
    ensures |otp| == 6 && AllDigits(otp) && otp[0] != '0'
    ensures ParseNat(otp) == Some(100000 + draw)
  {
    var n := 100000 + draw;
    assert Pow10(5) == 100000 && Pow10(6) == 1000000 by {
      assert Pow10(1) == 10;
      assert Pow10(2) == 100;
      assert Pow10(3) == 1000;
      assert Pow10(4) == 10000;
    }
    NatToStringLength(n, 6);
    NatToStringLeadingDigit(n);
    ParseNatToString(n);
    NatToString(n)
  }

  /** The key `userId.toString()`. */
  function Key(userId: nat): string {
    NatToString(userId)
  }

  /** Distinct users have distinct ledger keys. */
  lemma KeyInjective(u: nat, v: nat)
    ensures Key(u) == Key(v) <==> u == v
  {
    NatToStringInjective(u, v);
  }

  /** `storeOtp(userId, otp)` at clock time nowMs. */
  function StoreOtp(s: Store, userId: nat, otp: string, nowMs: nat): (r: Store)
    ensures Key(userId) in r && r[Key(userId)] == OtpEntry(otp, nowMs + OTP_TTL_MS)
    ensures forall k | k != Key(userId) :: (k in r <==> k in s) && (k in s ==> r[k] == s[k])
  {
    s[Key(userId) := OtpEntry(otp, nowMs + OTP_TTL_MS)]
  }

  /** The outcome of one `verifyOtp` call and the store after it. The call
      returns `true` or throws; `Ok(false)` never occurs. */
  datatype Step = Step(result: Result<bool>, store: Store)

  /** `verifyOtp(userId, otp)` at clock time nowMs. `otp` is the presented
      value, None when it is `undefined`; it must be the very same string. */
  function VerifyOtp(s: Store, userId: nat, otp: Option<string>, nowMs: nat): (r: Step)
    ensures r.result.Ok? ==> r.result.value
    ensures forall k | k != Key(userId) :: (k in r.store <==> k in s) && (k in s ==> r.store[k] == s[k])
  {
    var key := Key(userId);
    if key !in s then Step(Err(NO_OTP), s)
    else if nowMs > s[key].expires then Step(Err(EXPIRED), s - {key})
    else if otp != Some(s[key].otp) then Step(Err(MISMATCH), s)
    else Step(Ok(true), s - {key})
  }

  // ---------------------------------------------------------------------------
  // Properties of the ledger.

  /** Without an entry the call fails with 'Invalid OTP' and changes nothing. */
  lemma VerifyWithoutEntry(s: Store, userId: nat, otp: Option<string>, nowMs: nat)
    requires Key(userId) !in s
    ensures VerifyOtp(s, userId, otp, nowMs) == Step(Err(NO_OTP), s)
  {
  }

  /** Past its expiry instant an entry is deleted and the call fails with
      'OTP expired', whatever code is presented. */
  lemma VerifyAfterExpiry(s: Store, userId: nat, otp: Option<string>, nowMs: nat)
    requires Key(userId) in s && nowMs > s[Key(userId)].expires
    ensures VerifyOtp(s, userId, otp, nowMs) == Step(Err(EXPIRED), s - {Key(userId)})
  {
  }

  /** A stored code is accepted up to and including its expiry instant and
      refused from the next millisecond on. */
  lemma {:induction false} ExpiryBoundary(s: Store, userId: nat, otp: string, storedAt: nat)
    ensures VerifyOtp(StoreOtp(s, userId, otp, storedAt), userId, Some(otp), storedAt + OTP_TTL_MS).result == Ok(true)
    ensures VerifyOtp(StoreOtp(s, userId, otp, storedAt), userId, Some(otp), storedAt + OTP_TTL_MS + 1).result == Err(EXPIRED)
  {
    var s1 := StoreOtp(s, userId, otp, storedAt);
    assert s1[Key(userId)] == OtpEntry(otp, storedAt + OTP_TTL_MS);
  }

  /** A wrong code fails with 'OTP invalid' and keeps the entry, so the right
      code still succeeds afterwards until the expiry instant. */
  lemma {:induction false} WrongCodeThenRightCode(s: Store, userId: nat, wrong: Option<string>, t1: nat, t2: nat)
    requires Key(userId) in s && t1 <= t2 <= s[Key(userId)].expires
    requires wrong != Some(s[Key(userId)].otp)
    ensures VerifyOtp(s, userId, wrong, t1) == Step(Err(MISMATCH), s)
    ensures VerifyOtp(VerifyOtp(s, userId, wrong, t1).store, userId, Some(s[Key(userId)].otp), t2).result == Ok(true)
  {
  }

  /** A correct code is consumed: presenting it again fails with 'Invalid OTP'. */
  lemma {:induction false} CorrectCodeIsSingleUse(s: Store, userId: nat, t1: nat, t2: nat)
    requires Key(userId) in s && t1 <= s[Key(userId)].expires
    ensures var first := VerifyOtp(s, userId, Some(s[Key(userId)].otp), t1);
            first.result == Ok(true) && Key(userId) !in first.store &&
            VerifyOtp(first.store, userId, Some(s[Key(userId)].otp), t2).result == Err(NO_OTP)
  {
  }

  /** Storing replaces any earlier code: only the newest one is accepted. */
  lemma {:induction false} StoreReplacesEarlier(s: Store, userId: nat, older: string, newer: string, t1: nat, t2: nat, t3: nat)
    requires older != newer && t1 <= t2 <= t3 <= t2 + OTP_TTL_MS
    ensures var s2 := StoreOtp(StoreOtp(s, userId, older, t1), userId, newer, t2);
            VerifyOtp(s2, userId, Some(older), t3).result == Err(MISMATCH) &&
            VerifyOtp(s2, userId, Some(newer), t3).result == Ok(true)
  {
    var s2 := StoreOtp(StoreOtp(s, userId, older, t1), userId, newer, t2);
    assert s2[Key(userId)] == OtpEntry(newer, t2 + OTP_TTL_MS);
  }

  /** Every failure is one of the three thrown errors; success deletes the entry. */
  lemma VerifyOutcomes(s: Store, userId: nat, otp: Option<string>, nowMs: nat)
    ensures var r := VerifyOtp(s, userId, otp, nowMs);
            (r.result.Err? ==> r.result.message in {NO_OTP, EXPIRED, MISMATCH}) &&
            (r.result.Ok? <==> Key(userId) in s && nowMs <= s[Key(userId)].expires && otp == Some(s[Key(userId)].otp)) &&
            (r.result.Ok? ==> Key(userId) !in r.store)
  {
  }

  // ---------------------------------------------------------------------------
  // The module-level map.

  class OtpLedger {
    var entries: Store

    constructor ()
      ensures entries == map[]
    {
      entries := map[];
    }

    /** `storeOtp(userId, otp)` */
    method Put(userId: nat, otp: string, nowMs: nat)
      modifies this
      ensures entries == StoreOtp(old(entries), userId, otp, nowMs)
    {
      entries := entries[Key(userId) := OtpEntry(otp, nowMs + OTP_TTL_MS)];
    }

    /** `verifyOtp(userId, otp)`: true, or the message it throws. */
    method Verify(userId: nat, otp: Option<string>, nowMs: nat) returns (r: Result<bool>)
      modifies this
      ensures Step(r, entries) == VerifyOtp(old(entries), userId, otp, nowMs)
    {
      var key := Key(userId);
      if key !in entries {
        return Err(NO_OTP);
      }
      var stored := entries[key];
      if nowMs > stored.expires {
        entries := entries - {key};
        return Err(EXPIRED);
      }
      if otp != Some(stored.otp) {
        return Err(MISMATCH);
      }
      entries := entries - {key};
      r := Ok(true);
    }
  }
}
