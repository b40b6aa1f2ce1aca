/** src/api/V1/middlewares/throttleMiddleware.js: `otpThrottling`, a
    fixed-window counter per email in the module-level object `throttle`.
    A request is refused with 429 once five have passed; otherwise it passes,
    counting towards the window opened by the first request, or opening a new
    window when more than a minute has gone by since then. */
module ThrottleMiddleware {
  import opened Wrappers
  import opened Text

  const LIMIT: nat := 5
  const WINDOW_MS: nat := 60000

  datatype Attempt = Attempt(attempts: nat, lastAttempt: nat)

  type Table = map<string, Attempt>

  /** `throttle[email]` uses the email as a property name; a missing email
      is the property "undefined". */
  function KeyOf(email: Option<string>): string {
    match email
    case Some(e) => e
    case None => "undefined"
  }

  /** `min(30000, 1000 * (attempts - 4) * 10) / 1000`, for attempts >= 5. */
  function WaitSeconds(attempts: nat): (s: nat)
    requires attempts >= LIMIT
    ensures s == 10 <==> attempts == LIMIT
    ensures 10 <= s <= 30
  {
    if 10 * (attempts - 4) < 30 then 10 * (attempts - 4) else 30
  }

  function WaitMessage(attempts: nat): string
    requires attempts >= LIMIT
  {
    "Too many attempts, please wait " + NatToString(WaitSeconds(attempts)) + " seconds."
  }

  datatype Verdict = TooMany(status: nat, message: string) | Next

  datatype Step = Step(verdict: Verdict, table: Table)

  /** One request for `key` at clock time nowMs. Both `Date.now()` readings
      of the request are taken to be the same instant. */
  function Throttle(t: Table, key: string, nowMs: nat): (r: Step)
    ensures forall k | k != key :: (k in r.table <==> k in t) && (k in t ==> r.table[k] == t[k])
    ensures key in r.table
  {
    var t1 := if key in t then t else t[key := Attempt(0, nowMs)];
    var a := t1[key];
    if a.attempts >= LIMIT then Step(TooMany(429, WaitMessage(a.attempts)), t1)
    else if nowMs - a.lastAttempt > WINDOW_MS then Step(Next, t1[key := Attempt(1, nowMs)])
    else Step(Next, t1[key := Attempt(a.attempts + 1, a.lastAttempt)])
  }

  predicate Bounded(t: Table) {
    forall k | k in t :: t[k].attempts <= LIMIT
  }

  // ---------------------------------------------------------------------------
  // Properties.

  /** No entry ever counts more than five attempts. */
  lemma ThrottleKeepsBound(t: Table, key: string, nowMs: nat)
    requires Bounded(t)
    ensures Bounded(Throttle(t, key, nowMs).table)
  {
  }

  /** The first request for an email records one attempt and passes. */
  lemma FirstRequestPasses(t: Table, key: string, nowMs: nat)
    requires key !in t
    ensures Throttle(t, key, nowMs) == Step(Next, t[key := Attempt(1, nowMs)])
  {
  }

  /** Within a minute of the window's start a passing request adds one
      attempt and leaves the start where it was. */
  lemma WithinWindowCounts(t: Table, key: string, nowMs: nat)
    requires key in t && t[key].attempts < LIMIT && nowMs - t[key].lastAttempt <= WINDOW_MS
    ensures Throttle(t, key, nowMs) == Step(Next, t[key := Attempt(t[key].attempts + 1, t[key].lastAttempt)])
  {
  }

  /** More than a minute after the window's start the count restarts at 1. */
  lemma AfterWindowResets(t: Table, key: string, nowMs: nat)
    requires key in t && t[key].attempts < LIMIT && nowMs - t[key].lastAttempt > WINDOW_MS
    ensures Throttle(t, key, nowMs) == Step(Next, t[key := Attempt(1, nowMs)])
  {
  }

  /** Five counted attempts block the email for good: the refusal comes
      before the window check and changes nothing, at any later time. */
  lemma {:induction false} BlockedForever(t: Table, key: string, times: seq<nat>)
    requires key in t && t[key].attempts >= LIMIT
    ensures RunAll(t, key, times).table == t
    ensures forall i | 0 <= i < |times| :: Throttle(t, key, times[i]).verdict.TooMany?
    decreases |times|
  {
    if times != [] {
      BlockedForever(t, key, times[1..]);
    }
  }

  /** The table after the requests at `times`, in order, all for one key. */
  function RunAll(t: Table, key: string, times: seq<nat>): (r: Step)
    decreases |times|
  {
    if times == [] then Step(Next, t)
    else
      var s := Throttle(t, key, times[0]);
      if |times| == 1 then s else RunAll(s.table, key, times[1..])
  }

  /** Since no entry passes five attempts, the refusal always asks for 10 seconds. */
  lemma WaitIsAlwaysTenSeconds(t: Table, key: string, nowMs: nat)
    requires Bounded(t)
    ensures Throttle(t, key, nowMs).verdict.TooMany? ==>
              Throttle(t, key, nowMs).verdict == TooMany(429, "Too many attempts, please wait 10 seconds.")
  {
    if key in t && t[key].attempts >= LIMIT {
      assert t[key].attempts == LIMIT;
      assert NatToString(10) == "10";
    }
  }

  /** Five requests in a minute pass and the sixth is refused. */
  lemma SixthRequestRefused(t: Table, key: string, t0: nat)
    requires key !in t
    ensures var s1 := Throttle(t, key, t0).table;
            var s2 := Throttle(s1, key, t0).table;
            var s3 := Throttle(s2, key, t0).table;
            var s4 := Throttle(s3, key, t0).table;
            var s5 := Throttle(s4, key, t0);
            s5.verdict.Next? && s5.table[key] == Attempt(5, t0) &&
            Throttle(s5.table, key, t0 + WINDOW_MS).verdict.TooMany?
  {
  }

  // ---------------------------------------------------------------------------
  // The module-level object.

  class Throttles {
    var table: Table

    constructor ()
      ensures table == map[]
    {
      table := map[];
    }

    /** `otpThrottling(req, res, next)` for `req.body.email`. */
    method OtpThrottling(email: Option<string>, nowMs: nat) returns (verdict: Verdict)
      modifies this
      ensures Step(verdict, table) == Throttle(old(table), KeyOf(email), nowMs)
    {
      var key := KeyOf(email);
      if key !in table {
        table := table[key := Attempt(0, nowMs)];
      }
      var a := table[key];
      if a.attempts >= LIMIT {
        return TooMany(429, WaitMessage(a.attempts));
      }
      if nowMs - a.lastAttempt > WINDOW_MS {
        table := table[key := Attempt(1, nowMs)];
      } else {
        table := table[key := Attempt(a.attempts + 1, a.lastAttempt)];
      }
      verdict := Next;
    }
  }
}
