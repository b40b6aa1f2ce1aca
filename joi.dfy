/** The part of Joi the schemas use: string keys with `required`, the
    built-in refusal of the empty string, rules checked in order, unknown
    keys refused, and the `{ path[0], message }` of each failure. A schema's
    failures are listed in key order, unknown keys last, which is Joi's
    `abortEarly: false` report; with the default `abortEarly: true` Joi
    stops at the first of them. */
module Joi {
  import opened Wrappers
  import opened Text

  datatype Detail = Detail(field: string, message: string)

  /** One rule of a key, already evaluated on the key's value. */
  datatype Check = Check(ok: bool, message: string)

  function Quoted(key: string): string { "\"" + key + "\"" }

  /** Joi's default `any.required` message. */
  function RequiredMessage(key: string): string { Quoted(key) + " is required" }

  /** Joi's default `string.empty` message. */
  function EmptyMessage(key: string): string { Quoted(key) + " is not allowed to be empty" }

  /** Joi's default `object.unknown` message. */
  function UnknownMessage(key: string): string { Quoted(key) + " is not allowed" }

  /** The failed rules of a key, in rule order. */
  function FailedChecks(key: string, checks: seq<Check>): (r: seq<Detail>)
    ensures r == [] <==> forall i | 0 <= i < |checks| :: checks[i].ok
    ensures forall i | 0 <= i < |r| :: r[i].field == key
    ensures |checks| > 0 && !checks[0].ok ==> r[0] == Detail(key, checks[0].message)
  {
    if checks == [] then []
    else (if checks[0].ok then [] else [Detail(key, checks[0].message)]) + FailedChecks(key, checks[1..])
  }

  /** The failures of a two-rule key, one by one. */
  lemma FailedChecksOfTwo(key: string, c0: Check, c1: Check)
    ensures FailedChecks(key, [c0, c1]) ==
            (if c0.ok then [] else [Detail(key, c0.message)]) + (if c1.ok then [] else [Detail(key, c1.message)])
  {
    assert [c0, c1][1..] == [c1];
    assert [c1][1..] == [];
  }

  /** A `Joi.string()` key: a missing value fails only when required, the
      empty string fails before any rule is tried, other values are checked
      against the rules. */
  function StringKey(key: string, value: Option<string>, required: bool,
                     requiredMessage: string, emptyMessage: string, checks: seq<Check>): (r: seq<Detail>)
    ensures value.None? ==> r == if required then [Detail(key, requiredMessage)] else []
    ensures value == Some("") ==> r == [Detail(key, emptyMessage)]
    ensures value.Some? && value.value != "" ==> r == FailedChecks(key, checks)
  {
    match value
    case None => if required then [Detail(key, requiredMessage)] else []
    case Some(s) => if s == "" then [Detail(key, emptyMessage)] else FailedChecks(key, checks)
  }

  /** Keys of the input the schema does not declare, in input order. */
  function UnknownKeys(keys: seq<string>): (r: seq<Detail>)
    ensures |r| == |keys|
    ensures forall i | 0 <= i < |keys| :: r[i] == Detail(keys[i], UnknownMessage(keys[i]))
  {
    seq(|keys|, i requires 0 <= i < |keys| => Detail(keys[i], UnknownMessage(keys[i])))
  }

  /** The error `schema.validate(value)` returns under the default
      `abortEarly: true`: the first failure, if any. */
  function FirstMessage(details: seq<Detail>): (r: Option<string>)
    ensures r.None? <==> details == []
    ensures r.Some? ==> r.value == details[0].message
  {
    if details == [] then None else Some(details[0].message)
  }

  // ---------------------------------------------------------------------------
  // `string().email()`.

  predicate NoSpace(s: string) {
    forall i | 0 <= i < |s| :: !IsJsSpace(s[i])
  }

  /** A domain of at least two non-empty dot-separated labels. */
  predicate Domain(d: string) {
    |d| > 0 && d[0] != '.' && d[|d| - 1] != '.' && '.' in d &&
    forall i | 0 <= i < |d| - 1 :: !(d[i] == '.' && d[i + 1] == '.')
  }

  /** The shape `string().email()` accepts, in the abstract: one '@' with a
      non-empty local part before it and a dotted domain after it, and no
      white space anywhere. Joi's further limits (label characters, lengths,
      the list of registered top-level domains) are not part of the model. */
  predicate IsEmail(s: string) {
    NoSpace(s) &&
    exists a | 0 < a < |s| :: s[a] == '@' && '@' !in s[..a] && '@' !in s[a + 1..] && Domain(s[a + 1..])
  }
}
