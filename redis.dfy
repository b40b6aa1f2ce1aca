/** The part of a Redis server the source uses, seen through a node-redis
    client: string values with an optional expiry instant, `SET … EX`,
    `SETEX`, `INCR`, `EXPIRE` and `GET`. Time is the caller's clock in
    milliseconds; a key whose expiry instant has passed reads as absent, as
    Redis treats a key as expired once the clock is past its instant. A
    client that is not connected rejects every command with node-redis's
    "The client is closed" and leaves the data alone. */
module Redis {
  import opened Wrappers

  /** A string value, or one that INCR maintains as an integer. */
  datatype Value = Text(text: string) | Counter(count: nat)

  datatype Entry = Entry(value: Value, expiresAt: Option<nat>)

  type Data = map<string, Entry>

  const CLOSED := "The client is closed"
  const NOT_AN_INTEGER := "ERR value is not an integer or out of range"

  predicate Live(e: Entry, nowMs: nat) {
    e.expiresAt.None? || nowMs <= e.expiresAt.value
  }

  /** `GET key` at time nowMs. */
  function Get(d: Data, key: string, nowMs: nat): (r: Option<Value>)
    ensures r.Some? <==> key in d && Live(d[key], nowMs)
    ensures r.Some? ==> r.value == d[key].value
  {
    if key in d && Live(d[key], nowMs) then Some(d[key].value) else None
  }

  /** `SET key text EX ttl` and `SETEX key ttl text`: overwrite value and expiry. */
  function SetEx(d: Data, key: string, text: string, ttlSeconds: nat, nowMs: nat): Data {
    d[key := Entry(Text(text), Some(nowMs + 1000 * ttlSeconds))]
  }

  /** `INCR key`: the new count and data. A missing or expired key starts
      from 0 and gets no expiry; a live counter keeps its expiry; a text value
      is an error. */
  function Incr(d: Data, key: string, nowMs: nat): Result<(nat, Data)> {
    match Get(d, key, nowMs)
    case None => Ok((1, d[key := Entry(Counter(1), None)]))
    case Some(Counter(n)) => Ok((n + 1, d[key := Entry(Counter(n + 1), d[key].expiresAt)]))
    case Some(Text(_)) => Err(NOT_AN_INTEGER)
  }

  /** `EXPIRE key ttl`: whether the key existed, and the data with its new expiry. */
  function Expire(d: Data, key: string, ttlSeconds: nat, nowMs: nat): (bool, Data) {
    if Get(d, key, nowMs).Some? then
      (true, d[key := Entry(d[key].value, Some(nowMs + 1000 * ttlSeconds))])
    else (false, d)
  }

  // ---------------------------------------------------------------------------
  // Properties of the commands.

  /** A value set with a TTL reads back until its expiry instant and is gone after. */
  lemma GetAfterSetEx(d: Data, key: string, text: string, ttlSeconds: nat, nowMs: nat, at: nat)
    ensures Get(SetEx(d, key, text, ttlSeconds, nowMs), key, at) ==
            if at <= nowMs + 1000 * ttlSeconds then Some(Text(text)) else None
  {
  }

  /** Writing one key leaves every other key as it read before. */
  lemma SetExOtherKey(d: Data, key: string, other: string, text: string, ttlSeconds: nat, nowMs: nat, at: nat)
    requires other != key
    ensures Get(SetEx(d, key, text, ttlSeconds, nowMs), other, at) == Get(d, other, at)
  {
  }

  /** INCR on an absent key yields 1, on a live counter its successor, and
      touches no other key. */
  lemma IncrCounts(d: Data, key: string, other: string, nowMs: nat)
    requires Get(d, key, nowMs).None? || Get(d, key, nowMs).value.Counter?
    ensures Incr(d, key, nowMs).Ok?
    ensures Incr(d, key, nowMs).value.0 ==
            if Get(d, key, nowMs).None? then 1 else Get(d, key, nowMs).value.count + 1
    ensures Get(Incr(d, key, nowMs).value.1, key, nowMs) == Some(Counter(Incr(d, key, nowMs).value.0))
    ensures other != key ==> Get(Incr(d, key, nowMs).value.1, other, nowMs) == Get(d, other, nowMs)
  {
  }

  /** A key that INCR has just created has no expiry until EXPIRE gives it one. */
  lemma IncrThenExpire(d: Data, key: string, ttlSeconds: nat, nowMs: nat)
    requires Get(d, key, nowMs).None?
    ensures var (n, d1) := Incr(d, key, nowMs).value;
            n == 1 && d1[key].expiresAt.None? &&
            Expire(d1, key, ttlSeconds, nowMs) == (true, d[key := Entry(Counter(1), Some(nowMs + 1000 * ttlSeconds))])
  {
    var d1 := d[key := Entry(Counter(1), None)];
    var e := Entry(Counter(1), Some(nowMs + 1000 * ttlSeconds));
    assert d1[key := e] == d[key := e];
  }

  // ---------------------------------------------------------------------------
  // The client object.

  class Client {
    var up: bool
    var data: Data

    constructor (up: bool, data: Data)
      ensures this.up == up && this.data == data
    {
      this.up := up;
      this.data := data;
    }

    /** `client.set(key, text, { EX: ttl })` / `client.setEx(key, ttl, text)`. */
    method Set(key: string, text: string, ttlSeconds: nat, nowMs: nat) returns (ok: bool)
      modifies this`data
      ensures ok == up
      ensures data == if up then SetEx(old(data), key, text, ttlSeconds, nowMs) else old(data)
    {
      ok := up;
      if up {
        data := data[key := Entry(Text(text), Some(nowMs + 1000 * ttlSeconds))];
      }
    }

    /** `client.incr(key)`. */
    method Increment(key: string, nowMs: nat) returns (r: Result<nat>)
      modifies this`data
      ensures !up ==> r == Err(CLOSED) && data == old(data)
      ensures up ==> match Incr(old(data), key, nowMs)
                     case Ok((n, d)) => r == Ok(n) && data == d
                     case Err(e) => r == Err(e) && data == old(data)
    {
      if !up {
        return Err(CLOSED);
      }
      var current := Get(data, key, nowMs);
      if current.None? {
        data := data[key := Entry(Counter(1), None)];
        r := Ok(1);
      } else if current.value.Counter? {
        var n := current.value.count + 1;
        data := data[key := Entry(Counter(n), data[key].expiresAt)];
        r := Ok(n);
      } else {
        r := Err(NOT_AN_INTEGER);
      }
    }

    /** `client.expire(key, ttl)`. */
    method SetExpiry(key: string, ttlSeconds: nat, nowMs: nat) returns (r: Result<bool>)
      modifies this`data
      ensures !up ==> r == Err(CLOSED) && data == old(data)
      ensures up ==> r == Ok(Expire(old(data), key, ttlSeconds, nowMs).0) &&
                     data == Expire(old(data), key, ttlSeconds, nowMs).1
    {
      if !up {
        return Err(CLOSED);
      }
      var existed := Get(data, key, nowMs).Some?;
      if existed {
        data := data[key := Entry(data[key].value, Some(nowMs + 1000 * ttlSeconds))];
      }
      r := Ok(existed);
    }

    /** `client.get(key)`. */
    method Read(key: string, nowMs: nat) returns (r: Result<Option<Value>>)
      ensures r == if up then Ok(Get(data, key, nowMs)) else Err(CLOSED)
    {
      if up {
        r := Ok(if key in data && Live(data[key], nowMs) then Some(data[key].value) else None);
      } else {
        r := Err(CLOSED);
      }
    }
  }
}
