/** src/api/V1/controllers/auth/logoutController.js: `logout`. The token is
    the Authorization header with its first `Bearer ` removed; a missing or
    empty token is refused. The file imports nothing, so the first call in
    its `try` block, `verifyToken`, throws a ReferenceError and every request
    that carries a token ends in the catch: the device filter and the save
    after it are never reached. The filter itself is modelled as the
    function it is, with its properties. */
module LogoutController {
  import opened Wrappers
  import opened Text
  import opened UserModel
  import LoginController

  const NO_TOKEN := "No token provided"
  const LOGOUT_ERROR := "Server error during logout"
  /** The ReferenceError the undeclared `verifyToken` raises. */
  const NOT_DEFINED := "verifyToken is not defined"

  datatype LogoutReply = LogoutReply(status: int, message: string, error: Option<string>)

  /** `req.header('Authorization')?.replace('Bearer ', '')` */
  function LogoutToken(header: Option<string>): (t: Option<string>)
    ensures header.None? <==> t.None?
    ensures header.Some? ==> t.value == RemoveFirst(header.value, "Bearer ")
  {
    match header
    case None => None
    case Some(h) => Some(RemoveFirst(h, "Bearer "))
  }

  /** `logout(req, res)` for the Authorization header. */
  function Logout(header: Option<string>): (r: LogoutReply)
    ensures r.status == 401 <==> LogoutToken(header).None? || LogoutToken(header).value == ""
    ensures r.status != 401 ==> r == LogoutReply(500, LOGOUT_ERROR, Some(NOT_DEFINED))
  {
    var token := LogoutToken(header);
    if token.None? || token.value == "" then LogoutReply(401, NO_TOKEN, None)
    else LogoutReply(500, LOGOUT_ERROR, Some(NOT_DEFINED))
  }

  /** The device test of the filter: both the user agent and the address equal. */
  predicate SameDevice(d: Device, userAgent: Option<string>, ip: string) {
    d.userAgent == userAgent && d.ipAddress == ip
  }

  /** `user.devices.filter(device => !(device.userAgent === ua && device.ipAddress === ip))` */
  function RemoveDevice(devices: seq<Device>, userAgent: Option<string>, ip: string): (r: seq<Device>)
    ensures |r| <= |devices|
    ensures forall i | 0 <= i < |r| :: r[i] in devices && !SameDevice(r[i], userAgent, ip)
    decreases |devices|
  {
    if devices == [] then []
    else (if SameDevice(devices[0], userAgent, ip) then [] else [devices[0]]) + RemoveDevice(devices[1..], userAgent, ip)
  }

  // ---------------------------------------------------------------------------
  // Properties.

  /** A missing header, or one that is exactly `Bearer `, is refused with 401. */
  lemma NoTokenRefused()
    ensures Logout(None) == LogoutReply(401, NO_TOKEN, None)
    ensures Logout(Some("Bearer ")) == LogoutReply(401, NO_TOKEN, None)
  {
    RemoveFirstOfPrefix("Bearer ", "");
    assert "Bearer " + "" == "Bearer ";
  }

  /** `Bearer <t>` yields `t`, and a header without `Bearer ` is the token as it is. */
  lemma TokenIsHeaderWithoutScheme(t: string, h: string)
    requires forall j | 0 <= j <= |h| :: !OccursAt(h, "Bearer ", j)
    ensures LogoutToken(Some("Bearer " + t)) == Some(t)
    ensures LogoutToken(Some(h)) == Some(h)
  {
    RemoveFirstOfPrefix("Bearer ", t);
    RemoveFirstAbsent(h, "Bearer ");
  }

  /** Every request with a non-empty token gets 500: `verifyToken` is not defined. */
  lemma TokenedRequestFails(header: string)
    requires RemoveFirst(header, "Bearer ") != ""
    ensures Logout(Some(header)) == LogoutReply(500, LOGOUT_ERROR, Some(NOT_DEFINED))
  {
  }

  /** The filter applied to a concatenation filters each part. */
  lemma {:induction false} RemoveDeviceAppend(a: seq<Device>, b: seq<Device>, userAgent: Option<string>, ip: string)
    ensures RemoveDevice(a + b, userAgent, ip) == RemoveDevice(a, userAgent, ip) + RemoveDevice(b, userAgent, ip)
    decreases |a|
  {
    if a != [] {
      assert (a + b)[0] == a[0] && (a + b)[1..] == a[1..] + b;
      RemoveDeviceAppend(a[1..], b, userAgent, ip);
      var head := if SameDevice(a[0], userAgent, ip) then [] else [a[0]];
      assert RemoveDevice(a + b, userAgent, ip) == head + RemoveDevice(a[1..] + b, userAgent, ip);
      assert RemoveDevice(a, userAgent, ip) == head + RemoveDevice(a[1..], userAgent, ip);
    } else {
      assert a + b == b;
    }
  }

  /** Devices of another pair are all kept, in their order. */
  lemma {:induction false} RemoveDeviceKeepsOthers(devices: seq<Device>, userAgent: Option<string>, ip: string)
    requires forall i | 0 <= i < |devices| :: !SameDevice(devices[i], userAgent, ip)
    ensures RemoveDevice(devices, userAgent, ip) == devices
    decreases |devices|
  {
    if devices != [] {
      RemoveDeviceKeepsOthers(devices[1..], userAgent, ip);
    }
  }

  /** Exactly the devices of the pair go: each other device keeps its
      number of occurrences, and the pair's devices have none left. */
  lemma {:induction false} RemoveDeviceExact(devices: seq<Device>, userAgent: Option<string>, ip: string, d: Device)
    ensures multiset(RemoveDevice(devices, userAgent, ip))[d] ==
            if SameDevice(d, userAgent, ip) then 0 else multiset(devices)[d]
    decreases |devices|
  {
    if devices != [] {
      var tail := devices[1..];
      RemoveDeviceExact(tail, userAgent, ip, d);
      var head := if SameDevice(devices[0], userAgent, ip) then [] else [devices[0]];
      assert RemoveDevice(devices, userAgent, ip) == head + RemoveDevice(tail, userAgent, ip);
      assert multiset(head + RemoveDevice(tail, userAgent, ip)) == multiset(head) + multiset(RemoveDevice(tail, userAgent, ip));
      assert devices == [devices[0]] + tail;
      assert multiset(devices) == multiset([devices[0]]) + multiset(tail);
    }
  }

  /** Filtering twice is filtering once, and afterwards the pair is no
      longer a known device for login. */
  lemma RemoveDeviceIdempotent(devices: seq<Device>, userAgent: Option<string>, ip: string)
    ensures RemoveDevice(RemoveDevice(devices, userAgent, ip), userAgent, ip) == RemoveDevice(devices, userAgent, ip)
    ensures !LoginController.KnownDevice(RemoveDevice(devices, userAgent, ip), userAgent, ip)
  {
    RemoveDeviceKeepsOthers(RemoveDevice(devices, userAgent, ip), userAgent, ip);
  }
}
