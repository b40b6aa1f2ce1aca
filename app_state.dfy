/** The stores the handlers share, as one snapshot value and as the objects
    behind it: the User and Role collections, the OTP ledger of otpHelper.js,
    the mail transport, the Redis client of tokenService.js (refresh tokens)
    and the Redis client of registerController.js (registration counters and
    verification tokens). The two Redis clients are separate connections. */
module AppState {
  import UserModel
  import RoleModel
  import OtpHelper
  import Mail
  import Redis

  datatype World = World(
    usersUp: bool, users: seq<UserModel.User>,
    rolesUp: bool, roles: seq<RoleModel.Role>,
    otp: OtpHelper.Store,
    mailUp: bool, outbox: seq<Mail.Mail>,
    tokensUp: bool, tokens: Redis.Data,
    registrationsUp: bool, registrations: Redis.Data)

  class App {
    const users: UserModel.Users
    const roles: RoleModel.Roles
    const ledger: OtpHelper.OtpLedger
    const mailer: Mail.Mailer
    const tokens: Redis.Client
    const registrations: Redis.Client

    constructor (users: UserModel.Users, roles: RoleModel.Roles, ledger: OtpHelper.OtpLedger,
                 mailer: Mail.Mailer, tokens: Redis.Client, registrations: Redis.Client)
      ensures this.users == users && this.roles == roles && this.ledger == ledger
      ensures this.mailer == mailer && this.tokens == tokens && this.registrations == registrations
    {
      this.users := users;
      this.roles := roles;
      this.ledger := ledger;
      this.mailer := mailer;
      this.tokens := tokens;
      this.registrations := registrations;
    }

    /** The two Redis clients are distinct objects. */
    predicate Valid() {
      tokens != registrations
    }

    function Snapshot(): World
      reads users, roles, ledger, mailer, tokens, registrations
    {
      World(users.up, users.docs, roles.up, roles.docs, ledger.entries, mailer.up, mailer.outbox,
            tokens.up, tokens.data, registrations.up, registrations.data)
    }
  }
}
