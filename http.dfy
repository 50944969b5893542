/**
 * What a handler sends back: status, the `success` flag, the message, the
 * data part of the JSON body, and what happens to the `refreshToken` cookie.
 * A reply without a message (`/me`) carries the empty message.
 */
module Http {
  import opened Wrappers
  import opened Jwt
  import opened Zod

  /** `maxAge: 7 * 24 * 60 * 60 * 1000` of the refresh-token cookie, in milliseconds. */
  const RefreshCookieMaxAgeMs: nat := 7 * 24 * 60 * 60 * 1000

  /** Setting the cookie, leaving it, or clearing it (value "" with max-age 0, or `clearCookie`). */
  datatype CookieChange = KeepCookie | SetCookie(value: Token, maxAgeMs: nat) | ClearCookie

  /** The user part of the register and login bodies: id, email, name, role. */
  datatype PublicUser = PublicUser(id: UserId, email: string, name: string, role: string)

  datatype Body =
    | NoBody
    | Session(user: PublicUser, accessToken: Token)
    | LegacySession(user: PublicUser, phone: Option<string>, accessToken: Token)
    | AccessOnly(accessToken: Token)
    | Profile(id: UserId, email: string, name: string, phone: Option<string>, role: string, createdAt: nat)
    | ZodIssues(issues: seq<Issue>)

  datatype Reply = Reply(status: nat, success: bool, message: string, body: Body, cookie: CookieChange)

  /** A failure: `success: false`, no data, the cookie left alone. */
  function Fail(status: nat, message: string): Reply {
    Reply(status, false, message, NoBody, KeepCookie)
  }
}
