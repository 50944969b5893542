/**
 * The guards of middleware/auth.ts: `authenticate` turns the Authorization
 * header into `req.user` (or a 401), and `authorize(...roles)` checks the
 * role of `req.user`.
 */
module AuthMiddleware {
  import opened Wrappers
  import opened Text
  import opened Jwt
  import opened UserModel

  const NoTokenMessage: string := "Access token is required"
  const NoUserMessage: string := "Invalid token or user not found"
  const BadTokenMessage: string := "Invalid token"
  const AuthRequiredMessage: string := "Authentication required"
  const ForbiddenMessage: string := "Insufficient permissions"

  /** A user as loaded with `select('-password -refreshTokens')`. */
  datatype LoadedUser = LoadedUser(
    id: UserId, email: string, name: string, phone: Option<string>, role: Role,
    isActive: bool, createdAt: nat, updatedAt: nat)

  function Load(u: User): LoadedUser {
    LoadedUser(u.id, u.email, u.name, u.phone, u.role, u.isActive, u.createdAt, u.updatedAt)
  }

  /** `req.header('Authorization')?.replace('Bearer ', '')`: the first "Bearer " removed. */
  function BearerToken(header: Option<string>): Option<string> {
    match header
    case None => None
    case Some(h) => Some(ReplaceFirst(h, "Bearer ", ""))
  }

  /** The prefix is stripped from a header that starts with it. */
  lemma BearerTokenOfPrefixed(t: Token)
    ensures BearerToken(Some("Bearer " + t)) == Some(t)
  {
    ReplaceFirstAtStart("Bearer ", t);
  }

  /** What `authenticate` decides: admit the user at position `id`, or answer with an error. */
  datatype Decision = Admit(id: UserId, user: LoadedUser) | Refuse(status: nat, message: string)

  /**
   * `authenticate`: no token gives "Access token is required"; a missing
   * JWT_SECRET or a token that does not verify throws and is answered
   * "Invalid token"; a missing or inactive user gives "Invalid token or user
   * not found"; otherwise the user, without password and token list, is admitted.
   */
  function Authenticate(header: Option<string>, env: Env, users: seq<User>, now: nat): (d: Decision)
    ensures d.Refuse? ==> d.status == 401 && d.message in {NoTokenMessage, NoUserMessage, BadTokenMessage}
    ensures d == Refuse(401, NoTokenMessage) <==> !Truthy(BearerToken(header))
    ensures d == Refuse(401, BadTokenMessage) <==>
      Truthy(BearerToken(header))
      && (!Truthy(env.jwtSecret) || Verify(BearerToken(header).value, env.jwtSecret.value, now).Err?)
    ensures d.Admit? <==>
      && Truthy(BearerToken(header)) && Truthy(env.jwtSecret)
      && Verify(BearerToken(header).value, env.jwtSecret.value, now).Ok?
      && var id := Verify(BearerToken(header).value, env.jwtSecret.value, now).value.userId;
         id < |users| && users[id].isActive
    ensures d.Admit? ==> d.id < |users| && d.user == Load(users[d.id]) && d.user.isActive
  {
    var token := BearerToken(header);
    if !Truthy(token) then Refuse(401, NoTokenMessage)
    else if !Truthy(env.jwtSecret) then Refuse(401, BadTokenMessage)
    else match Verify(token.value, env.jwtSecret.value, now)
      case Err(_) => Refuse(401, BadTokenMessage)
      case Ok(claims) =>
        match FindById(users, claims.userId)
        case None => Refuse(401, NoUserMessage)
        case Some(u) =>
          if !u.isActive then Refuse(401, NoUserMessage) else Admit(claims.userId, Load(u))
  }

  lemma ParseEmpty()
    ensures Parse("") == None
  {
    assert DigitPrefix("") == 0;
  }

  /** An access token issued to an active user is admitted, as that user, until it expires. */
  lemma IssuedAccessTokenAdmitted(users: seq<User>, env: Env, id: UserId, issued: nat, now: nat)
    requires StoreValid(users) && id < |users| && users[id].isActive
    requires GenerateAuthTokens(users[id], env, issued).Ok?
    requires issued <= now < issued + AccessTtl(env)
    ensures Authenticate(Some("Bearer " + GenerateAuthTokens(users[id], env, issued).value.accessToken), env, users, now)
         == Admit(id, Load(users[id]))
  {
    var t := GenerateAuthTokens(users[id], env, issued).value.accessToken;
    BearerTokenOfPrefixed(t);
    ParseEmpty();
  }

  /** The same token is refused as expired once its lifetime has passed. */
  lemma ExpiredAccessTokenRefused(users: seq<User>, env: Env, id: UserId, issued: nat, now: nat)
    requires id < |users| && GenerateAuthTokens(users[id], env, issued).Ok?
    requires now >= issued + AccessTtl(env)
    ensures Authenticate(Some("Bearer " + GenerateAuthTokens(users[id], env, issued).value.accessToken), env, users, now)
         == Refuse(401, BadTokenMessage)
  {
    var t := GenerateAuthTokens(users[id], env, issued).value.accessToken;
    BearerTokenOfPrefixed(t);
    ParseEmpty();
  }

  /** A token for a deactivated user is refused with "Invalid token or user not found". */
  lemma DeactivatedUserRefused(users: seq<User>, env: Env, id: UserId, issued: nat, now: nat)
    requires StoreValid(users) && id < |users| && !users[id].isActive
    requires GenerateAuthTokens(users[id], env, issued).Ok?
    requires issued <= now < issued + AccessTtl(env)
    ensures Authenticate(Some("Bearer " + GenerateAuthTokens(users[id], env, issued).value.accessToken), env, users, now)
         == Refuse(401, NoUserMessage)
  {
    var t := GenerateAuthTokens(users[id], env, issued).value.accessToken;
    BearerTokenOfPrefixed(t);
    ParseEmpty();
  }

  /** Only the first "Bearer " goes: a header without any is taken as the token itself. */
  lemma HeaderWithoutPrefixIsToken(users: seq<User>, env: Env, t: Token, now: nat)
    requires forall j :: !OccursAt(t, "Bearer ", j)
    ensures Authenticate(Some(t), env, users, now) == Authenticate(Some("Bearer " + t), env, users, now)
  {
    ReplaceFirstAbsent(t, "Bearer ");
    BearerTokenOfPrefixed(t);
  }

  /** With distinct secrets a refresh token is not an access token. */
  lemma RefreshTokenRefusedAsAccess(users: seq<User>, env: Env, id: UserId, issued: nat, now: nat)
    requires id < |users| && GenerateAuthTokens(users[id], env, issued).Ok?
    requires env.jwtSecret != env.jwtRefreshSecret
    ensures Authenticate(Some("Bearer " + GenerateAuthTokens(users[id], env, issued).value.refreshToken), env, users, now)
         == Refuse(401, BadTokenMessage)
  {
    var t := GenerateAuthTokens(users[id], env, issued).value.refreshToken;
    BearerTokenOfPrefixed(t);
    ParseEmpty();
  }

  /**
   * With equal secrets a refresh token is admitted as an access token for its
   * whole seven days, since `authenticate` only reads `userId`.
   */
  lemma RefreshTokenAdmittedWhenSecretsEqual(users: seq<User>, env: Env, id: UserId, issued: nat, now: nat)
    requires StoreValid(users) && id < |users| && users[id].isActive
    requires GenerateAuthTokens(users[id], env, issued).Ok?
    requires env.jwtSecret == env.jwtRefreshSecret
    requires issued <= now < issued + SevenDays
    ensures Authenticate(Some("Bearer " + GenerateAuthTokens(users[id], env, issued).value.refreshToken), env, users, now)
         == Admit(id, Load(users[id]))
  {
    var t := GenerateAuthTokens(users[id], env, issued).value.refreshToken;
    BearerTokenOfPrefixed(t);
    ParseEmpty();
  }

  /** One request as the middleware sees it: `req.user`, the `next()` calls, the response sent. */
  class Exchange {
    var user: Option<LoadedUser>
    var nextCalls: nat
    var response: Option<(nat, string)>

    constructor()
      ensures user == None && nextCalls == 0 && response == None
    {
      user := None;
      nextCalls := 0;
      response := None;
    }
  }

  /** `authenticate` run on an exchange: either `req.user` is set and `next()` called once, or a 401 is sent. */
  method RunAuthenticate(x: Exchange, header: Option<string>, env: Env, users: seq<User>, now: nat)
    modifies x
    ensures match Authenticate(header, env, users, now)
      case Admit(_, u) =>
        x.user == Some(u) && x.nextCalls == old(x.nextCalls) + 1 && x.response == old(x.response)
      case Refuse(status, message) =>
        x.user == old(x.user) && x.nextCalls == old(x.nextCalls) && x.response == Some((status, message))
  {
    var token := BearerToken(header);
    if !Truthy(token) {
      x.response := Some((401, NoTokenMessage));
      return;
    }
    if !Truthy(env.jwtSecret) {
      x.response := Some((401, BadTokenMessage));
      return;
    }
    var decoded := Verify(token.value, env.jwtSecret.value, now);
    if decoded.Err? {
      x.response := Some((401, BadTokenMessage));
      return;
    }
    var found := FindById(users, decoded.value.userId);
    if found.None? || !found.value.isActive {
      x.response := Some((401, NoUserMessage));
      return;
    }
    x.user := Some(Load(found.value));
    x.nextCalls := x.nextCalls + 1;
  }

  /** What `authorize(...roles)` decides. */
  datatype Gate = Allow | Block(status: nat, message: string)

  /** `authorize(...roles)`: 401 without a user, 403 for a role not listed, otherwise `next()`. */
  function Authorize(user: Option<LoadedUser>, roles: seq<string>): (g: Gate)
    ensures g == Allow <==> user.Some? && RoleName(user.value.role) in roles
    ensures g == Block(401, AuthRequiredMessage) <==> user.None?
    ensures g == Block(403, ForbiddenMessage) <==> user.Some? && RoleName(user.value.role) !in roles
  {
    if user.None? then Block(401, AuthRequiredMessage)
    else if RoleName(user.value.role) !in roles then Block(403, ForbiddenMessage)
    else Allow
  }

  /** `authorize('admin')` lets exactly the administrators through. */
  lemma AdminOnly(u: LoadedUser)
    ensures Authorize(Some(u), ["admin"]) == Allow <==> u.role == Admin
  {
  }
}
