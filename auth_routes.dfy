/**
 * The session protocol of routes/auth.ts: register, login, refresh (with
 * rotation), logout and me, over the users collection.
 *
 * Each handler is written twice: as a function from the collection before
 * the request to the reply and the collection after it (the `...Spec`
 * functions, about which the lemmas speak), and as a method of `AuthServer`
 * that performs the same guard chain and the same sequence of writes on the
 * server's state, and is proved to agree with its function.
 */
module AuthRoutes {
  import opened Wrappers
  import opened Text
  import opened Jwt
  import opened Zod
  import opened Patterns
  import opened TokenList
  import opened UserModel
  import opened AuthMiddleware
  import opened Http

  const ValidationErrorMessage: string := "Validation error"
  const UserExistsMessage: string := "User already exists with this email"
  const RegisterFailedMessage: string := "Failed to register user"
  const RegisteredMessage: string := "User registered successfully"
  const InvalidCredentialsMessage: string := "Invalid credentials"
  const LoginFailedMessage: string := "Failed to login"
  const LoggedInMessage: string := "Login successful"
  const RefreshRequiredMessage: string := "Refresh token required"
  const RefreshInvalidMessage: string := "Invalid refresh token"
  const RefreshVerifyFailedMessage: string := "Invalid refresh token (verify failed)"
  const RefreshNoUserMessage: string := "Invalid refresh token (no user)"
  const RefreshUnknownMessage: string := "Invalid refresh token (not recognized)"
  const RefreshedMessage: string := "Token refreshed successfully"
  const LoggedOutMessage: string := "Logout successful"

  /** The JSON body of a register request; `None` for a field that is absent or not a string. */
  datatype RegisterBody = RegisterBody(email: Option<string>, password: Option<string>, name: Option<string>, phone: Option<string>)

  datatype LoginBody = LoginBody(email: Option<string>, password: Option<string>)

  /** `registerSchema`: an e-mail, a password of six or more, a name of two or more, an optional phone. */
  function RegisterIssues(b: RegisterBody): (r: seq<Issue>)
    ensures r == [] <==>
      && b.email.Some? && ZodEmail(b.email.value)
      && b.password.Some? && |b.password.value| >= 6
      && b.name.Some? && |b.name.value| >= 2
    ensures |r| <= 3
  {
    EmailString(b.email, "email", InvalidEmailMessage)
    + MinString(b.password, "password", 6, AtLeast(6))
    + MinString(b.name, "name", 2, AtLeast(2))
  }

  /** `loginSchema`: an e-mail and a password of six or more. */
  function LoginIssues(b: LoginBody): (r: seq<Issue>)
    ensures r == [] <==> b.email.Some? && ZodEmail(b.email.value) && b.password.Some? && |b.password.value| >= 6
    ensures |r| <= 2
  {
    EmailString(b.email, "email", InvalidEmailMessage) + MinString(b.password, "password", 6, AtLeast(6))
  }

  /** `JWT_REFRESH_SECRET || JWT_SECRET`. */
  function RefreshVerifySecret(env: Env): (s: Option<string>)
    ensures s.Some? <==> Truthy(env.jwtRefreshSecret) || Truthy(env.jwtSecret)
    ensures s.Some? ==> s.value != ""
    ensures Truthy(env.jwtRefreshSecret) ==> s == env.jwtRefreshSecret
  {
    if Truthy(env.jwtRefreshSecret) then env.jwtRefreshSecret
    else if Truthy(env.jwtSecret) then env.jwtSecret
    else None
  }

  function PublicView(u: User): PublicUser {
    PublicUser(u.id, u.email, u.name, RoleName(u.role))
  }

  /** The reply to a request and the collection after it. */
  datatype Outcome = Outcome(reply: Reply, users: seq<User>)

  function ValidationFailure(issues: seq<Issue>): Reply {
    Reply(400, false, ValidationErrorMessage, ZodIssues(issues), KeepCookie)
  }

  /** The fields of a register body that passed the schema. */
  function RegisterInput(body: RegisterBody): NewUserInput
    requires RegisterIssues(body) == []
  {
    NewUserInput(body.email.value, body.password.value, body.name.value, body.phone)
  }

  /** POST /register. */
  function RegisterSpec(users: seq<User>, env: Env, body: RegisterBody, now: nat, salt: nat): Outcome {
    var issues := RegisterIssues(body);
    if issues != [] then Outcome(ValidationFailure(issues), users)
    else
      var input := RegisterInput(body);
      if FindByEmail(users, input.email).Some? then Outcome(Fail(400, UserExistsMessage), users)
      else RegisterNew(users, env, NewUser(|users|, input, now), now, salt)
  }

  /** Register with the new document built: the model's validators, then the save. */
  function RegisterNew(users: seq<User>, env: Env, u: User, now: nat, salt: nat): Outcome
    requires u.id == |users|
  {
    if !Savable(u) then Outcome(Fail(500, RegisterFailedMessage), users)
    else RegisterSaved(users, env, PreSave(u, salt), now)
  }

  /** Register once the user is saved: the tokens, the push of the refresh token, the reply. */
  function RegisterSaved(users: seq<User>, env: Env, saved: User, now: nat): Outcome
    requires saved.id == |users|
  {
    var stored := users + [saved];
    match GenerateAuthTokens(saved, env, now)
    case Err(_) => Outcome(Fail(500, RegisterFailedMessage), stored)
    case Ok(pair) =>
      Outcome(
        Reply(201, true, RegisteredMessage, Session(PublicView(saved), pair.accessToken),
              SetCookie(pair.refreshToken, RefreshCookieMaxAgeMs)),
        SetTokens(stored, saved.id, PushCapped(saved.refreshTokens, pair.refreshToken, MaxSessions), now))
  }

  /** POST /login. */
  function LoginSpec(users: seq<User>, env: Env, body: LoginBody, now: nat): Outcome {
    var issues := LoginIssues(body);
    if issues != [] then Outcome(ValidationFailure(issues), users)
    else match FindByEmail(users, body.email.value)
      case None => Outcome(Fail(401, InvalidCredentialsMessage), users)
      case Some(id) =>
        var u := users[id];
        if !u.isActive || !ComparePassword(body.password.value, u.password) then
          Outcome(Fail(401, InvalidCredentialsMessage), users)
        else match GenerateAuthTokens(u, env, now)
          case Err(_) => Outcome(Fail(500, LoginFailedMessage), users)
          case Ok(pair) => LoginGranted(users, id, pair, now)
  }

  /** A login that passed every check: the capped push of the refresh token, and the session. */
  function LoginGranted(users: seq<User>, id: UserId, pair: TokenPair, now: nat): Outcome
    requires id < |users|
  {
    Outcome(
      Reply(200, true, LoggedInMessage, Session(PublicView(users[id]), pair.accessToken),
            SetCookie(pair.refreshToken, RefreshCookieMaxAgeMs)),
      SetTokens(users, id, PushCapped(users[id].refreshTokens, pair.refreshToken, MaxSessions), now))
  }

  /** POST /refresh with the `refreshToken` cookie. */
  function RefreshSpec(users: seq<User>, env: Env, cookie: Option<Token>, now: nat): Outcome {
    if !Truthy(cookie) then Outcome(Fail(401, RefreshRequiredMessage), users)
    else match RefreshVerifySecret(env)
      case None => Outcome(Fail(401, RefreshInvalidMessage), users)
      case Some(secret) =>
        match Verify(cookie.value, secret, now)
        case Err(_) => Outcome(Fail(401, RefreshVerifyFailedMessage), users)
        case Ok(claims) => RefreshVerified(users, env, claims.userId, cookie.value, now)
  }

  /** Refresh once the token verified as belonging to user `id`: the user and list checks, then rotation. */
  function RefreshVerified(users: seq<User>, env: Env, id: UserId, presented: Token, now: nat): Outcome {
    if id >= |users| || !users[id].isActive then Outcome(Fail(401, RefreshNoUserMessage), users)
    else if presented !in users[id].refreshTokens then Outcome(Fail(401, RefreshUnknownMessage), users)
    else match GenerateAuthTokens(users[id], env, now)
      case Err(_) => Outcome(Fail(401, RefreshInvalidMessage), users)
      case Ok(pair) => RefreshGranted(users, id, presented, pair, now)
  }

  /** The rotation: one write pulling the presented token, a second pushing the new one under the cap. */
  function RefreshGranted(users: seq<User>, id: UserId, presented: Token, pair: TokenPair, now: nat): Outcome
    requires id < |users|
  {
    var pulled := SetTokens(users, id, Pull(users[id].refreshTokens, presented), now);
    Outcome(
      Reply(200, true, RefreshedMessage, AccessOnly(pair.accessToken),
            SetCookie(pair.refreshToken, RefreshCookieMaxAgeMs)),
      SetTokens(pulled, id, PushCapped(pulled[id].refreshTokens, pair.refreshToken, MaxSessions), now))
  }

  /** POST /logout, behind `authenticate`. */
  function LogoutSpec(users: seq<User>, env: Env, header: Option<string>, cookie: Option<Token>, now: nat): Outcome {
    match Authenticate(header, env, users, now)
    case Refuse(status, message) => Outcome(Fail(status, message), users)
    case Admit(id, _) =>
      var after := if Truthy(cookie) then SetTokens(users, id, Pull(users[id].refreshTokens, cookie.value), now) else users;
      Outcome(Reply(200, true, LoggedOutMessage, NoBody, ClearCookie), after)
  }

  /** GET /me, behind `authenticate`; it changes nothing. */
  function MeSpec(users: seq<User>, env: Env, header: Option<string>, now: nat): (r: Reply)
    ensures r.status == 200 <==> Authenticate(header, env, users, now).Admit?
    ensures r.body.Profile? <==> r.status == 200
    ensures r.body.Profile? ==>
      var u := Authenticate(header, env, users, now).user;
      r.body == Profile(u.id, u.email, u.name, u.phone, RoleName(u.role), u.createdAt)
  {
    match Authenticate(header, env, users, now)
    case Refuse(status, message) => Fail(status, message)
    case Admit(_, u) => Reply(200, true, "", Profile(u.id, u.email, u.name, u.phone, RoleName(u.role), u.createdAt), KeepCookie)
  }

  // ------------------------------------------------------------- invariant

  lemma RegisterSavedKeepsStore(users: seq<User>, env: Env, saved: User, now: nat)
    requires StoreValid(users) && saved.id == |users| && saved.refreshTokens == []
    requires FindByEmailFrom(users, saved.email, 0).None?
    ensures StoreValid(RegisterSaved(users, env, saved, now).users)
  {
    AppendValid(users, saved);
    var r := GenerateAuthTokens(saved, env, now);
    if r.Ok? {
      SetTokensValid(users + [saved], saved.id, PushCapped(saved.refreshTokens, r.value.refreshToken, MaxSessions), now);
    }
  }

  lemma RegisterNewKeepsStore(users: seq<User>, env: Env, u: User, now: nat, salt: nat)
    requires StoreValid(users) && u.id == |users| && u.refreshTokens == []
    requires FindByEmailFrom(users, u.email, 0).None?
    ensures StoreValid(RegisterNew(users, env, u, now, salt).users)
  {
    if Savable(u) {
      RegisterSavedKeepsStore(users, env, PreSave(u, salt), now);
    }
  }

  /** Register keeps the collection valid: unique e-mails, ids as positions, at most five sessions. */
  lemma RegisterKeepsStore(users: seq<User>, env: Env, body: RegisterBody, now: nat, salt: nat)
    requires StoreValid(users)
    ensures StoreValid(RegisterSpec(users, env, body, now, salt).users)
  {
    if RegisterIssues(body) == [] {
      var input := RegisterInput(body);
      if FindByEmail(users, input.email).None? {
        RegisterAfterSchema(users, env, body, now, salt);
        RegisterNewKeepsStore(users, env, NewUser(|users|, input, now), now, salt);
      }
    }
  }

  lemma LoginGrantedKeepsStore(users: seq<User>, id: UserId, pair: TokenPair, now: nat)
    requires StoreValid(users) && id < |users|
    ensures StoreValid(LoginGranted(users, id, pair, now).users)
  {
    SetTokensValid(users, id, PushCapped(users[id].refreshTokens, pair.refreshToken, MaxSessions), now);
  }

  lemma LoginKeepsStore(users: seq<User>, env: Env, body: LoginBody, now: nat)
    requires StoreValid(users)
    ensures StoreValid(LoginSpec(users, env, body, now).users)
  {
    if LoginIssues(body) == [] && FindByEmail(users, body.email.value).Some? {
      var id := FindByEmail(users, body.email.value).value;
      var r := GenerateAuthTokens(users[id], env, now);
      if r.Ok? {
        LoginGrantedKeepsStore(users, id, r.value, now);
      }
    }
  }

  lemma RefreshGrantedKeepsStore(users: seq<User>, id: UserId, presented: Token, pair: TokenPair, now: nat)
    requires StoreValid(users) && id < |users|
    ensures StoreValid(RefreshGranted(users, id, presented, pair, now).users)
  {
    var pulled := SetTokens(users, id, Pull(users[id].refreshTokens, presented), now);
    SetTokensValid(users, id, Pull(users[id].refreshTokens, presented), now);
    SetTokensValid(pulled, id, PushCapped(pulled[id].refreshTokens, pair.refreshToken, MaxSessions), now);
  }

  lemma RefreshVerifiedKeepsStore(users: seq<User>, env: Env, id: UserId, presented: Token, now: nat)
    requires StoreValid(users)
    ensures StoreValid(RefreshVerified(users, env, id, presented, now).users)
  {
    if id < |users| && users[id].isActive && presented in users[id].refreshTokens {
      var r := GenerateAuthTokens(users[id], env, now);
      if r.Ok? {
        RefreshGrantedKeepsStore(users, id, presented, r.value, now);
      }
    }
  }

  lemma RefreshKeepsStore(users: seq<User>, env: Env, cookie: Option<Token>, now: nat)
    requires StoreValid(users)
    ensures StoreValid(RefreshSpec(users, env, cookie, now).users)
  {
    if Truthy(cookie) {
      match RefreshVerifySecret(env)
      case None =>
      case Some(secret) =>
        match Verify(cookie.value, secret, now)
        case Err(_) =>
        case Ok(claims) => RefreshVerifiedKeepsStore(users, env, claims.userId, cookie.value, now);
    }
  }

  lemma LogoutKeepsStore(users: seq<User>, env: Env, header: Option<string>, cookie: Option<Token>, now: nat)
    requires StoreValid(users)
    ensures StoreValid(LogoutSpec(users, env, header, cookie, now).users)
  {
    var d := Authenticate(header, env, users, now);
    if d.Admit? && Truthy(cookie) {
      SetTokensValid(users, d.id, Pull(users[d.id].refreshTokens, cookie.value), now);
    }
  }

  /** Register on a body that passed the schema, with an address not taken, is its next stage. */
  lemma RegisterAfterSchema(users: seq<User>, env: Env, body: RegisterBody, now: nat, salt: nat)
    requires RegisterIssues(body) == [] && FindByEmail(users, RegisterInput(body).email).None?
    ensures RegisterSpec(users, env, body, now, salt) == RegisterNew(users, env, NewUser(|users|, RegisterInput(body), now), now, salt)
  {
  }

  /** A savable document goes on to the save. */
  lemma RegisterNewSavable(users: seq<User>, env: Env, u: User, now: nat, salt: nat)
    requires u.id == |users| && Savable(u)
    ensures RegisterNew(users, env, u, now, salt) == RegisterSaved(users, env, PreSave(u, salt), now)
  {
  }

  // ---------------------------------------------------------------- server

  /** The server: the users collection and the environment it reads. */
  class AuthServer {
    var users: seq<User>
    const env: Env

    ghost predicate Valid()
      reads this
    {
      StoreValid(users)
    }

    constructor(env: Env)
      ensures Valid() && users == [] && this.env == env
    {
      users := [];
      this.env := env;
    }

    method Register(body: RegisterBody, now: nat, salt: nat) returns (reply: Reply)
      requires Valid()
      modifies this
      ensures Valid()
      ensures Outcome(reply, users) == RegisterSpec(old(users), env, body, now, salt)
    {
      RegisterKeepsStore(users, env, body, now, salt);
      var issues := RegisterIssues(body);
      if issues != [] {
        return ValidationFailure(issues);
      }
      var input := NewUserInput(body.email.value, body.password.value, body.name.value, body.phone);
      if FindByEmail(users, input.email).Some? {
        return Fail(400, UserExistsMessage);
      }
      var user := NewUser(|users|, input, now);
      if !Savable(user) {
        return Fail(500, RegisterFailedMessage);
      }
      user := PreSave(user, salt);
      users := users + [user];
      var tokens := GenerateAuthTokens(user, env, now);
      if tokens.Err? {
        return Fail(500, RegisterFailedMessage);
      }
      users := SetTokens(users, user.id, PushCapped(users[user.id].refreshTokens, tokens.value.refreshToken, MaxSessions), now);
      reply := Reply(201, true, RegisteredMessage, Session(PublicView(user), tokens.value.accessToken),
                     SetCookie(tokens.value.refreshToken, RefreshCookieMaxAgeMs));
    }

    method Login(body: LoginBody, now: nat) returns (reply: Reply)
      requires Valid()
      modifies this
      ensures Valid()
      ensures Outcome(reply, users) == LoginSpec(old(users), env, body, now)
    {
      LoginKeepsStore(users, env, body, now);
      var issues := LoginIssues(body);
      if issues != [] {
        return ValidationFailure(issues);
      }
      var found := FindByEmail(users, body.email.value);
      if found.None? {
        return Fail(401, InvalidCredentialsMessage);
      }
      var user := users[found.value];
      if !user.isActive {
        return Fail(401, InvalidCredentialsMessage);
      }
      if !ComparePassword(body.password.value, user.password) {
        return Fail(401, InvalidCredentialsMessage);
      }
      var tokens := GenerateAuthTokens(user, env, now);
      if tokens.Err? {
        return Fail(500, LoginFailedMessage);
      }
      users := SetTokens(users, found.value, PushCapped(user.refreshTokens, tokens.value.refreshToken, MaxSessions), now);
      reply := Reply(200, true, LoggedInMessage, Session(PublicView(user), tokens.value.accessToken),
                     SetCookie(tokens.value.refreshToken, RefreshCookieMaxAgeMs));
    }

    method Refresh(cookie: Option<Token>, now: nat) returns (reply: Reply)
      requires Valid()
      modifies this
      ensures Valid()
      ensures Outcome(reply, users) == RefreshSpec(old(users), env, cookie, now)
    {
      RefreshKeepsStore(users, env, cookie, now);
      if !Truthy(cookie) {
        return Fail(401, RefreshRequiredMessage);
      }
      var secret := RefreshVerifySecret(env);
      if secret.None? {
        return Fail(401, RefreshInvalidMessage);
      }
      var decoded := Verify(cookie.value, secret.value, now);
      if decoded.Err? {
        return Fail(401, RefreshVerifyFailedMessage);
      }
      var id := decoded.value.userId;
      var found := FindById(users, id);
      if found.None? || !found.value.isActive {
        return Fail(401, RefreshNoUserMessage);
      }
      if cookie.value !in found.value.refreshTokens {
        return Fail(401, RefreshUnknownMessage);
      }
      var tokens := GenerateAuthTokens(found.value, env, now);
      if tokens.Err? {
        return Fail(401, RefreshInvalidMessage);
      }
      // Two separate writes: first the pull, then the capped push.
      users := SetTokens(users, id, Pull(users[id].refreshTokens, cookie.value), now);
      users := SetTokens(users, id, PushCapped(users[id].refreshTokens, tokens.value.refreshToken, MaxSessions), now);
      reply := Reply(200, true, RefreshedMessage, AccessOnly(tokens.value.accessToken),
                     SetCookie(tokens.value.refreshToken, RefreshCookieMaxAgeMs));
    }

    method Logout(header: Option<string>, cookie: Option<Token>, now: nat) returns (reply: Reply)
      requires Valid()
      modifies this
      ensures Valid()
      ensures Outcome(reply, users) == LogoutSpec(old(users), env, header, cookie, now)
    {
      LogoutKeepsStore(users, env, header, cookie, now);
      var auth := Authenticate(header, env, users, now);
      if auth.Refuse? {
        return Fail(auth.status, auth.message);
      }
      if Truthy(cookie) {
        users := SetTokens(users, auth.id, Pull(users[auth.id].refreshTokens, cookie.value), now);
      }
      reply := Reply(200, true, LoggedOutMessage, NoBody, ClearCookie);
    }

    method Me(header: Option<string>, now: nat) returns (reply: Reply)
      ensures reply == MeSpec(users, env, header, now)
    {
      var auth := Authenticate(header, env, users, now);
      if auth.Refuse? {
        return Fail(auth.status, auth.message);
      }
      var u := auth.user;
      reply := Reply(200, true, "", Profile(u.id, u.email, u.name, u.phone, RoleName(u.role), u.createdAt), KeepCookie);
    }
  }
}
