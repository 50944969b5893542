/**
 * The older session handlers of controllers/authController.ts: register,
 * login, logout and refreshToken, with their own schemas and their own
 * `generateTokens`.
 *
 * They differ from routes/auth.ts in ways the lemmas below make explicit:
 * every schema failure is answered 500, login keeps `slice(-4)` plus the new
 * token, refresh does not rotate, and logout reads the token list from a
 * `req.user` that was loaded without it.
 */
module LegacyAuth {
  import opened Wrappers
  import opened Text
  import opened Jwt
  import opened Zod
  import opened TokenList
  import opened UserModel
  import opened AuthMiddleware
  import opened Http
  import opened AuthRoutes

  const RegistrationFailedMessage: string := "Registration failed"
  const InvalidEmailOrPasswordMessage: string := "Invalid email or password"
  const LegacyLoginFailedMessage: string := "Login failed"
  const LogoutFailedMessage: string := "Logout failed"
  const RefreshNotFoundMessage: string := "Refresh token not found"

  /** The register body of this controller also carries `confirmPassword`. */
  datatype LegacyRegisterBody = LegacyRegisterBody(
    name: Option<string>, email: Option<string>, password: Option<string>, confirmPassword: Option<string>)

  /** `LoginSchema.parse` succeeds: an e-mail and a password of six or more. */
  predicate LegacyLoginParses(b: LoginBody) {
    b.email.Some? && ZodEmail(b.email.value) && b.password.Some? && |b.password.value| >= 6
  }

  /**
   * `RegisterSchema.parse` succeeds: a name of two or more, an e-mail, a
   * password of six or more, a string `confirmPassword`, and the refinement
   * that the two passwords are equal.
   */
  predicate LegacyRegisterParses(b: LegacyRegisterBody) {
    && b.name.Some? && |b.name.value| >= 2
    && b.email.Some? && ZodEmail(b.email.value)
    && b.password.Some? && |b.password.value| >= 6
    && b.confirmPassword.Some?
    && b.password.value == b.confirmPassword.value
  }

  /**
   * `generateTokens(userId)`: both tokens carry exactly `{userId}`; the
   * access token is signed with JWT_SECRET for an hour, the refresh token
   * with JWT_REFRESH_SECRET for seven days. Either secret missing throws.
   */
  function GenerateTokens(id: UserId, env: Env, now: nat): (r: Result<TokenPair, string>)
    ensures r.Err? <==> !Truthy(env.jwtSecret) || !Truthy(env.jwtRefreshSecret)
    ensures r.Err? ==> r.error == SecretsMissing
  {
    if !Truthy(env.jwtSecret) || !Truthy(env.jwtRefreshSecret) then Err(SecretsMissing)
    else Ok(TokenPair(
      Sign(SubjectClaims(id), env.jwtSecret.value, now, OneHour),
      Sign(SubjectClaims(id), env.jwtRefreshSecret.value, now, SevenDays)))
  }

  /** What the two tokens decode to. */
  lemma GenerateTokensParse(id: UserId, env: Env, now: nat)
    requires GenerateTokens(id, env, now).Ok?
    ensures Parse(GenerateTokens(id, env, now).value.accessToken)
         == Some(Decoded(SubjectClaims(id), env.jwtSecret.value, now, now + OneHour))
    ensures Parse(GenerateTokens(id, env, now).value.refreshToken)
         == Some(Decoded(SubjectClaims(id), env.jwtRefreshSecret.value, now, now + SevenDays))
  {
    ParseSerialize(Decoded(SubjectClaims(id), env.jwtSecret.value, now, now + OneHour));
    ParseSerialize(Decoded(SubjectClaims(id), env.jwtRefreshSecret.value, now, now + SevenDays));
  }

  /** `findOne({email, isActive: true})` on an already normalised address, from position `from` on. */
  function FindActiveByEmailFrom(users: seq<User>, email: string, from: nat): (r: Option<UserId>)
    requires from <= |users|
    ensures r.Some? ==> from <= r.value < |users| && users[r.value].email == email && users[r.value].isActive
    ensures r.None? ==> forall j :: from <= j < |users| ==> !(users[j].email == email && users[j].isActive)
    decreases |users| - from
  {
    if from == |users| then None
    else if users[from].email == email && users[from].isActive then Some(from)
    else FindActiveByEmailFrom(users, email, from + 1)
  }

  /** With unique addresses the active-user query finds the owner of the address, if active. */
  lemma {:induction false} FindActiveIsFindThenActive(users: seq<User>, email: string, from: nat)
    requires StoreValid(users) && from <= |users|
    ensures FindActiveByEmailFrom(users, email, from)
         == match FindByEmailFrom(users, email, from)
            case None => None
            case Some(id) => if users[id].isActive then Some(id) else None
    decreases |users| - from
  {
    if from < |users| && users[from].email != email {
      FindActiveIsFindThenActive(users, email, from + 1);
    } else if from < |users| && !users[from].isActive {
      assert FindActiveByEmailFrom(users, email, from + 1) == None by {
        forall j | from + 1 <= j < |users|
          ensures users[j].email != email
        {
          assert users[from].email != users[j].email;
        }
      }
    }
  }

  // -------------------------------------------------------------- register

  function LegacyRegisterInput(body: LegacyRegisterBody): NewUserInput
    requires LegacyRegisterParses(body)
  {
    NewUserInput(body.email.value, body.password.value, body.name.value, None)
  }

  /** `register`: any schema failure, a failed create and a token failure all end in the catch. */
  function LegacyRegisterSpec(users: seq<User>, env: Env, body: LegacyRegisterBody, now: nat, salt: nat): Outcome {
    if !LegacyRegisterParses(body) then Outcome(Fail(500, RegistrationFailedMessage), users)
    else
      var input := LegacyRegisterInput(body);
      if FindByEmail(users, input.email).Some? then Outcome(Fail(400, UserExistsMessage), users)
      else LegacyRegisterNew(users, env, NewUser(|users|, input, now), now, salt)
  }

  /** `User.create`: the validators, then the pre-save hook and the insert. */
  function LegacyRegisterNew(users: seq<User>, env: Env, u: User, now: nat, salt: nat): Outcome
    requires u.id == |users|
  {
    if !Savable(u) then Outcome(Fail(500, RegistrationFailedMessage), users)
    else LegacyRegisterCreated(users, env, PreSave(u, salt), now)
  }

  /**
   * After the create: the tokens, the push onto the in-memory list, the
   * second save. That save re-runs validators the document has just passed
   * (only the password changed, to a 60-character hash), so it does not fail.
   */
  function LegacyRegisterCreated(users: seq<User>, env: Env, created: User, now: nat): Outcome
    requires created.id == |users|
  {
    var stored := users + [created];
    match GenerateTokens(created.id, env, now)
    case Err(_) => Outcome(Fail(500, RegistrationFailedMessage), stored)
    case Ok(pair) =>
      var tokens := created.refreshTokens + [pair.refreshToken];
      Outcome(
        Reply(201, true, RegisteredMessage, Session(PublicView(created), pair.accessToken),
              SetCookie(pair.refreshToken, RefreshCookieMaxAgeMs)),
        SetTokens(stored, created.id, tokens, now))
  }

  // ----------------------------------------------------------------- login

  /** `login`. */
  function LegacyLoginSpec(users: seq<User>, env: Env, body: LoginBody, now: nat): Outcome {
    if !LegacyLoginParses(body) then Outcome(Fail(500, LegacyLoginFailedMessage), users)
    else match FindActiveByEmailFrom(users, NormalizeEmail(body.email.value), 0)
      case None => Outcome(Fail(401, InvalidEmailOrPasswordMessage), users)
      case Some(id) => LegacyLoginFound(users, env, id, body.password.value, now)
  }

  /** Login once the active user at `id` was found: the password, the tokens, the save. */
  function LegacyLoginFound(users: seq<User>, env: Env, id: UserId, password: string, now: nat): Outcome
    requires id < |users|
  {
    if !ComparePassword(password, users[id].password) then
      Outcome(Fail(401, InvalidEmailOrPasswordMessage), users)
    else match GenerateTokens(id, env, now)
      case Err(_) => Outcome(Fail(500, LegacyLoginFailedMessage), users)
      case Ok(pair) => LegacyLoginGranted(users, id, pair, now)
  }

  /** `refreshTokens = refreshTokens.slice(-4)`, the push, and the save with its validators. */
  function LegacyLoginGranted(users: seq<User>, id: UserId, pair: TokenPair, now: nat): Outcome
    requires id < |users|
  {
    var u := users[id];
    var tokens := Last(u.refreshTokens, MaxSessions - 1) + [pair.refreshToken];
    if !Savable(u.(refreshTokens := tokens)) then Outcome(Fail(500, LegacyLoginFailedMessage), users)
    else Outcome(
      Reply(200, true, LoggedInMessage, LegacySession(PublicView(u), u.phone, pair.accessToken),
            SetCookie(pair.refreshToken, RefreshCookieMaxAgeMs)),
      SetTokens(users, id, tokens, now))
  }

  // ---------------------------------------------------------------- logout

  /**
   * `logout` behind `authenticate`. The `req.user` it reads was loaded with
   * `select('-password -refreshTokens')`, so its `refreshTokens` is
   * undefined: with a cookie present the call to `filter` throws and the
   * catch answers 500; without one the cookie is cleared.
   */
  function LegacyLogoutSpec(users: seq<User>, env: Env, header: Option<string>, cookie: Option<Token>, now: nat): Reply {
    match Authenticate(header, env, users, now)
    case Refuse(status, message) => Fail(status, message)
    case Admit(_, loaded) =>
      if Truthy(cookie) then Fail(500, LogoutFailedMessage)
      else Reply(200, true, LoggedOutMessage, NoBody, ClearCookie)
  }

  // --------------------------------------------------------------- refresh

  /** `refreshToken`: every failure after the cookie check is the same 401, and nothing is written. */
  function LegacyRefreshSpec(users: seq<User>, env: Env, cookie: Option<Token>, now: nat): Reply {
    if !Truthy(cookie) then Fail(401, RefreshNotFoundMessage)
    else if !Truthy(env.jwtRefreshSecret) then Fail(401, RefreshInvalidMessage)
    else match Verify(cookie.value, env.jwtRefreshSecret.value, now)
      case Err(_) => Fail(401, RefreshInvalidMessage)
      case Ok(claims) => LegacyRefreshVerified(users, env, claims.userId, cookie.value, now)
  }

  /** Refresh once the token verified as belonging to user `id`. */
  function LegacyRefreshVerified(users: seq<User>, env: Env, id: UserId, presented: Token, now: nat): Reply {
    if id >= |users| || presented !in users[id].refreshTokens || !users[id].isActive then
      Fail(401, RefreshInvalidMessage)
    else match GenerateTokens(id, env, now)
      case Err(_) => Fail(401, RefreshInvalidMessage)
      case Ok(pair) => Reply(200, true, RefreshedMessage, AccessOnly(pair.accessToken), KeepCookie)
  }

  // ------------------------------------------------------------- invariant

  lemma LegacyRegisterCreatedKeepsStore(users: seq<User>, env: Env, created: User, now: nat)
    requires StoreValid(users) && created.id == |users| && created.refreshTokens == []
    requires FindByEmailFrom(users, created.email, 0).None?
    ensures StoreValid(LegacyRegisterCreated(users, env, created, now).users)
  {
    AppendValid(users, created);
    match GenerateTokens(created.id, env, now)
    case Err(_) =>
    case Ok(pair) =>
      var tokens := created.refreshTokens + [pair.refreshToken];
      assert |tokens| == 1;
      SetTokensValid(users + [created], created.id, tokens, now);
  }

  lemma LegacyRegisterNewKeepsStore(users: seq<User>, env: Env, u: User, now: nat, salt: nat)
    requires StoreValid(users) && u.id == |users| && u.refreshTokens == []
    requires FindByEmailFrom(users, u.email, 0).None?
    ensures StoreValid(LegacyRegisterNew(users, env, u, now, salt).users)
  {
    if Savable(u) {
      LegacyRegisterCreatedKeepsStore(users, env, PreSave(u, salt), now);
    }
  }

  lemma LegacyRegisterAfterSchema(users: seq<User>, env: Env, body: LegacyRegisterBody, now: nat, salt: nat)
    requires LegacyRegisterParses(body) && FindByEmail(users, LegacyRegisterInput(body).email).None?
    ensures LegacyRegisterSpec(users, env, body, now, salt)
         == LegacyRegisterNew(users, env, NewUser(|users|, LegacyRegisterInput(body), now), now, salt)
  {
  }

  /** Register keeps the collection valid. */
  lemma LegacyRegisterKeepsStore(users: seq<User>, env: Env, body: LegacyRegisterBody, now: nat, salt: nat)
    requires StoreValid(users)
    ensures StoreValid(LegacyRegisterSpec(users, env, body, now, salt).users)
  {
    if LegacyRegisterParses(body) {
      var input := LegacyRegisterInput(body);
      if FindByEmail(users, input.email).None? {
        LegacyRegisterAfterSchema(users, env, body, now, salt);
        LegacyRegisterNewKeepsStore(users, env, NewUser(|users|, input, now), now, salt);
      }
    }
  }

  /** `slice(-4)` plus one stays within five sessions. */
  lemma LegacyLoginGrantedKeepsStore(users: seq<User>, id: UserId, pair: TokenPair, now: nat)
    requires StoreValid(users) && id < |users|
    ensures StoreValid(LegacyLoginGranted(users, id, pair, now).users)
  {
    var tokens := Last(users[id].refreshTokens, MaxSessions - 1) + [pair.refreshToken];
    SetTokensValid(users, id, tokens, now);
  }

  lemma LegacyLoginFoundKeepsStore(users: seq<User>, env: Env, id: UserId, password: string, now: nat)
    requires StoreValid(users) && id < |users|
    ensures StoreValid(LegacyLoginFound(users, env, id, password, now).users)
  {
    if ComparePassword(password, users[id].password) {
      match GenerateTokens(id, env, now)
      case Err(_) =>
      case Ok(pair) => LegacyLoginGrantedKeepsStore(users, id, pair, now);
    }
  }

  lemma LegacyLoginKeepsStore(users: seq<User>, env: Env, body: LoginBody, now: nat)
    requires StoreValid(users)
    ensures StoreValid(LegacyLoginSpec(users, env, body, now).users)
  {
    if LegacyLoginParses(body) {
      match FindActiveByEmailFrom(users, NormalizeEmail(body.email.value), 0)
      case None =>
      case Some(id) => LegacyLoginFoundKeepsStore(users, env, id, body.password.value, now);
    }
  }

  // ---------------------------------------------------------------- server

  /** The server of the older controller: the same collection, the same environment. */
  class LegacyAuthServer {
    var users: seq<User>
    const env: Env

    ghost predicate Valid()
      reads this
    {
      StoreValid(users)
    }

    constructor(env: Env)
      ensures Valid() && users == [] && this.env == env
    {
      users := [];
      this.env := env;
    }

    method Register(body: LegacyRegisterBody, now: nat, salt: nat) returns (reply: Reply)
      requires Valid()
      modifies this
      ensures Valid()
      ensures Outcome(reply, users) == LegacyRegisterSpec(old(users), env, body, now, salt)
    {
      LegacyRegisterKeepsStore(users, env, body, now, salt);
      if !LegacyRegisterParses(body) {
        return Fail(500, RegistrationFailedMessage);
      }
      var input := NewUserInput(body.email.value, body.password.value, body.name.value, None);
      if FindByEmail(users, input.email).Some? {
        return Fail(400, UserExistsMessage);
      }
      var user := NewUser(|users|, input, now);
      if !Savable(user) {
        return Fail(500, RegistrationFailedMessage);
      }
      user := PreSave(user, salt);
      users := users + [user];
      var tokens := GenerateTokens(user.id, env, now);
      if tokens.Err? {
        return Fail(500, RegistrationFailedMessage);
      }
      // The push edits the document in memory; the second save writes it.
      var list := user.refreshTokens;
      list := list + [tokens.value.refreshToken];
      users := SetTokens(users, user.id, list, now);
      reply := Reply(201, true, RegisteredMessage, Session(PublicView(user), tokens.value.accessToken),
                     SetCookie(tokens.value.refreshToken, RefreshCookieMaxAgeMs));
    }

    method Login(body: LoginBody, now: nat) returns (reply: Reply)
      requires Valid()
      modifies this
      ensures Valid()
      ensures Outcome(reply, users) == LegacyLoginSpec(old(users), env, body, now)
    {
      LegacyLoginKeepsStore(users, env, body, now);
      if !LegacyLoginParses(body) {
        return Fail(500, LegacyLoginFailedMessage);
      }
      var found := FindActiveByEmailFrom(users, NormalizeEmail(body.email.value), 0);
      if found.None? {
        return Fail(401, InvalidEmailOrPasswordMessage);
      }
      var user := users[found.value];
      if !ComparePassword(body.password.value, user.password) {
        return Fail(401, InvalidEmailOrPasswordMessage);
      }
      var tokens := GenerateTokens(found.value, env, now);
      if tokens.Err? {
        return Fail(500, LegacyLoginFailedMessage);
      }
      var list := user.refreshTokens;
      list := Last(list, MaxSessions - 1);
      list := list + [tokens.value.refreshToken];
      if !Savable(user.(refreshTokens := list)) {
        return Fail(500, LegacyLoginFailedMessage);
      }
      users := SetTokens(users, found.value, list, now);
      reply := Reply(200, true, LoggedInMessage, LegacySession(PublicView(user), user.phone, tokens.value.accessToken),
                     SetCookie(tokens.value.refreshToken, RefreshCookieMaxAgeMs));
    }

    /** Logout writes nothing: there is no `modifies` clause. */
    method Logout(header: Option<string>, cookie: Option<Token>, now: nat) returns (reply: Reply)
      ensures reply == LegacyLogoutSpec(users, env, header, cookie, now)
    {
      var auth := Authenticate(header, env, users, now);
      if auth.Refuse? {
        return Fail(auth.status, auth.message);
      }
      if Truthy(cookie) {
        return Fail(500, LogoutFailedMessage);
      }
      reply := Reply(200, true, LoggedOutMessage, NoBody, ClearCookie);
    }

    /** Refresh writes nothing either: the presented token stays valid. */
    method Refresh(cookie: Option<Token>, now: nat) returns (reply: Reply)
      ensures reply == LegacyRefreshSpec(users, env, cookie, now)
    {
      if !Truthy(cookie) {
        return Fail(401, RefreshNotFoundMessage);
      }
      if !Truthy(env.jwtRefreshSecret) {
        return Fail(401, RefreshInvalidMessage);
      }
      var decoded := Verify(cookie.value, env.jwtRefreshSecret.value, now);
      if decoded.Err? {
        return Fail(401, RefreshInvalidMessage);
      }
      var id := decoded.value.userId;
      var found := FindById(users, id);
      if found.None? || cookie.value !in found.value.refreshTokens || !found.value.isActive {
        return Fail(401, RefreshInvalidMessage);
      }
      var tokens := GenerateTokens(id, env, now);
      if tokens.Err? {
        return Fail(401, RefreshInvalidMessage);
      }
      reply := Reply(200, true, RefreshedMessage, AccessOnly(tokens.value.accessToken), KeepCookie);
    }
  }
}
