/**
 * What the older controller promises, and where it parts from routes/auth.ts.
 */
module LegacyAuthProperties {
  import opened Wrappers
  import opened Text
  import opened Jwt
  import opened TokenList
  import opened UserModel
  import opened AuthMiddleware
  import opened Http
  import opened AuthRoutes
  import opened LegacyAuth

  // -------------------------------------------------------------- register

  /** Passwords that do not match fail the refinement, and the catch answers 500, not 400. */
  lemma LegacyMismatchedPasswordsRefused(users: seq<User>, env: Env, body: LegacyRegisterBody, now: nat, salt: nat)
    requires body.password.Some? && body.confirmPassword.Some? && body.password.value != body.confirmPassword.value
    ensures LegacyRegisterSpec(users, env, body, now, salt) == Outcome(Fail(500, RegistrationFailedMessage), users)
  {
  }

  /** A taken address is refused with 400 and nothing is created. */
  lemma LegacyRegisterExistingEmailRefused(users: seq<User>, env: Env, body: LegacyRegisterBody, now: nat, salt: nat)
    requires LegacyRegisterParses(body) && FindByEmail(users, body.email.value).Some?
    ensures LegacyRegisterSpec(users, env, body, now, salt) == Outcome(Fail(400, UserExistsMessage), users)
  {
  }

  /** A created user with both secrets set gets exactly the one new session, and the reply is 201. */
  lemma LegacyRegisterCreatedSession(users: seq<User>, env: Env, created: User, pair: TokenPair, now: nat)
    requires created.id == |users| && created.refreshTokens == []
    requires GenerateTokens(created.id, env, now) == Ok(pair)
    ensures LegacyRegisterCreated(users, env, created, now) == Outcome(
      Reply(201, true, RegisteredMessage, Session(PublicView(created), pair.accessToken),
            SetCookie(pair.refreshToken, RefreshCookieMaxAgeMs)),
      users + [created.(refreshTokens := [pair.refreshToken], updatedAt := now)])
  {
    var tokens := created.refreshTokens + [pair.refreshToken];
    assert tokens == [pair.refreshToken];
    SetTokensOfLast(users, created, tokens, now);
  }

  /** The user is created before the tokens: without the secrets it stays stored, with no session, and the reply is 500. */
  lemma LegacyRegisterWithoutSecretsKeepsUser(users: seq<User>, env: Env, u: User, now: nat, salt: nat)
    requires u.id == |users| && Savable(u)
    requires !Truthy(env.jwtSecret) || !Truthy(env.jwtRefreshSecret)
    ensures LegacyRegisterNew(users, env, u, now, salt)
         == Outcome(Fail(500, RegistrationFailedMessage), users + [PreSave(u, salt)])
  {
    var created := PreSave(u, salt);
    assert LegacyRegisterNew(users, env, u, now, salt) == LegacyRegisterCreated(users, env, created, now);
    assert GenerateTokens(created.id, env, now).Err?;
  }

  // ----------------------------------------------------------------- login

  /** Past the lookup, the 401 comes from a wrong password and from nothing else. */
  lemma LegacyLoginFoundRefusal(users: seq<User>, env: Env, id: UserId, password: string, now: nat)
    requires id < |users|
    ensures LegacyLoginFound(users, env, id, password, now) == Outcome(Fail(401, InvalidEmailOrPasswordMessage), users)
        <==> !ComparePassword(password, users[id].password)
  {
    if ComparePassword(password, users[id].password) {
      match GenerateTokens(id, env, now)
      case Err(_) =>
      case Ok(pair) =>
        var r := LegacyLoginGranted(users, id, pair, now).reply;
        assert r.status == 500 || r.status == 200;
    }
  }

  /**
   * An unknown address, an inactive user and a wrong password get the same
   * reply, and nothing else does.
   */
  lemma LegacyLoginRefusalsIdentical(users: seq<User>, env: Env, body: LoginBody, now: nat)
    requires StoreValid(users) && LegacyLoginParses(body)
    ensures LegacyLoginSpec(users, env, body, now) == Outcome(Fail(401, InvalidEmailOrPasswordMessage), users)
        <==> match FindByEmail(users, body.email.value)
             case None => true
             case Some(id) => !users[id].isActive || !ComparePassword(body.password.value, users[id].password)
  {
    var email := NormalizeEmail(body.email.value);
    FindActiveIsFindThenActive(users, email, 0);
    match FindActiveByEmailFrom(users, email, 0)
    case None =>
    case Some(id) =>
      assert LegacyLoginSpec(users, env, body, now) == LegacyLoginFound(users, env, id, body.password.value, now);
      LegacyLoginFoundRefusal(users, env, id, body.password.value, now);
  }

  /**
   * `slice(-4)` and then `push` is the route's `$push … $slice: -5`: when the
   * save goes through, the older login writes the collection the route writes.
   */
  lemma LegacyLoginWritesAsRoute(users: seq<User>, id: UserId, pair: TokenPair, now: nat)
    requires id < |users| && Savable(users[id])
    ensures LegacyLoginGranted(users, id, pair, now).users == LoginGranted(users, id, pair, now).users
    ensures LegacyLoginGranted(users, id, pair, now).reply.status == 200
  {
    var u := users[id];
    var tokens := Last(u.refreshTokens, MaxSessions - 1) + [pair.refreshToken];
    SliceThenPushIsPushCapped(u.refreshTokens, pair.refreshToken);
    assert Savable(u.(refreshTokens := tokens));
  }

  /** The list after a granted login: at most five tokens, the new one last, the four before it kept. */
  lemma LegacyLoginList(users: seq<User>, id: UserId, pair: TokenPair, now: nat)
    requires id < |users| && Savable(users[id])
    ensures var after := LegacyLoginGranted(users, id, pair, now).users[id].refreshTokens;
      && |after| <= MaxSessions
      && after[|after| - 1] == pair.refreshToken
      && after[..|after| - 1] == Last(users[id].refreshTokens, MaxSessions - 1)
  {
    var u := users[id];
    var tokens := Last(u.refreshTokens, MaxSessions - 1) + [pair.refreshToken];
    assert Savable(u.(refreshTokens := tokens));
    assert LegacyLoginGranted(users, id, pair, now).users[id].refreshTokens == tokens;
    assert tokens[..|tokens| - 1] == Last(u.refreshTokens, MaxSessions - 1);
  }

  // ------------------------------------------------------- tokens, refresh

  /** Signed tokens are never empty, so a cookie or header carrying one is truthy. */
  lemma SignedTokenTruthy(claims: Claims, secret: string, now: nat, ttl: nat)
    ensures Truthy(Some(Sign(claims, secret, now, ttl)))
  {
    ParseSerialize(Decoded(claims, secret, now, now + ttl));
    ParseEmpty();
  }

  /** The older access token is admitted by `authenticate`, as its user, for one hour. */
  lemma LegacyAccessTokenAdmitted(users: seq<User>, env: Env, id: UserId, pair: TokenPair, issued: nat, now: nat)
    requires id < |users| && users[id].isActive
    requires GenerateTokens(id, env, issued) == Ok(pair)
    requires issued <= now < issued + OneHour
    ensures Authenticate(Some("Bearer " + pair.accessToken), env, users, now) == Admit(id, Load(users[id]))
  {
    BearerTokenOfPrefixed(pair.accessToken);
    SignedTokenTruthy(SubjectClaims(id), env.jwtSecret.value, issued, OneHour);
    SignThenVerify(SubjectClaims(id), env.jwtSecret.value, issued, OneHour, now);
  }

  /** Refresh answers 200 exactly for a verified token stored in the list of an active user, with both secrets set. */
  lemma LegacyRefreshAccepted(users: seq<User>, env: Env, cookie: Option<Token>, now: nat)
    ensures LegacyRefreshSpec(users, env, cookie, now).status == 200 <==>
      && Truthy(cookie) && Truthy(env.jwtRefreshSecret) && Truthy(env.jwtSecret)
      && Verify(cookie.value, env.jwtRefreshSecret.value, now).Ok?
      && var id := Verify(cookie.value, env.jwtRefreshSecret.value, now).value.userId;
         id < |users| && cookie.value in users[id].refreshTokens && users[id].isActive
  {
    if Truthy(cookie) && Truthy(env.jwtRefreshSecret) {
      match Verify(cookie.value, env.jwtRefreshSecret.value, now)
      case Err(_) =>
      case Ok(claims) =>
        assert LegacyRefreshSpec(users, env, cookie, now)
            == LegacyRefreshVerified(users, env, claims.userId, cookie.value, now);
    }
  }

  /** Every refusal of refresh is a 401: "Refresh token not found" without a cookie, "Invalid refresh token" otherwise. */
  lemma LegacyRefreshRefusals(users: seq<User>, env: Env, cookie: Option<Token>, now: nat)
    ensures var r := LegacyRefreshSpec(users, env, cookie, now);
      r.status != 200 ==>
        if Truthy(cookie) then r == Fail(401, RefreshInvalidMessage) else r == Fail(401, RefreshNotFoundMessage)
  {
    if Truthy(cookie) && Truthy(env.jwtRefreshSecret) {
      match Verify(cookie.value, env.jwtRefreshSecret.value, now)
      case Err(_) =>
      case Ok(claims) =>
        assert LegacyRefreshSpec(users, env, cookie, now)
            == LegacyRefreshVerified(users, env, claims.userId, cookie.value, now);
    }
  }

  /**
   * Without rotation a stored refresh token is honoured at every second of
   * its seven days, as often as it is presented: refresh writes nothing and
   * answers with the access token of that second, leaving the cookie as it is.
   */
  lemma LegacyRefreshTokenReusable(users: seq<User>, env: Env, id: UserId, pair: TokenPair, renewed: TokenPair,
                                   issued: nat, now: nat)
    requires id < |users| && users[id].isActive
    requires GenerateTokens(id, env, issued) == Ok(pair) && pair.refreshToken in users[id].refreshTokens
    requires GenerateTokens(id, env, now) == Ok(renewed)
    requires issued <= now < issued + SevenDays
    ensures LegacyRefreshSpec(users, env, Some(pair.refreshToken), now)
         == Reply(200, true, RefreshedMessage, AccessOnly(renewed.accessToken), KeepCookie)
  {
    var secret := env.jwtRefreshSecret.value;
    SignedTokenTruthy(SubjectClaims(id), secret, issued, SevenDays);
    SignThenVerify(SubjectClaims(id), secret, issued, SevenDays, now);
    assert LegacyRefreshSpec(users, env, Some(pair.refreshToken), now)
        == LegacyRefreshVerified(users, env, id, pair.refreshToken, now);
  }

  // ---------------------------------------------------------------- logout

  /** With a cookie, logout fails with 500 and leaves the cookie set; the session stays usable. */
  lemma LegacyLogoutWithCookieFails(users: seq<User>, env: Env, header: Option<string>, cookie: Option<Token>, now: nat)
    requires Authenticate(header, env, users, now).Admit? && Truthy(cookie)
    ensures LegacyLogoutSpec(users, env, header, cookie, now) == Fail(500, LogoutFailedMessage)
    ensures LegacyLogoutSpec(users, env, header, cookie, now).cookie == KeepCookie
  {
  }

  /** Logout answers 200 and clears the cookie exactly for an admitted request without a cookie. */
  lemma LegacyLogoutSucceeds(users: seq<User>, env: Env, header: Option<string>, cookie: Option<Token>, now: nat)
    ensures LegacyLogoutSpec(users, env, header, cookie, now).status == 200
        <==> Authenticate(header, env, users, now).Admit? && !Truthy(cookie)
    ensures LegacyLogoutSpec(users, env, header, cookie, now).status == 200
        ==> LegacyLogoutSpec(users, env, header, cookie, now).cookie == ClearCookie
  {
  }
}
