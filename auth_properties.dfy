/**
 * Properties of the session protocol of routes/auth.ts, stated over the
 * handler functions of `AuthRoutes`: what each outcome consists of, that
 * refusals write nothing, that a token rotated away or logged out is no
 * longer honoured, and the same-second collision of refresh tokens.
 */
module AuthProperties {
  import opened Wrappers
  import opened Text
  import opened Jwt
  import opened Zod
  import opened Patterns
  import opened TokenList
  import opened UserModel
  import opened AuthMiddleware
  import opened Http
  import opened AuthRoutes
  import Utf8

  // ---------------------------------------------------------------- register

  /** An address already taken is refused with 400, and nothing is written. */
  lemma RegisterExistingEmailRefused(users: seq<User>, env: Env, body: RegisterBody, now: nat, salt: nat)
    requires RegisterIssues(body) == [] && FindByEmail(users, body.email.value).Some?
    ensures RegisterSpec(users, env, body, now, salt) == Outcome(Fail(400, UserExistsMessage), users)
  {
  }

  /** A 201 passed the schema with an address not yet taken. */
  lemma RegisterAccepted(users: seq<User>, env: Env, body: RegisterBody, now: nat, salt: nat)
    requires RegisterSpec(users, env, body, now, salt).reply.status == 201
    ensures RegisterIssues(body) == [] && FindByEmail(users, body.email.value).None?
    ensures RegisterSpec(users, env, body, now, salt) == RegisterNew(users, env, NewUser(|users|, RegisterInput(body), now), now, salt)
  {
    if RegisterIssues(body) == [] && FindByEmail(users, body.email.value).None? {
      RegisterAfterSchema(users, env, body, now, salt);
    }
  }

  /** ... and the model's validators. */
  lemma RegisterNewAccepted(users: seq<User>, env: Env, u: User, now: nat, salt: nat)
    requires u.id == |users| && RegisterNew(users, env, u, now, salt).reply.status == 201
    ensures Savable(u)
    ensures RegisterNew(users, env, u, now, salt) == RegisterSaved(users, env, PreSave(u, salt), now)
  {
  }

  /** The stage after the save: a 201 has both secrets, and consists of the session and the stored user. */
  lemma RegisterSavedSuccess(users: seq<User>, env: Env, saved: User, now: nat)
    requires saved.id == |users| && saved.refreshTokens == []
    requires RegisterSaved(users, env, saved, now).reply.status == 201
    ensures GenerateAuthTokens(saved, env, now).Ok?
    ensures var pair := GenerateAuthTokens(saved, env, now).value;
      RegisterSaved(users, env, saved, now) == Outcome(
        Reply(201, true, RegisteredMessage, Session(PublicView(saved), pair.accessToken),
              SetCookie(pair.refreshToken, RefreshCookieMaxAgeMs)),
        users + [saved.(refreshTokens := [pair.refreshToken], updatedAt := now)])
  {
    var pair := GenerateAuthTokens(saved, env, now).value;
    PushCappedEmpty(pair.refreshToken, MaxSessions);
    SetTokensOfLast(users, saved, [pair.refreshToken], now);
  }

  /**
   * A successful registration appends exactly one user: the document built
   * from the body, hashed, holding exactly the refresh token set in the
   * cookie; the body carries only id, email, name, role and the access token.
   */
  lemma RegisterSuccess(users: seq<User>, env: Env, body: RegisterBody, now: nat, salt: nat)
    requires RegisterSpec(users, env, body, now, salt).reply.status == 201
    ensures RegisterIssues(body) == []
    ensures GenerateAuthTokens(PreSave(NewUser(|users|, RegisterInput(body), now), salt), env, now).Ok?
    ensures var saved := PreSave(NewUser(|users|, RegisterInput(body), now), salt);
      var pair := GenerateAuthTokens(saved, env, now).value;
      RegisterSpec(users, env, body, now, salt) == Outcome(
        Reply(201, true, RegisteredMessage, Session(PublicView(saved), pair.accessToken),
              SetCookie(pair.refreshToken, RefreshCookieMaxAgeMs)),
        users + [saved.(refreshTokens := [pair.refreshToken], updatedAt := now)])
  {
    RegisterAccepted(users, env, body, now, salt);
    var u := NewUser(|users|, RegisterInput(body), now);
    RegisterNewAccepted(users, env, u, now, salt);
    RegisterSavedSuccess(users, env, PreSave(u, salt), now);
  }

  /**
   * The user stored by a registration is an active customer with the
   * normalised address, whose password checks against the texts with the
   * same bcrypt key as the one given (exactly that text, when both are
   * shorter than 72 bytes and free of NUL), and whose two tokens differ.
   */
  lemma RegisteredUser(users: seq<User>, env: Env, body: RegisterBody, now: nat, salt: nat, candidate: string)
    requires RegisterIssues(body) == [] && GenerateAuthTokens(PreSave(NewUser(|users|, RegisterInput(body), now), salt), env, now).Ok?
    ensures var saved := PreSave(NewUser(|users|, RegisterInput(body), now), salt);
      && saved.id == |users| && saved.role == Customer && saved.isActive && saved.refreshTokens == []
      && saved.email == NormalizeEmail(body.email.value)
      && (ComparePassword(candidate, saved.password) <==> BcryptKey(candidate) == BcryptKey(body.password.value))
      && (|Utf8.Encode(candidate)| < BcryptKeyBytes && |Utf8.Encode(body.password.value)| < BcryptKeyBytes
          && Utf8.NoNul(candidate) && Utf8.NoNul(body.password.value)
          ==> (ComparePassword(candidate, saved.password) <==> candidate == body.password.value))
      && GenerateAuthTokens(saved, env, now).value.accessToken != GenerateAuthTokens(saved, env, now).value.refreshToken
  {
    var saved := PreSave(NewUser(|users|, RegisterInput(body), now), salt);
    NewUserPasswordChecks(|users|, RegisterInput(body), now, salt, candidate);
    AccessAndRefreshDiffer(saved, env, now);
  }

  /** The stage after the save without both secrets: a 500, with the user stored. */
  lemma RegisterSavedWithoutSecrets(users: seq<User>, env: Env, saved: User, now: nat)
    requires saved.id == |users|
    requires !Truthy(env.jwtSecret) || !Truthy(env.jwtRefreshSecret)
    ensures RegisterSaved(users, env, saved, now) == Outcome(Fail(500, RegisterFailedMessage), users + [saved])
  {
  }

  /**
   * Without both secrets a document that passed the validators is stored,
   * without a session, and the reply is 500.
   */
  lemma RegisterWithoutSecretsKeepsUser(users: seq<User>, env: Env, u: User, now: nat, salt: nat)
    requires u.id == |users| && Savable(u)
    requires !Truthy(env.jwtSecret) || !Truthy(env.jwtRefreshSecret)
    ensures RegisterNew(users, env, u, now, salt) == Outcome(Fail(500, RegisterFailedMessage), users + [PreSave(u, salt)])
  {
    RegisterNewSavable(users, env, u, now, salt);
    RegisterSavedWithoutSecrets(users, env, PreSave(u, salt), now);
  }

  /** An address Zod accepts but the schema's pattern refuses passes validation and ends in a 500, storing nothing. */
  lemma ZodAcceptedModelRefused(users: seq<User>, env: Env, body: RegisterBody, now: nat, salt: nat)
    requires RegisterIssues(body) == [] && FindByEmail(users, body.email.value).None?
    requires !EmailPattern(NormalizeEmail(body.email.value))
    ensures RegisterSpec(users, env, body, now, salt) == Outcome(Fail(500, RegisterFailedMessage), users)
  {
    RegisterAfterSchema(users, env, body, now, salt);
  }

  /** "a+b@example.com" is already normalised. */
  lemma PlusAddressNormal()
    ensures NormalizeEmail("a+b@example.com") == "a+b@example.com"
  {
    var e := "a+b@example.com";
    LowerOfNoUpper(e);
    TrimStartOfClean(e);
    TrimEndOfClean(e);
  }

  /** A register body with that address, a long enough password and name passes the schema. */
  lemma PlusAddressBodyValid(password: string, name: string)
    requires |password| >= 6 && |name| >= 2
    ensures RegisterIssues(RegisterBody(Some("a+b@example.com"), Some(password), Some(name), None)) == []
  {
    ZodEmailPlusExample();
  }

  /** "a+b@example.com" is such an address. */
  lemma PlusAddressRegistrationFails(users: seq<User>, env: Env, password: string, name: string, now: nat, salt: nat)
    requires |password| >= 6 && |name| >= 2
    requires FindByEmail(users, "a+b@example.com").None?
    ensures RegisterSpec(users, env, RegisterBody(Some("a+b@example.com"), Some(password), Some(name), None), now, salt)
         == Outcome(Fail(500, RegisterFailedMessage), users)
  {
    PlusAddressBodyValid(password, name);
    PlusAddressNormal();
    PlusAddressRejected();
    ZodAcceptedModelRefused(users, env, RegisterBody(Some("a+b@example.com"), Some(password), Some(name), None), now, salt);
  }

  // ------------------------------------------------------------------- login

  /**
   * Unknown address, inactive user and wrong password get the same 401
   * "Invalid credentials", and nothing is written; and these are the only
   * ways a well-formed login is refused with 401.
   */
  lemma LoginRefusalsIdentical(users: seq<User>, env: Env, body: LoginBody, now: nat)
    requires LoginIssues(body) == []
    ensures var o := LoginSpec(users, env, body, now);
      var found := FindByEmail(users, body.email.value);
      (found.None? || !users[found.value].isActive || !ComparePassword(body.password.value, users[found.value].password))
      <==> o == Outcome(Fail(401, InvalidCredentialsMessage), users)
  {
  }

  /** A 200 passed every check: schema, known active user, right password, both secrets. */
  lemma LoginAccepted(users: seq<User>, env: Env, body: LoginBody, now: nat)
    requires LoginSpec(users, env, body, now).reply.status == 200
    ensures LoginIssues(body) == [] && FindByEmail(users, body.email.value).Some?
    ensures var id := FindByEmail(users, body.email.value).value;
      && users[id].isActive && ComparePassword(body.password.value, users[id].password)
      && GenerateAuthTokens(users[id], env, now).Ok?
      && LoginSpec(users, env, body, now) == LoginGranted(users, id, GenerateAuthTokens(users[id], env, now).value, now)
  {
  }

  /**
   * A granted login: the session for the user found, the refresh token in
   * the cookie, and the user's list the last five of the old list and it;
   * no other user changes.
   */
  lemma LoginGrantedStoresToken(users: seq<User>, id: UserId, pair: TokenPair, now: nat)
    requires id < |users|
    ensures var o := LoginGranted(users, id, pair, now);
      && o.reply == Reply(200, true, LoggedInMessage, Session(PublicView(users[id]), pair.accessToken),
                          SetCookie(pair.refreshToken, RefreshCookieMaxAgeMs))
      && |o.users| == |users|
      && o.users[id] == users[id].(refreshTokens := Last(users[id].refreshTokens + [pair.refreshToken], MaxSessions), updatedAt := now)
      && (forall j :: 0 <= j < |users| && j != id ==> o.users[j] == users[j])
  {
  }

  /** A successful login stores the token it sets in the cookie, and that token is not the access token. */
  lemma LoginStoresToken(users: seq<User>, env: Env, body: LoginBody, now: nat)
    requires LoginSpec(users, env, body, now).reply.status == 200
    ensures LoginIssues(body) == [] && FindByEmail(users, body.email.value).Some?
    ensures var id := FindByEmail(users, body.email.value).value;
      var o := LoginSpec(users, env, body, now);
      && o.reply.cookie.SetCookie? && o.reply.body.Session?
      && o.users[id].refreshTokens == Last(users[id].refreshTokens + [o.reply.cookie.value], MaxSessions)
      && o.reply.body.accessToken != o.reply.cookie.value
  {
    LoginAccepted(users, env, body, now);
    var id := FindByEmail(users, body.email.value).value;
    LoginGrantedStoresToken(users, id, GenerateAuthTokens(users[id], env, now).value, now);
    AccessAndRefreshDiffer(users[id], env, now);
  }

  // ----------------------------------------------------------------- refresh

  /** A refresh that does not succeed is a 401 and writes nothing. */
  lemma RefreshVerifiedFailure(users: seq<User>, env: Env, id: UserId, t: Token, now: nat)
    requires RefreshVerified(users, env, id, t, now).reply.status != 200
    ensures RefreshVerified(users, env, id, t, now) == Outcome(RefreshVerified(users, env, id, t, now).reply, users)
    ensures RefreshVerified(users, env, id, t, now).reply.status == 401
  {
  }

  /** A refresh that does not succeed is a 401 and writes nothing; without a cookie it says so. */
  lemma RefreshFailureWritesNothing(users: seq<User>, env: Env, cookie: Option<Token>, now: nat)
    requires RefreshSpec(users, env, cookie, now).reply.status != 200
    ensures RefreshSpec(users, env, cookie, now).reply.status == 401
    ensures RefreshSpec(users, env, cookie, now).users == users
    ensures !Truthy(cookie) ==> RefreshSpec(users, env, cookie, now).reply == Fail(401, RefreshRequiredMessage)
  {
    if Truthy(cookie) && RefreshVerifySecret(env).Some? {
      match Verify(cookie.value, RefreshVerifySecret(env).value, now)
      case Err(_) =>
      case Ok(claims) => RefreshVerifiedFailure(users, env, claims.userId, cookie.value, now);
    }
  }

  /** A 200 verified the cookie, under JWT_REFRESH_SECRET or else JWT_SECRET. */
  lemma RefreshAccepted(users: seq<User>, env: Env, cookie: Option<Token>, now: nat)
    requires RefreshSpec(users, env, cookie, now).reply.status == 200
    ensures Truthy(cookie) && RefreshVerifySecret(env).Some?
    ensures Verify(cookie.value, RefreshVerifySecret(env).value, now).Ok?
    ensures RefreshSpec(users, env, cookie, now)
         == RefreshVerified(users, env, Verify(cookie.value, RefreshVerifySecret(env).value, now).value.userId, cookie.value, now)
  {
  }

  /** ... then found an active user whose list holds the token, and issued a new pair. */
  lemma RefreshVerifiedAccepted(users: seq<User>, env: Env, id: UserId, t: Token, now: nat)
    requires RefreshVerified(users, env, id, t, now).reply.status == 200
    ensures id < |users| && users[id].isActive && t in users[id].refreshTokens
    ensures GenerateAuthTokens(users[id], env, now).Ok?
    ensures RefreshVerified(users, env, id, t, now) == RefreshGranted(users, id, t, GenerateAuthTokens(users[id], env, now).value, now)
  {
  }

  /**
   * A refresh succeeds only for a well-formed token found in the list of
   * the active user it names.
   */
  lemma RefreshNeedsStoredToken(users: seq<User>, env: Env, t: Token, now: nat)
    requires RefreshSpec(users, env, Some(t), now).reply.status == 200
    ensures Parse(t).Some?
    ensures var id := Parse(t).value.claims.userId;
      id < |users| && users[id].isActive && t in users[id].refreshTokens
  {
    RefreshAccepted(users, env, Some(t), now);
    RefreshVerifiedAccepted(users, env, Verify(t, RefreshVerifySecret(env).value, now).value.userId, t, now);
  }

  /**
   * The rotation: every copy of the presented token pulled, then the new one
   * pushed under the cap; the new one is the token set in the cookie, and no
   * other user changes.
   */
  lemma RefreshGrantedRotates(users: seq<User>, id: UserId, t: Token, pair: TokenPair, now: nat)
    requires id < |users|
    ensures var o := RefreshGranted(users, id, t, pair, now);
      && o.reply == Reply(200, true, RefreshedMessage, AccessOnly(pair.accessToken), SetCookie(pair.refreshToken, RefreshCookieMaxAgeMs))
      && |o.users| == |users|
      && o.users[id] == users[id].(refreshTokens := PushCapped(Pull(users[id].refreshTokens, t), pair.refreshToken, MaxSessions), updatedAt := now)
      && (forall j :: 0 <= j < |users| && j != id ==> o.users[j] == users[j])
  {
  }

  /** A successful refresh is the rotation of the presented token in the list of the user it names. */
  lemma RefreshRotates(users: seq<User>, env: Env, t: Token, now: nat)
    requires RefreshSpec(users, env, Some(t), now).reply.status == 200
    ensures Parse(t).Some? && Parse(t).value.claims.userId < |users|
    ensures var id := Parse(t).value.claims.userId;
      GenerateAuthTokens(users[id], env, now).Ok?
      && RefreshSpec(users, env, Some(t), now) == RefreshGranted(users, id, t, GenerateAuthTokens(users[id], env, now).value, now)
  {
    RefreshAccepted(users, env, Some(t), now);
    RefreshVerifiedAccepted(users, env, Verify(t, RefreshVerifySecret(env).value, now).value.userId, t, now);
  }

  /** After a rotation to a different token, presenting the old one again is refused. */
  lemma ReplayAfterRotationRefused(users: seq<User>, env: Env, t: Token, now: nat, later: nat)
    requires RefreshSpec(users, env, Some(t), now).reply.status == 200
    requires RefreshSpec(users, env, Some(t), now).reply.cookie != SetCookie(t, RefreshCookieMaxAgeMs)
    ensures RefreshSpec(RefreshSpec(users, env, Some(t), now).users, env, Some(t), later).reply.status == 401
  {
    RefreshRotates(users, env, t, now);
    var id := Parse(t).value.claims.userId;
    var pair := GenerateAuthTokens(users[id], env, now).value;
    RefreshGrantedRotates(users, id, t, pair, now);
    RotationRevokes(users[id].refreshTokens, t, pair.refreshToken, MaxSessions);
    var after := RefreshSpec(users, env, Some(t), now).users;
    assert t !in after[id].refreshTokens;
    if RefreshSpec(after, env, Some(t), later).reply.status == 200 {
      RefreshNeedsStoredToken(after, env, t, later);
      assert false;
    }
    RefreshFailureWritesNothing(after, env, Some(t), later);
  }

  /** A refresh token issued to user `id` at second `issued` names that user. */
  lemma IssuedRefreshTokenNames(u: User, env: Env, issued: nat)
    requires GenerateAuthTokens(u, env, issued).Ok?
    ensures Parse(GenerateAuthTokens(u, env, issued).value.refreshToken).Some?
    ensures Parse(GenerateAuthTokens(u, env, issued).value.refreshToken).value.claims.userId == u.id
  {
  }

  /**
   * The collision: a refresh token issued in the same second as the refresh
   * that presents it is re-issued byte for byte, so rotation keeps it in the
   * list and it is honoured again.
   */
  lemma SameSecondRotationKeepsToken(users: seq<User>, env: Env, t: Token, now: nat)
    requires RefreshSpec(users, env, Some(t), now).reply.status == 200
    requires RefreshSpec(users, env, Some(t), now).reply.cookie == SetCookie(t, RefreshCookieMaxAgeMs)
    ensures var id := Parse(t).value.claims.userId;
      t in RefreshSpec(users, env, Some(t), now).users[id].refreshTokens
  {
    RefreshRotates(users, env, t, now);
    var id := Parse(t).value.claims.userId;
    var pair := GenerateAuthTokens(users[id], env, now).value;
    RefreshGrantedRotates(users, id, t, pair, now);
    RotationToSameTokenKeepsIt(users[id].refreshTokens, t, MaxSessions);
  }

  /** Rotation re-issues the presented token exactly when it was issued in the same second. */
  lemma RotationCollidesIffSameSecond(users: seq<User>, env: Env, id: UserId, issued: nat, t: Token, now: nat)
    requires id < |users| && users[id].id == id && GenerateAuthTokens(users[id], env, issued).Ok?
    requires t == GenerateAuthTokens(users[id], env, issued).value.refreshToken
    requires RefreshSpec(users, env, Some(t), now).reply.status == 200
    ensures RefreshSpec(users, env, Some(t), now).reply.cookie == SetCookie(t, RefreshCookieMaxAgeMs) <==> issued == now
  {
    IssuedRefreshTokenNames(users[id], env, issued);
    RefreshRotates(users, env, t, now);
    RefreshGrantedRotates(users, id, t, GenerateAuthTokens(users[id], env, now).value, now);
    RefreshTokenDependsOnIdAndSecond(users[id], users[id], env, issued, now);
  }

  // ------------------------------------------------------------------ logout

  /** Logout removes every copy of the cookie token from the caller's list only, and clears the cookie. */
  lemma LogoutRemovesToken(users: seq<User>, env: Env, header: Option<string>, t: Token, now: nat)
    requires Authenticate(header, env, users, now).Admit? && t != ""
    ensures var id := Authenticate(header, env, users, now).id;
      var o := LogoutSpec(users, env, header, Some(t), now);
      && o.reply == Reply(200, true, LoggedOutMessage, NoBody, ClearCookie)
      && o.users[id].refreshTokens == Pull(users[id].refreshTokens, t)
      && t !in o.users[id].refreshTokens
      && |o.users| == |users|
      && (forall j :: 0 <= j < |users| && j != id ==> o.users[j] == users[j])
  {
  }

  /** Without a cookie logout writes nothing, and still clears the cookie and reports success. */
  lemma LogoutWithoutCookie(users: seq<User>, env: Env, header: Option<string>, now: nat)
    requires Authenticate(header, env, users, now).Admit?
    ensures LogoutSpec(users, env, header, None, now) == Outcome(Reply(200, true, LoggedOutMessage, NoBody, ClearCookie), users)
    ensures LogoutSpec(users, env, header, Some(""), now) == Outcome(Reply(200, true, LoggedOutMessage, NoBody, ClearCookie), users)
  {
  }

  /** A refresh token of the caller's that was logged out is no longer honoured. */
  lemma LoggedOutTokenRefused(users: seq<User>, env: Env, header: Option<string>, t: Token, now: nat, later: nat)
    requires Authenticate(header, env, users, now).Admit? && t != ""
    requires Parse(t).Some? && Parse(t).value.claims.userId == Authenticate(header, env, users, now).id
    ensures var after := LogoutSpec(users, env, header, Some(t), now).users;
      RefreshSpec(after, env, Some(t), later).reply.status == 401
  {
    var after := LogoutSpec(users, env, header, Some(t), now).users;
    LogoutRemovesToken(users, env, header, t, now);
    if RefreshSpec(after, env, Some(t), later).reply.status == 200 {
      RefreshNeedsStoredToken(after, env, t, later);
      assert false;
    }
    RefreshFailureWritesNothing(after, env, Some(t), later);
  }
}
