/**
 * What the client session promises: single-flight refresh, retry once,
 * sign-in and sign-out carried to the other tabs.
 */
module AuthClientProperties {
  import opened Wrappers
  import opened Text
  import opened Jwt
  import opened Http
  import opened AuthClient

  // --------------------------------------------------------------- refresh

  /** Asking for a refresh while one is pending joins it: no request, nothing changes. */
  lemma JoinStartsNothing(s: ClientState)
    requires s.inFlight
    ensures BeginRefreshSpec(s) == (s, false)
  {
  }

  /** Beginning a refresh adds one POST exactly when none was pending, and leaves one pending. */
  lemma BeginRefreshCalls(s: ClientState)
    ensures var (after, started) := BeginRefreshSpec(s);
      && after.inFlight
      && (started <==> !s.inFlight)
      && RefreshCount(after.sent) == RefreshCount(s.sent) + (if s.inFlight then 0 else 1)
  {
    CountsAppend(s.sent, RefreshRequest);
  }

  /** `n` calls of `refreshAccessToken` before the promise settles. */
  function Begins(s: ClientState, n: nat): ClientState
    decreases n
  {
    if n == 0 then s else Begins(BeginRefreshSpec(s).0, n - 1)
  }

  lemma {:induction false} BeginsWhilePending(s: ClientState, n: nat)
    requires s.inFlight
    ensures Begins(s, n) == s
  {
    if n > 0 {
      BeginsWhilePending(BeginRefreshSpec(s).0, n - 1);
    }
  }

  /** However many callers ask before it settles, one refresh request goes out (none if one was already pending). */
  lemma BeginsCallOnce(s: ClientState, n: nat)
    requires n >= 1
    ensures Begins(s, n).inFlight
    ensures RefreshCount(Begins(s, n).sent) == RefreshCount(s.sent) + (if s.inFlight then 0 else 1)
  {
    var s1 := BeginRefreshSpec(s).0;
    BeginRefreshCalls(s);
    BeginsWhilePending(s1, n - 1);
  }

  /** Settling clears the handle on either outcome; only an ok answer writes the token. */
  lemma SettleClearsHandle(s: ClientState, resp: RefreshResponse)
    ensures !SettleRefreshSpec(s, resp).0.inFlight
    ensures IsOk(resp.status) ==> SettleRefreshSpec(s, resp) == (s.(token := Some(resp.accessToken), inFlight := false), Ok(resp.accessToken))
    ensures !IsOk(resp.status) ==> SettleRefreshSpec(s, resp) == (s.(inFlight := false), Err(resp.status))
  {
  }

  // ------------------------------------------------------------- requests

  /** Without a 401, a token and initialisation there is one request and its answer, or its rejection, is returned as is. */
  lemma FetchWithoutRefresh(s: ClientState, endpoint: string, first: Answer, refresh: RefreshResponse, retry: Answer)
    requires !(first == Answered(401) && Truthy(s.token) && s.hasInitialized)
    ensures FetchWithAuthSpec(s, endpoint, first, refresh, retry)
         == (s.(sent := s.sent + [ApiRequest(endpoint, AuthHeader(s.token))]), first)
  {
  }

  /** A refresh that fails clears token and user and hands back the first 401. */
  lemma FetchRefreshFailed(s: ClientState, endpoint: string, refresh: RefreshResponse, retry: Answer)
    requires Truthy(s.token) && s.hasInitialized && !IsOk(refresh.status)
    ensures var (after, answer) := FetchWithAuthSpec(s, endpoint, Answered(401), refresh, retry);
      answer == Answered(401) && after.token == None && after.user == None && !after.inFlight
  {
  }

  /** A refresh that succeeds stores the new token, and the retry carries it and gives the answer. */
  lemma FetchRefreshSucceeded(s: ClientState, endpoint: string, refresh: RefreshResponse, retry: nat)
    requires Truthy(s.token) && s.hasInitialized && IsOk(refresh.status)
    ensures var (after, answer) := FetchWithAuthSpec(s, endpoint, Answered(401), refresh, Answered(retry));
      && answer == Answered(retry)
      && after.token == Some(refresh.accessToken) && after.user == s.user && !after.inFlight
      && after.sent[|after.sent| - 1] == ApiRequest(endpoint, AuthHeader(Some(refresh.accessToken)))
  {
  }

  /**
   * A retry that rejects after a successful refresh falls into the same
   * `catch`: the token just stored is removed, the user cleared, and the
   * first 401 returned, although the retry was sent with the new token.
   */
  lemma FetchRetryRejectedClears(s: ClientState, endpoint: string, refresh: RefreshResponse)
    requires Truthy(s.token) && s.hasInitialized && IsOk(refresh.status)
    ensures var (after, answer) := FetchWithAuthSpec(s, endpoint, Answered(401), refresh, Rejected);
      && answer == Answered(401)
      && after.token == None && after.user == None && !after.inFlight
      && after.sent[|after.sent| - 1] == ApiRequest(endpoint, AuthHeader(Some(refresh.accessToken)))
  {
  }

  /** The call rejects exactly when the first request rejects; a rejected retry never escapes. */
  lemma FetchRejectsIffFirstRejects(s: ClientState, endpoint: string, first: Answer, refresh: RefreshResponse, retry: Answer)
    ensures FetchWithAuthSpec(s, endpoint, first, refresh, retry).1.Rejected? <==> first.Rejected?
  {
  }

  /**
   * At most two API requests and at most one refresh request: the second API
   * request exactly when the refresh succeeded, the refresh request exactly
   * when it was needed and none was pending.
   */
  lemma FetchRequestsBounded(s: ClientState, endpoint: string, first: Answer, refresh: RefreshResponse, retry: Answer)
    ensures var after := FetchWithAuthSpec(s, endpoint, first, refresh, retry).0;
      var needed := first == Answered(401) && Truthy(s.token) && s.hasInitialized;
      && ApiCount(after.sent) == ApiCount(s.sent) + (if needed && IsOk(refresh.status) then 2 else 1)
      && RefreshCount(after.sent) == RefreshCount(s.sent) + (if needed && !s.inFlight then 1 else 0)
  {
    var s1 := s.(sent := s.sent + [ApiRequest(endpoint, AuthHeader(s.token))]);
    CountsAppend(s.sent, ApiRequest(endpoint, AuthHeader(s.token)));
    if first == Answered(401) && Truthy(s.token) && s.hasInitialized {
      var b := BeginRefreshSpec(s1).0;
      CountsAppend(s1.sent, RefreshRequest);
      assert RefreshCount(b.sent) == RefreshCount(s1.sent) + (if s.inFlight then 0 else 1);
      assert ApiCount(b.sent) == ApiCount(s1.sent);
      if IsOk(refresh.status) {
        CountsAppend(b.sent, ApiRequest(endpoint, AuthHeader(Some(refresh.accessToken))));
      }
    }
  }

  // --------------------------------------------------------- login, logout

  /** A successful login stores the token, sets the user, initialises, and broadcasts the same token and user. */
  lemma LoginSignsIn(s: ClientState, email: string, password: string, t: Token, u: PublicUser)
    ensures var (after, r) := LoginSpec(s, email, password, AuthAccepted(t, u));
      && r == Ok(())
      && after.token == Some(t) && after.user == Some(u) && after.hasInitialized
      && after.broadcast == s.broadcast + [AuthLogin(t, u)]
      && after.location == "/dashboard"
  {
  }

  /** The same for a successful registration. */
  lemma RegisterSignsIn(s: ClientState, email: string, password: string, name: string, phone: Option<string>,
                        t: Token, u: PublicUser)
    ensures var (after, r) := RegisterSpec(s, email, password, name, phone, AuthAccepted(t, u));
      && r == Ok(())
      && after.token == Some(t) && after.user == Some(u) && after.hasInitialized
      && after.broadcast == s.broadcast + [AuthLogin(t, u)]
  {
  }

  /** A refused login changes nothing but the record of the request, and throws the server's message or "Login failed". */
  lemma LoginRefusedKeepsSession(s: ClientState, email: string, password: string, m: Option<string>)
    ensures LoginSpec(s, email, password, AuthRejected(m))
         == (s.(sent := s.sent + [LoginRequest(email, password)]),
             Err(if Truthy(m) then m.value else LoginFailedText))
  {
  }

  /** Logout clears token, user and initialisation and broadcasts AUTH_LOGOUT; the POST carries "Bearer undefined" when no token is stored. */
  lemma LogoutClears(s: ClientState)
    ensures var after := LogoutSpec(s);
      && after.token == None && after.user == None && !after.hasInitialized
      && after.broadcast == s.broadcast + [AuthLogout]
      && after.sent == s.sent + [LogoutRequest(LogoutHeader(s.token))]
      && after.location == "/"
    ensures s.token == None ==> LogoutHeader(s.token) == "Bearer undefined"
  {
  }

  // ------------------------------------------------------------- other tabs

  /** A tab that receives the AUTH_LOGIN another tab broadcast ends with that tab's token and user. */
  lemma LoginReachesOtherTab(a: ClientState, b: ClientState, email: string, password: string, t: Token, u: PublicUser)
    ensures var a2 := LoginSpec(a, email, password, AuthAccepted(t, u)).0;
      var b2 := Receive(b, a2.broadcast[|a2.broadcast| - 1]);
      b2.token == a2.token && b2.user == a2.user
  {
  }

  /** A tab that receives the AUTH_LOGOUT another tab broadcast is signed out like it. */
  lemma LogoutReachesOtherTab(a: ClientState, b: ClientState)
    ensures var a2 := LogoutSpec(a);
      var b2 := Receive(b, a2.broadcast[|a2.broadcast| - 1]);
      b2.token == a2.token == None && b2.user == a2.user == None && b2.location == "/"
  {
  }

  /** Another tab removing the token drops the user here; a change to any other key changes nothing. */
  lemma StorageEventClearsUser(s: ClientState, key: string, v: Option<string>)
    ensures key == "accessToken" && !Truthy(v) ==> StorageChanged(s, key, v).user == None
    ensures key == "accessToken" && Truthy(v) ==> StorageChanged(s, key, v).user == s.user
    ensures key != "accessToken" ==> StorageChanged(s, key, v) == s
  {
  }

  // ------------------------------------------------------------------ init

  /**
   * `initAuth` always ends loading; it initialises exactly when a token was
   * stored or a refresh produced a non-empty one, and refreshes only
   * without a stored token.
   */
  lemma InitAuthOutcome(s: ClientState, refresh: RefreshResponse)
    ensures !InitAuthSpec(s, refresh).isLoading
    ensures InitAuthSpec(s, refresh).hasInitialized
        <==> s.hasInitialized || Truthy(s.token) || (IsOk(refresh.status) && refresh.accessToken != "")
    ensures Truthy(s.token) ==> InitAuthSpec(s, refresh).sent == s.sent
  {
  }
}
