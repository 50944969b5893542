/**
 * The client session of contexts/AuthContext.tsx: the access token in
 * `localStorage`, the `user` and `hasInitialized` state, the shared
 * `refreshPromise` that makes refreshes single-flight, and the requests,
 * broadcasts, query-cache actions and navigations the provider issues.
 *
 * Asynchrony is sequential here: a refresh is begun (the promise is created,
 * or the pending one is joined) and later settled, and an `await` of the
 * refresh is the two steps in a row. The server's answers are parameters.
 */
module AuthClient {
  import opened Wrappers
  import opened Text
  import opened Jwt
  import opened Http

  /** A network call: an API request with its Authorization header, or one of the auth endpoints. */
  datatype Request =
    | ApiRequest(endpoint: string, authorization: Option<string>)
    | RefreshRequest
    | LoginRequest(email: string, password: string)
    | RegisterRequest(email: string, password: string, name: string, phone: Option<string>)
    | LogoutRequest(header: string)

  /** A message on the `auth-channel` broadcast channel. */
  datatype Message = AuthLogin(accessToken: Token, user: PublicUser) | AuthLogout

  datatype QueryAction = Invalidate(key: seq<string>) | ClearCache

  const MeKey: seq<string> := ["auth", "me"]
  const AuthKey: seq<string> := ["auth"]
  const LoginFailedText: string := "Login failed"
  const RegisterFailedText: string := "Register failed"

  /** `response.ok`. */
  predicate IsOk(status: nat) {
    200 <= status <= 299
  }

  /** What a `fetch` of an API endpoint comes to: a response with its status, or a rejected promise (a network error). */
  datatype Answer = Answered(status: nat) | Rejected

  /** The answer to POST /auth/refresh: its status and, when ok, `data.accessToken`. */
  datatype RefreshResponse = RefreshResponse(status: nat, accessToken: Token)

  /** The answer to POST /auth/login or /auth/register: ok with the session, or the `message` of the error body. */
  datatype AuthResponse = AuthAccepted(accessToken: Token, user: PublicUser) | AuthRejected(message: Option<string>)

  datatype ClientState = ClientState(
    token: Option<Token>,
    user: Option<PublicUser>,
    isLoading: bool,
    hasInitialized: bool,
    inFlight: bool,
    sent: seq<Request>,
    broadcast: seq<Message>,
    queries: seq<QueryAction>,
    location: string)

  /** A freshly mounted provider over the token already in storage. */
  function Initial(stored: Option<Token>, location: string): ClientState {
    ClientState(stored, None, true, false, false, [], [], [], location)
  }

  function RefreshCount(rs: seq<Request>): nat {
    if rs == [] then 0 else (if rs[|rs| - 1].RefreshRequest? then 1 else 0) + RefreshCount(rs[..|rs| - 1])
  }

  function ApiCount(rs: seq<Request>): nat {
    if rs == [] then 0 else (if rs[|rs| - 1].ApiRequest? then 1 else 0) + ApiCount(rs[..|rs| - 1])
  }

  lemma CountsAppend(rs: seq<Request>, r: Request)
    ensures RefreshCount(rs + [r]) == RefreshCount(rs) + (if r.RefreshRequest? then 1 else 0)
    ensures ApiCount(rs + [r]) == ApiCount(rs) + (if r.ApiRequest? then 1 else 0)
  {
    assert (rs + [r])[..|rs|] == rs;
  }

  // --------------------------------------------------------------- refresh

  /** `refreshAccessToken` up to its `await`: join the pending promise, or create it with one POST. */
  function BeginRefreshSpec(s: ClientState): (ClientState, bool) {
    if s.inFlight then (s, false)
    else (s.(inFlight := true, sent := s.sent + [RefreshRequest]), true)
  }

  /** The promise settles: an ok answer stores the new token; either way `finally` clears the handle. */
  function SettleRefreshSpec(s: ClientState, resp: RefreshResponse): (ClientState, Result<Token, nat>) {
    if IsOk(resp.status) then (s.(token := Some(resp.accessToken), inFlight := false), Ok(resp.accessToken))
    else (s.(inFlight := false), Err(resp.status))
  }

  /** `await refreshAccessToken()`. */
  function RefreshAccessTokenSpec(s: ClientState, resp: RefreshResponse): (ClientState, Result<Token, nat>) {
    SettleRefreshSpec(BeginRefreshSpec(s).0, resp)
  }

  // ------------------------------------------------------------ requests

  /** The Authorization header: present only for a truthy token. */
  function AuthHeader(t: Option<Token>): Option<string> {
    if Truthy(t) then Some("Bearer " + t.value) else None
  }

  /**
   * `fetchWithAuth(endpoint)`: one request; on a 401, with a token held and
   * the provider initialised, one refresh, then one retry with the new
   * token. A failed refresh, or a retry that rejects, lands in the `catch`:
   * token and user cleared and the first answer returned. A first request
   * that rejects makes the whole call reject.
   */
  function FetchWithAuthSpec(s: ClientState, endpoint: string, first: Answer, refresh: RefreshResponse, retry: Answer): (ClientState, Answer) {
    var token := s.token;
    var s1 := s.(sent := s.sent + [ApiRequest(endpoint, AuthHeader(token))]);
    if first == Answered(401) && Truthy(token) && s.hasInitialized then
      var (s2, r) := RefreshAccessTokenSpec(s1, refresh);
      match r
      case Ok(t) =>
        var s3 := s2.(sent := s2.sent + [ApiRequest(endpoint, AuthHeader(Some(t)))]);
        if retry.Rejected? then (s3.(token := None, user := None), first) else (s3, retry)
      case Err(_) => (s2.(token := None, user := None), first)
    else (s1, first)
  }

  // --------------------------------------------------------- login, logout

  /** `onSuccess` of the login and register mutations. */
  function SignedIn(s: ClientState, accessToken: Token, user: PublicUser): ClientState {
    s.(token := Some(accessToken), user := Some(user), hasInitialized := true,
       broadcast := s.broadcast + [AuthLogin(accessToken, user)],
       queries := s.queries + [Invalidate(AuthKey)],
       location := "/dashboard")
  }

  /** The error a failed mutation throws: the body's message, or the fallback text. */
  function FailureText(message: Option<string>, fallback: string): string {
    if Truthy(message) then message.value else fallback
  }

  function LoginSpec(s: ClientState, email: string, password: string, resp: AuthResponse): (ClientState, Result<(), string>) {
    var s1 := s.(sent := s.sent + [LoginRequest(email, password)]);
    match resp
    case AuthAccepted(t, u) => (SignedIn(s1, t, u), Ok(()))
    case AuthRejected(m) => (s1, Err(FailureText(m, LoginFailedText)))
  }

  function RegisterSpec(s: ClientState, email: string, password: string, name: string, phone: Option<string>,
                    resp: AuthResponse): (ClientState, Result<(), string>) {
    var s1 := s.(sent := s.sent + [RegisterRequest(email, password, name, phone)]);
    match resp
    case AuthAccepted(t, u) => (SignedIn(s1, t, u), Ok(()))
    case AuthRejected(m) => (s1, Err(FailureText(m, RegisterFailedText)))
  }

  /** The header of the logout call: a missing token is interpolated as "undefined". */
  function LogoutHeader(t: Option<Token>): string {
    "Bearer " + (if t.Some? then t.value else "undefined")
  }

  /** `logout`: the POST, then in `finally` everything cleared, AUTH_LOGOUT broadcast, back to "/". */
  function LogoutSpec(s: ClientState): ClientState {
    var s1 := s.(sent := s.sent + [LogoutRequest(LogoutHeader(s.token))]);
    s1.(token := None, user := None, hasInitialized := false,
        queries := s1.queries + [ClearCache],
        broadcast := s1.broadcast + [AuthLogout],
        location := "/")
  }

  // ------------------------------------------------------------- other tabs

  /** The broadcast channel's handler. */
  function Receive(s: ClientState, m: Message): ClientState {
    match m
    case AuthLogin(t, u) => s.(token := Some(t), user := Some(u))
    case AuthLogout => s.(token := None, user := None, queries := s.queries + [ClearCache], location := "/")
  }

  /**
   * A `storage` event: another tab wrote `key` of the shared storage. For
   * `accessToken` the shared value is now `newValue`; the handler refetches
   * the user on a truthy value and clears user and cache otherwise.
   */
  function StorageChanged(s: ClientState, key: string, newValue: Option<string>): ClientState {
    if key != "accessToken" then s
    else if Truthy(newValue) then s.(token := newValue, queries := s.queries + [Invalidate(MeKey)])
    else s.(token := newValue, user := None, queries := s.queries + [ClearCache])
  }

  // ------------------------------------------------------------------ init

  /** `initAuth`: with a token, initialised at once; without, only after a refresh yielding a token. */
  function InitAuthSpec(s: ClientState, refresh: RefreshResponse): ClientState {
    var s1 :=
      if !Truthy(s.token) then
        var (s2, r) := RefreshAccessTokenSpec(s, refresh);
        if r.Ok? && r.value != "" then s2.(hasInitialized := true, queries := s2.queries + [Invalidate(MeKey)])
        else s2
      else s.(hasInitialized := true, queries := s.queries + [Invalidate(MeKey)]);
    s1.(isLoading := false)
  }

  // --------------------------------------------------------------- session

  /** The provider's state held in fields, changed step by step by its handlers. */
  class AuthSession {
    var token: Option<Token>
    var user: Option<PublicUser>
    var isLoading: bool
    var hasInitialized: bool
    var inFlight: bool
    var sent: seq<Request>
    var broadcast: seq<Message>
    var queries: seq<QueryAction>
    var location: string

    function State(): ClientState
      reads this
    {
      ClientState(token, user, isLoading, hasInitialized, inFlight, sent, broadcast, queries, location)
    }

    constructor(stored: Option<Token>, at: string)
      ensures State() == Initial(stored, at)
    {
      token := stored;
      user := None;
      isLoading := true;
      hasInitialized := false;
      inFlight := false;
      sent := [];
      broadcast := [];
      queries := [];
      location := at;
    }

    method BeginRefresh() returns (started: bool)
      modifies this
      ensures (State(), started) == BeginRefreshSpec(old(State()))
    {
      if inFlight {
        return false;
      }
      inFlight := true;
      sent := sent + [RefreshRequest];
      started := true;
    }

    method SettleRefresh(resp: RefreshResponse) returns (r: Result<Token, nat>)
      modifies this
      ensures (State(), r) == SettleRefreshSpec(old(State()), resp)
    {
      if IsOk(resp.status) {
        token := Some(resp.accessToken);
        r := Ok(resp.accessToken);
      } else {
        r := Err(resp.status);
      }
      inFlight := false;
    }

    method RefreshAccessToken(resp: RefreshResponse) returns (r: Result<Token, nat>)
      modifies this
      ensures (State(), r) == RefreshAccessTokenSpec(old(State()), resp)
    {
      var _ := BeginRefresh();
      r := SettleRefresh(resp);
    }

    method FetchWithAuth(endpoint: string, first: Answer, refresh: RefreshResponse, retry: Answer) returns (answer: Answer)
      modifies this
      ensures (State(), answer) == FetchWithAuthSpec(old(State()), endpoint, first, refresh, retry)
    {
      var t := token;
      sent := sent + [ApiRequest(endpoint, AuthHeader(t))];
      answer := first;
      if answer == Answered(401) && Truthy(t) && hasInitialized {
        var r := RefreshAccessToken(refresh);
        if r.Ok? {
          sent := sent + [ApiRequest(endpoint, AuthHeader(Some(r.value)))];
          if retry.Rejected? {
            token := None;
            user := None;
          } else {
            answer := retry;
          }
        } else {
          token := None;
          user := None;
        }
      }
    }

    method OnSignedIn(accessToken: Token, u: PublicUser)
      modifies this
      ensures State() == SignedIn(old(State()), accessToken, u)
    {
      token := Some(accessToken);
      user := Some(u);
      hasInitialized := true;
      broadcast := broadcast + [AuthLogin(accessToken, u)];
      queries := queries + [Invalidate(AuthKey)];
      location := "/dashboard";
    }

    method Login(email: string, password: string, resp: AuthResponse) returns (r: Result<(), string>)
      modifies this
      ensures (State(), r) == LoginSpec(old(State()), email, password, resp)
    {
      sent := sent + [LoginRequest(email, password)];
      if resp.AuthRejected? {
        return Err(FailureText(resp.message, LoginFailedText));
      }
      OnSignedIn(resp.accessToken, resp.user);
      r := Ok(());
    }

    method Register(email: string, password: string, name: string, phone: Option<string>, resp: AuthResponse)
      returns (r: Result<(), string>)
      modifies this
      ensures (State(), r) == RegisterSpec(old(State()), email, password, name, phone, resp)
    {
      sent := sent + [RegisterRequest(email, password, name, phone)];
      if resp.AuthRejected? {
        return Err(FailureText(resp.message, RegisterFailedText));
      }
      OnSignedIn(resp.accessToken, resp.user);
      r := Ok(());
    }

    method Logout()
      modifies this
      ensures State() == LogoutSpec(old(State()))
    {
      sent := sent + [LogoutRequest(LogoutHeader(token))];
      token := None;
      user := None;
      hasInitialized := false;
      queries := queries + [ClearCache];
      broadcast := broadcast + [AuthLogout];
      location := "/";
    }

    method OnMessage(m: Message)
      modifies this
      ensures State() == Receive(old(State()), m)
    {
      match m
      case AuthLogin(t, u) =>
        token := Some(t);
        user := Some(u);
      case AuthLogout =>
        token := None;
        user := None;
        queries := queries + [ClearCache];
        location := "/";
    }

    method OnStorage(key: string, newValue: Option<string>)
      modifies this
      ensures State() == StorageChanged(old(State()), key, newValue)
    {
      if key != "accessToken" {
        return;
      }
      token := newValue;
      if Truthy(newValue) {
        queries := queries + [Invalidate(MeKey)];
      } else {
        user := None;
        queries := queries + [ClearCache];
      }
    }

    method InitAuth(refresh: RefreshResponse)
      modifies this
      ensures State() == InitAuthSpec(old(State()), refresh)
    {
      if !Truthy(token) {
        var r := RefreshAccessToken(refresh);
        if r.Ok? && r.value != "" {
          hasInitialized := true;
          queries := queries + [Invalidate(MeKey)];
        }
      } else {
        hasInitialized := true;
        queries := queries + [Invalidate(MeKey)];
      }
      isLoading := false;
    }
  }
}
