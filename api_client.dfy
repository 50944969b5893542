/**
 * utils/apiClient.ts: the stand-alone `fetchWithAuth`, which refreshes on
 * any 401 (with or without a stored token) and retries once.
 */
module ApiClient {
  import opened Wrappers
  import opened Text
  import opened Jwt
  import opened AuthClient

  /** What the client reads and writes: the stored token and the requests it has made. */
  datatype ApiState = ApiState(stored: Option<Token>, sent: seq<Request>)

  /** `Authorization: t ? "Bearer " + t : ""`: the header is always sent, empty without a token. */
  function BearerOrEmpty(t: Option<Token>): (h: Option<string>)
    ensures h.Some?
    ensures Truthy(t) ==> h == Some("Bearer " + t.value)
    ensures !Truthy(t) ==> h == Some("")
  {
    if Truthy(t) then Some("Bearer " + t.value) else Some("")
  }

  /**
   * `fetchWithAuth(endpoint)`: the answer returned and the state after. A
   * request that rejects makes the call reject; there is no `catch`, so a
   * rejected retry escapes after the new token is stored.
   */
  function FetchSpec(s: ApiState, endpoint: string, first: Answer, refresh: RefreshResponse, retry: Answer): (ApiState, Answer) {
    var token := if Truthy(s.stored) then s.stored else None;
    var s1 := s.(sent := s.sent + [ApiRequest(endpoint, BearerOrEmpty(token))]);
    if first != Answered(401) then (s1, first)
    else
      var s2 := s1.(sent := s1.sent + [RefreshRequest]);
      if IsOk(refresh.status) then
        (s2.(stored := Some(refresh.accessToken),
             sent := s2.sent + [ApiRequest(endpoint, BearerOrEmpty(Some(refresh.accessToken)))]), retry)
      else (s2.(stored := None), first)
  }

  /** The page's view of the browser: `localStorage.accessToken` and the network calls made. */
  class Browser {
    var stored: Option<Token>
    var sent: seq<Request>

    function State(): ApiState
      reads this
    {
      ApiState(stored, sent)
    }

    constructor(token: Option<Token>)
      ensures State() == ApiState(token, [])
    {
      stored := token;
      sent := [];
    }

    method FetchWithAuth(endpoint: string, first: Answer, refresh: RefreshResponse, retry: Answer) returns (answer: Answer)
      modifies this
      ensures (State(), answer) == FetchSpec(old(State()), endpoint, first, refresh, retry)
    {
      var token := if Truthy(stored) then stored else None;
      sent := sent + [ApiRequest(endpoint, BearerOrEmpty(token))];
      answer := first;
      if answer == Answered(401) {
        sent := sent + [RefreshRequest];
        if IsOk(refresh.status) {
          stored := Some(refresh.accessToken);
          token := Some(refresh.accessToken);
          sent := sent + [ApiRequest(endpoint, BearerOrEmpty(token))];
          answer := retry;
        } else {
          stored := None;
        }
      }
    }
  }

  // ------------------------------------------------------------ properties

  /** Any answer but 401, a rejection included, is returned unchanged after one request, with no refresh and no storage change. */
  lemma NotUnauthorizedPassesThrough(s: ApiState, endpoint: string, first: Answer, refresh: RefreshResponse, retry: Answer)
    requires first != Answered(401)
    ensures FetchSpec(s, endpoint, first, refresh, retry)
         == (ApiState(s.stored, s.sent + [ApiRequest(endpoint, BearerOrEmpty(if Truthy(s.stored) then s.stored else None))]), first)
  {
  }

  /** On a 401 there is exactly one refresh call, whether or not a token was stored. */
  lemma UnauthorizedRefreshesOnce(s: ApiState, endpoint: string, refresh: RefreshResponse, retry: Answer)
    ensures var after := FetchSpec(s, endpoint, Answered(401), refresh, retry).0;
      && RefreshCount(after.sent) == RefreshCount(s.sent) + 1
      && after.sent[|s.sent| + 1] == RefreshRequest
  {
    var token := if Truthy(s.stored) then s.stored else None;
    var r1 := ApiRequest(endpoint, BearerOrEmpty(token));
    CountsAppend(s.sent, r1);
    CountsAppend(s.sent + [r1], RefreshRequest);
    if IsOk(refresh.status) {
      CountsAppend(s.sent + [r1] + [RefreshRequest], ApiRequest(endpoint, BearerOrEmpty(Some(refresh.accessToken))));
    }
  }

  /**
   * A successful refresh stores the new token and the retry, sent with it,
   * gives the answer; a retry that rejects makes the call reject with the
   * new token left stored.
   */
  lemma RefreshSuccessRetries(s: ApiState, endpoint: string, refresh: RefreshResponse, retry: Answer)
    requires IsOk(refresh.status)
    ensures var (after, answer) := FetchSpec(s, endpoint, Answered(401), refresh, retry);
      && answer == retry
      && after.stored == Some(refresh.accessToken)
      && |after.sent| == |s.sent| + 3
      && after.sent[|after.sent| - 1] == ApiRequest(endpoint, BearerOrEmpty(Some(refresh.accessToken)))
  {
  }

  /** A failed refresh removes the stored token and returns the first 401. */
  lemma RefreshFailureClears(s: ApiState, endpoint: string, refresh: RefreshResponse, retry: Answer)
    requires !IsOk(refresh.status)
    ensures var (after, answer) := FetchSpec(s, endpoint, Answered(401), refresh, retry);
      answer == Answered(401) && after.stored == None && |after.sent| == |s.sent| + 2
  {
  }

  /** The call rejects exactly when the first request rejects, or the retry after a successful refresh does. */
  lemma FetchRejectsIff(s: ApiState, endpoint: string, first: Answer, refresh: RefreshResponse, retry: Answer)
    ensures FetchSpec(s, endpoint, first, refresh, retry).1.Rejected?
        <==> first.Rejected? || (first == Answered(401) && IsOk(refresh.status) && retry.Rejected?)
  {
  }

  /** The first request carries "Bearer t" for a stored token t, and the empty header otherwise. */
  lemma FirstRequestHeader(s: ApiState, endpoint: string, first: Answer, refresh: RefreshResponse, retry: Answer)
    ensures var after := FetchSpec(s, endpoint, first, refresh, retry).0;
      after.sent[|s.sent|] == ApiRequest(endpoint, if Truthy(s.stored) then Some("Bearer " + s.stored.value) else Some(""))
  {
  }

  /**
   * The two clients part ways on a 401 without a token: this one refreshes,
   * the context's `fetchWithAuth` does not.
   */
  lemma ClientsDifferWithoutToken(c: ClientState, endpoint: string, refresh: RefreshResponse, retry: Answer)
    requires !Truthy(c.token)
    ensures RefreshCount(FetchWithAuthSpec(c, endpoint, Answered(401), refresh, retry).0.sent) == RefreshCount(c.sent)
    ensures RefreshCount(FetchSpec(ApiState(c.token, c.sent), endpoint, Answered(401), refresh, retry).0.sent) == RefreshCount(c.sent) + 1
  {
    CountsAppend(c.sent, ApiRequest(endpoint, AuthHeader(c.token)));
    UnauthorizedRefreshesOnce(ApiState(c.token, c.sent), endpoint, refresh, retry);
  }

  /**
   * They part ways on a rejected retry too: the context catches it, drops
   * the new token and answers the first 401; this client rejects and keeps
   * the new token stored.
   */
  lemma ClientsDifferOnRejectedRetry(c: ClientState, endpoint: string, refresh: RefreshResponse)
    requires Truthy(c.token) && c.hasInitialized && IsOk(refresh.status)
    ensures var (context, contextAnswer) := FetchWithAuthSpec(c, endpoint, Answered(401), refresh, Rejected);
      contextAnswer == Answered(401) && context.token == None
    ensures var (client, clientAnswer) := FetchSpec(ApiState(c.token, c.sent), endpoint, Answered(401), refresh, Rejected);
      clientAnswer == Rejected && client.stored == Some(refresh.accessToken)
  {
  }
}
