/**
 * The authenticated request pipeline of `src/lib/api/client.ts`.
 *
 * `fetch` is an oracle: the k-th request the client ever sends receives `network(k)`.
 * The two `localStorage` slots `accessToken` and `refreshToken` are two `Option<string>`
 * fields, the window events are an append-only log, and every request the client hands
 * to `fetch` is appended to `sent`. `CallSpec` states the whole pipeline as a function
 * of the state before the call; `Client.Call` runs it step by step.
 */
module ApiClient {
  import opened Common
  import opened JsStrings
  import opened JsValues

  /** Value of `API_BASE_URL` when the build sets no `VITE_API_BASE_URL`. */
  const DefaultBaseUrl := "http://localhost:3000/api"
  const RefreshPath := "/auth/refresh"
  const JsonContentType := "application/json"

  /** `ApiClientError`: a message, an HTTP status (0 for a transport failure) and the server's `code`/`details`. */
  datatype ApiError = ApiError(message: string, status: int, code: JsValue, details: JsValue)

  /** The text of a response body as `fetch` delivers it. */
  datatype Body = EmptyText | JsonText(value: JsValue) | Unparsable

  /** What `fetch` does with one request: throw (with an `Error` message or not), or answer. */
  datatype Outcome =
    | NetFail(reason: Option<string>)
    | Resp(status: int, contentType: Option<string>, body: Body)

  /** What the client hands to `fetch`; `body` is the value passed to `JSON.stringify`. */
  datatype Request = Request(url: string, verb: string, headers: map<string, string>, body: Option<JsValue>)

  /** `RequestConfig`: the `fetch` options plus the two client flags. */
  datatype Config = Config(
    verb: string,
    headers: map<string, string>,
    body: Option<JsValue>,
    skipAuth: bool,
    skipErrorHandling: bool)

  datatype Event = SignOut | ApiErrorEvent(error: ApiError)

  /** How one `apiClient` call settles: a value, an `ApiClientError`, or a `TypeError` escaping. */
  datatype CallResult = Ok(data: JsValue) | Failed(error: ApiError) | Crashed

  datatype RefreshResult = NewToken(token: JsValue) | RefreshFailed(error: ApiError)

  datatype Tokens = Tokens(access: Option<string>, refresh: Option<string>)

  /** Everything a call can observe or change. */
  datatype State = State(tokens: Tokens, events: seq<Event>, sent: seq<Request>)

  datatype Step<T> = Step(result: T, state: State)

  const NoTokens := Tokens(None, None)
  const AuthenticationFailed := ApiError("Authentication failed", 401, Undefined, Undefined)
  const NoRefreshToken := ApiError("No refresh token available", 401, Undefined, Undefined)
  const RefreshCrashed := ApiError("Failed to refresh token", 500, Undefined, Undefined)

  /** `response.ok`. */
  predicate IsOk(status: int) {
    200 <= status <= 299
  }

  /** A stored string that JavaScript treats as present (`if (token)`). */
  predicate Present(slot: Option<string>) {
    slot.Some? && slot.value != ""
  }

  /** `contentType?.includes('application/json')`. */
  predicate IsJsonContent(contentType: Option<string>) {
    contentType.Some? && Contains(contentType.value, JsonContentType)
  }

  /** Section 2.1 of RFC 6750: the `Authorization` header value for a bearer token. */
  function Bearer(token: string): (h: string)
    ensures StartsWith(h, "Bearer ") && h[7..] == token
  {
    "Bearer " + token
  }

  /** Endpoints that start with `http` are absolute; all others are relative to the base URL. */
  function Url(baseUrl: string, endpoint: string): string {
    if StartsWith(endpoint, "http") then endpoint else baseUrl + endpoint
  }

  /** The headers of the first attempt: JSON content type, the caller's headers, then the bearer token. */
  function FirstHeaders(cfg: Config, tokens: Tokens): map<string, string> {
    var merged := map["Content-Type" := JsonContentType] + cfg.headers;
    if !cfg.skipAuth && Present(tokens.access) then merged["Authorization" := Bearer(tokens.access.value)]
    else merged
  }

  /** The request `refreshAccessToken` sends. */
  function RefreshRequest(baseUrl: string, userAgent: string, refreshToken: string): Request {
    Request(
      baseUrl + RefreshPath, "POST",
      map["Content-Type" := JsonContentType, "User-Agent" := userAgent],
      Some(Obj([("refreshToken", Str(refreshToken))])))
  }

  /** The parsed body of a response, or `None` when parsing throws. */
  function ParseBody(contentType: Option<string>, body: Body): Option<JsValue> {
    match body
    case JsonText(v) => Some(v)
    case Unparsable => None
    case EmptyText => if IsJsonContent(contentType) then None else Some(Obj([]))
  }

  /** The error built from a non-2xx body, or `None` when reading `.message` of a nullish body throws. */
  function ErrorFromBody(data: JsValue, status: int): Option<ApiError> {
    if IsNullish(data) then None
    else
      var message := Field(data, "message").value;
      Some(ApiError(
        if Truthy(message) then ToJsString(message) else "Request failed with status " + IntToString(status),
        status, Field(data, "code").value, Field(data, "details").value))
  }

  function Send(s: State, req: Request): State {
    s.(sent := s.sent + [req])
  }

  function SignedOut(s: State): State {
    s.(tokens := NoTokens, events := s.events + [SignOut])
  }

  /** `refreshAccessToken`, as a function of the state before it. */
  function RefreshSpec(network: nat -> Outcome, baseUrl: string, userAgent: string, s: State): Step<RefreshResult> {
    if !Present(s.tokens.refresh) then Step(RefreshFailed(NoRefreshToken), s)
    else
      var s1 := Send(s, RefreshRequest(baseUrl, userAgent, s.tokens.refresh.value));
      var cleared := s1.(tokens := NoTokens);
      match network(|s.sent|)
      case NetFail(_) => Step(RefreshFailed(RefreshCrashed), cleared)
      case Resp(status, _, body) =>
        if !IsOk(status) then
          Step(RefreshFailed(ApiError("Failed to refresh token", status, Undefined, Undefined)), cleared)
        else if !body.JsonText? || IsNullish(body.value) then Step(RefreshFailed(RefreshCrashed), cleared)
        else
          var access := Field(body.value, "accessToken").value;
          var refresh := Field(body.value, "refreshToken").value;
          Step(NewToken(access), s1.(tokens := Tokens(Some(ToJsString(access)), Some(ToJsString(refresh)))))
  }

  /** Parse the final response and turn a non-2xx status into an error. */
  function Settle(status: int, contentType: Option<string>, body: Body, cfg: Config, s: State): Step<CallResult> {
    match ParseBody(contentType, body)
    case None => Step(Failed(ApiError("Failed to parse response", status, Undefined, Undefined)), s)
    case Some(data) =>
      if IsOk(status) then Step(Ok(data), s)
      else match ErrorFromBody(data, status)
        case None => Step(Crashed, s)
        case Some(e) => Step(Failed(e), if cfg.skipErrorHandling then s else s.(events := s.events + [ApiErrorEvent(e)]))
  }

  /** One `apiClient(endpoint, cfg)` call, as a function of the state before it. */
  function CallSpec(network: nat -> Outcome, baseUrl: string, userAgent: string, endpoint: string, cfg: Config, s: State): Step<CallResult> {
    var url := Url(baseUrl, endpoint);
    var headers := FirstHeaders(cfg, s.tokens);
    var s1 := Send(s, Request(url, cfg.verb, headers, cfg.body));
    match network(|s.sent|)
    case NetFail(reason) => Step(Failed(ApiError(reason.GetOr("Network error"), 0, Undefined, Undefined)), s1)
    case Resp(status, contentType, body) =>
      if status == 401 && !cfg.skipAuth && !cfg.skipErrorHandling then
        var r := RefreshSpec(network, baseUrl, userAgent, s1);
        match r.result
        case RefreshFailed(_) => Step(Failed(AuthenticationFailed), SignedOut(r.state))
        case NewToken(t) =>
          var s2 := Send(r.state, Request(url, cfg.verb, headers["Authorization" := Bearer(ToJsString(t))], cfg.body));
          match network(|r.state.sent|)
          case NetFail(_) => Step(Failed(AuthenticationFailed), SignedOut(s2))
          case Resp(status2, contentType2, body2) => Settle(status2, contentType2, body2, cfg, s2)
      else Settle(status, contentType, body, cfg, s1)
  }

  /** `api.get` and `api.delete`: the caller's options with the method set. */
  function WithMethod(verb: string, cfg: Config): (c: Config)
    ensures c.verb == verb && c.body == cfg.body && c.headers == cfg.headers
    ensures c.skipAuth == cfg.skipAuth && c.skipErrorHandling == cfg.skipErrorHandling
  {
    cfg.(verb := verb)
  }

  function GetConfig(cfg: Config): Config { WithMethod("GET", cfg) }
  function DeleteConfig(cfg: Config): Config { WithMethod("DELETE", cfg) }

  /** `api.post/put/patch`: the method, and a JSON body only when the data is truthy. */
  function WithBody(verb: string, data: JsValue, cfg: Config): (c: Config)
    ensures c.verb == verb && c.headers == cfg.headers
    ensures c.body.Some? <==> Truthy(data)
    ensures c.body.Some? ==> c.body.value == data
    ensures c.skipAuth == cfg.skipAuth && c.skipErrorHandling == cfg.skipErrorHandling
  {
    cfg.(verb := verb, body := if Truthy(data) then Some(data) else None)
  }

  function PostConfig(data: JsValue, cfg: Config): Config { WithBody("POST", data, cfg) }
  function PutConfig(data: JsValue, cfg: Config): Config { WithBody("PUT", data, cfg) }
  function PatchConfig(data: JsValue, cfg: Config): Config { WithBody("PATCH", data, cfg) }

  /** An empty `RequestConfig` (`{}`), which `fetch` sends as GET. */
  const DefaultConfig := Config("GET", map[], None, false, false)

  /** The first response sends the call down the refresh-and-retry path. */
  predicate RefreshGate(cfg: Config, first: Outcome) {
    first.Resp? && first.status == 401 && !cfg.skipAuth && !cfg.skipErrorHandling
  }

  /** A refresh response from which `refreshAccessToken` reads a new pair. */
  predicate RefreshAccepted(o: Outcome) {
    o.Resp? && IsOk(o.status) && o.body.JsonText? && !IsNullish(o.body.value)
  }

  /** A transport failure on the first attempt gives status 0, with no refresh, no retry, no event and the tokens kept. */
  lemma TransportFailureNoRetry(network: nat -> Outcome, baseUrl: string, userAgent: string, endpoint: string, cfg: Config, s: State)
    requires network(|s.sent|).NetFail?
    ensures var r := CallSpec(network, baseUrl, userAgent, endpoint, cfg, s);
      && r.result.Failed? && r.result.error.status == 0
      && r.result.error.message == network(|s.sent|).reason.GetOr("Network error")
      && |r.state.sent| == |s.sent| + 1 && r.state.tokens == s.tokens && r.state.events == s.events
  {
  }

  /**
   * A second request is sent exactly when the first answer is a 401, neither flag is set
   * and a refresh token is stored; at most three requests are sent per call, and the
   * first always goes to the call's own URL.
   */
  lemma RefreshOnlyOn401(network: nat -> Outcome, baseUrl: string, userAgent: string, endpoint: string, cfg: Config, s: State)
    ensures var r := CallSpec(network, baseUrl, userAgent, endpoint, cfg, s);
      && |s.sent| + 1 <= |r.state.sent| <= |s.sent| + 3
      && r.state.sent[..|s.sent|] == s.sent
      && r.state.sent[|s.sent|] == Request(Url(baseUrl, endpoint), cfg.verb, FirstHeaders(cfg, s.tokens), cfg.body)
      && (|r.state.sent| > |s.sent| + 1 <==> RefreshGate(cfg, network(|s.sent|)) && Present(s.tokens.refresh))
  {
    var r := CallSpec(network, baseUrl, userAgent, endpoint, cfg, s);
    var s1 := Send(s, Request(Url(baseUrl, endpoint), cfg.verb, FirstHeaders(cfg, s.tokens), cfg.body));
    if RefreshGate(cfg, network(|s.sent|)) {
      var rr := RefreshSpec(network, baseUrl, userAgent, s1);
      assert |s1.sent| <= |rr.state.sent| <= |s1.sent| + 1;
      assert rr.state.sent[..|s1.sent|] == s1.sent;
      assert r.state.sent[..|s1.sent|] == s1.sent;
    }
  }

  /**
   * When the refresh or the retried request throws: both tokens are removed, exactly one
   * `auth:signout` and no `api:error` is logged, and the call fails with 401
   * "Authentication failed".
   */
  lemma FailedRefreshSignsOut(network: nat -> Outcome, baseUrl: string, userAgent: string, endpoint: string, cfg: Config, s: State)
    requires RefreshGate(cfg, network(|s.sent|))
    requires !Present(s.tokens.refresh) || !RefreshAccepted(network(|s.sent| + 1)) || network(|s.sent| + 2).NetFail?
    ensures var r := CallSpec(network, baseUrl, userAgent, endpoint, cfg, s);
      && r.result == Failed(AuthenticationFailed)
      && r.state.tokens == NoTokens
      && r.state.events == s.events + [SignOut]
  {
  }

  /**
   * A successful refresh stores the returned pair, and the retry goes to the same URL
   * carrying `Bearer` and the stored access token.
   */
  lemma RetryCarriesNewToken(network: nat -> Outcome, baseUrl: string, userAgent: string, endpoint: string, cfg: Config, s: State)
    requires RefreshGate(cfg, network(|s.sent|)) && Present(s.tokens.refresh)
    requires RefreshAccepted(network(|s.sent| + 1))
    ensures var r := CallSpec(network, baseUrl, userAgent, endpoint, cfg, s);
      var pair := network(|s.sent| + 1).body.value;
      var stored := ToJsString(Field(pair, "accessToken").value);
      && |r.state.sent| == |s.sent| + 3
      && r.state.sent[|s.sent| + 1] == RefreshRequest(baseUrl, userAgent, s.tokens.refresh.value)
      && r.state.sent[|s.sent| + 2].url == Url(baseUrl, endpoint)
      && r.state.sent[|s.sent| + 2].headers["Authorization"] == Bearer(stored)
      && (network(|s.sent| + 2).Resp? ==>
            r.state.tokens == Tokens(Some(stored), Some(ToJsString(Field(pair, "refreshToken").value))))
  {
  }

  /**
   * A 401 on the retry is surfaced like any other error response: the error carries
   * status 401, `api:error` is logged, there is no sign-out and the refreshed tokens stay.
   */
  lemma SecondUnauthorizedSurfaced(network: nat -> Outcome, baseUrl: string, userAgent: string, endpoint: string, cfg: Config, s: State)
    requires RefreshGate(cfg, network(|s.sent|)) && Present(s.tokens.refresh)
    requires RefreshAccepted(network(|s.sent| + 1))
    requires network(|s.sent| + 2).Resp? && network(|s.sent| + 2).status == 401
    requires network(|s.sent| + 2).body.JsonText? && !IsNullish(network(|s.sent| + 2).body.value)
    ensures var r := CallSpec(network, baseUrl, userAgent, endpoint, cfg, s);
      var pair := network(|s.sent| + 1).body.value;
      && r.result.Failed? && r.result.error.status == 401
      && r.state.events == s.events + [ApiErrorEvent(r.result.error)]
      && |r.state.sent| == |s.sent| + 3
      && r.state.tokens == Tokens(Some(ToJsString(Field(pair, "accessToken").value)), Some(ToJsString(Field(pair, "refreshToken").value)))
  {
  }

  /** Without a stored refresh token the refresh fails with 401 and sends nothing. */
  lemma RefreshNeedsStoredToken(network: nat -> Outcome, baseUrl: string, userAgent: string, s: State)
    ensures var r := RefreshSpec(network, baseUrl, userAgent, s);
      && (!Present(s.tokens.refresh) <==> r.result == RefreshFailed(NoRefreshToken))
      && (!Present(s.tokens.refresh) ==> r.state == s)
      && (r.result.RefreshFailed? && Present(s.tokens.refresh) ==> r.state.tokens == NoTokens)
      && r.state.events == s.events
  {
  }

  /**
   * A non-2xx answer whose body parses: the message is the body's `message` or
   * "Request failed with status N", status, `code` and `details` are copied, and
   * `api:error` is logged exactly when error handling is not skipped. An empty non-JSON
   * body parses to `{}` and so always gives the default message; a `null` body makes
   * reading `.message` throw.
   */
  lemma ErrorResponseShape(status: int, contentType: Option<string>, body: Body, cfg: Config, s: State, data: JsValue)
    requires !IsOk(status) && ParseBody(contentType, body) == Some(data)
    ensures var r := Settle(status, contentType, body, cfg, s);
      var message := if IsNullish(data) then Undefined else Field(data, "message").value;
      && (IsNullish(data) <==> r.result.Crashed?)
      && (!IsNullish(data) ==>
           && r.result.Failed?
           && r.result.error.message == (if Truthy(message) then ToJsString(message) else "Request failed with status " + IntToString(status))
           && r.result.error.status == status
           && r.result.error.code == Field(data, "code").value && r.result.error.details == Field(data, "details").value
           && (r.state.events == s.events + [ApiErrorEvent(r.result.error)] <==> !cfg.skipErrorHandling)
           && (cfg.skipErrorHandling ==> r.state.events == s.events))
      && (IsNullish(data) ==> r.state == s)
      && r.state.tokens == s.tokens && r.state.sent == s.sent
    ensures body.EmptyText? && !IsJsonContent(contentType) ==>
      Settle(status, contentType, body, cfg, s).result
        == Failed(ApiError("Request failed with status " + IntToString(status), status, Undefined, Undefined))
  {
    if body.EmptyText? && !IsJsonContent(contentType) {
      assert data == Obj([]);
      assert Field(data, "message").value == Undefined;
    }
  }

  /** The response a call settles on: the retry's after a successful refresh, the first one otherwise. */
  function FinalIndex(network: nat -> Outcome, cfg: Config, s: State): nat {
    if RefreshGate(cfg, network(|s.sent|)) then |s.sent| + 2 else |s.sent|
  }

  /**
   * Every call that gets a final answer ends in `Settle` on that answer: the first
   * response outside the refresh path, the retried one after a successful refresh. The
   * state it settles in holds the requests sent so far, the events before the call and,
   * after a refresh, the refreshed pair.
   */
  lemma CallSettlesFinalResponse(network: nat -> Outcome, baseUrl: string, userAgent: string, endpoint: string, cfg: Config, s: State)
    requires network(|s.sent|).Resp?
    requires RefreshGate(cfg, network(|s.sent|)) ==>
      Present(s.tokens.refresh) && RefreshAccepted(network(|s.sent| + 1)) && network(|s.sent| + 2).Resp?
    ensures var k := FinalIndex(network, cfg, s);
      var o := network(k);
      var r := CallSpec(network, baseUrl, userAgent, endpoint, cfg, s);
      exists mid: State ::
        && r == Settle(o.status, o.contentType, o.body, cfg, mid)
        && |mid.sent| == k + 1 && mid.sent[..|s.sent|] == s.sent
        && mid.events == s.events
        && (!RefreshGate(cfg, network(|s.sent|)) ==> mid.tokens == s.tokens)
        && (RefreshGate(cfg, network(|s.sent|)) ==>
             var pair := network(|s.sent| + 1).body.value;
             mid.tokens == Tokens(Some(ToJsString(Field(pair, "accessToken").value)), Some(ToJsString(Field(pair, "refreshToken").value))))
  {
    var url := Url(baseUrl, endpoint);
    var headers := FirstHeaders(cfg, s.tokens);
    var s1 := Send(s, Request(url, cfg.verb, headers, cfg.body));
    if RefreshGate(cfg, network(|s.sent|)) {
      var rr := RefreshSpec(network, baseUrl, userAgent, s1);
      var t := rr.result.token;
      var s2 := Send(rr.state, Request(url, cfg.verb, headers["Authorization" := Bearer(ToJsString(t))], cfg.body));
      assert s2.sent[..|s.sent|] == s.sent;
      var o := network(FinalIndex(network, cfg, s));
      assert CallSpec(network, baseUrl, userAgent, endpoint, cfg, s) == Settle(o.status, o.contentType, o.body, cfg, s2);
    } else {
      assert s1.sent[..|s.sent|] == s.sent;
      var o := network(|s.sent|);
      assert CallSpec(network, baseUrl, userAgent, endpoint, cfg, s) == Settle(o.status, o.contentType, o.body, cfg, s1);
    }
  }

  /**
   * Every final non-2xx answer with a parsable, non-null body fails with the error
   * `ErrorResponseShape` describes, whether it answers the first request or the retry
   * after a refresh; the events of the call are that one `api:error` or none.
   */
  lemma CallErrorShape(network: nat -> Outcome, baseUrl: string, userAgent: string, endpoint: string, cfg: Config, s: State, data: JsValue)
    requires network(|s.sent|).Resp?
    requires RefreshGate(cfg, network(|s.sent|)) ==>
      Present(s.tokens.refresh) && RefreshAccepted(network(|s.sent| + 1)) && network(|s.sent| + 2).Resp?
    requires var o := network(FinalIndex(network, cfg, s));
      !IsOk(o.status) && ParseBody(o.contentType, o.body) == Some(data) && !IsNullish(data)
    ensures var o := network(FinalIndex(network, cfg, s));
      var r := CallSpec(network, baseUrl, userAgent, endpoint, cfg, s);
      var message := Field(data, "message").value;
      && r.result.Failed?
      && r.result.error.message == (if Truthy(message) then ToJsString(message) else "Request failed with status " + IntToString(o.status))
      && r.result.error.status == o.status
      && r.result.error.code == Field(data, "code").value && r.result.error.details == Field(data, "details").value
      && (r.state.events == s.events + [ApiErrorEvent(r.result.error)] <==> !cfg.skipErrorHandling)
      && (cfg.skipErrorHandling ==> r.state.events == s.events)
  {
    CallSettlesFinalResponse(network, baseUrl, userAgent, endpoint, cfg, s);
    var o := network(FinalIndex(network, cfg, s));
    var mid: State :| CallSpec(network, baseUrl, userAgent, endpoint, cfg, s) == Settle(o.status, o.contentType, o.body, cfg, mid)
      && mid.events == s.events;
    ErrorResponseShape(o.status, o.contentType, o.body, cfg, mid, data);
  }

  /**
   * Body parsing: a JSON body yields its value, empty text yields `{}` unless the content
   * type is JSON, and anything unparsable fails with the response's status and logs nothing.
   */
  lemma BodyParsing(status: int, contentType: Option<string>, body: Body, cfg: Config, s: State)
    ensures var r := Settle(status, contentType, body, cfg, s);
      && (body.Unparsable? || (body.EmptyText? && IsJsonContent(contentType)) ==>
           r.result == Failed(ApiError("Failed to parse response", status, Undefined, Undefined)) && r.state == s)
      && (IsOk(status) && body.JsonText? ==> r.result == Ok(body.value))
      && (IsOk(status) && body.EmptyText? && !IsJsonContent(contentType) ==> r.result == Ok(Obj([])))
      && (r.result.Ok? ==> IsOk(status) && r.state == s)
      && r.state.tokens == s.tokens && r.state.sent == s.sent
  {
  }

  /**
   * The first request carries `Authorization: Bearer <access token>` exactly when auth is
   * not skipped and an access token is stored; otherwise its headers are the JSON content
   * type overridden by the caller's headers. Endpoints starting with `http` are used verbatim.
   */
  lemma FirstRequestShape(cfg: Config, tokens: Tokens, baseUrl: string, endpoint: string)
    ensures !cfg.skipAuth && Present(tokens.access) ==>
      FirstHeaders(cfg, tokens)["Authorization"] == Bearer(tokens.access.value)
    ensures cfg.skipAuth || !Present(tokens.access) ==>
      FirstHeaders(cfg, tokens) == map["Content-Type" := JsonContentType] + cfg.headers
    ensures forall k :: k in cfg.headers && k != "Authorization" ==> FirstHeaders(cfg, tokens)[k] == cfg.headers[k]
    ensures StartsWith(endpoint, "http") ==> Url(baseUrl, endpoint) == endpoint
    ensures var u := Url(baseUrl, endpoint); |endpoint| <= |u| && u[|u| - |endpoint|..] == endpoint
  {
  }

  /** Events are only ever appended, at most one per call; tokens change only on the refresh path. */
  lemma EventsAppendOnly(network: nat -> Outcome, baseUrl: string, userAgent: string, endpoint: string, cfg: Config, s: State)
    ensures var r := CallSpec(network, baseUrl, userAgent, endpoint, cfg, s);
      && |s.events| <= |r.state.events| <= |s.events| + 1
      && r.state.events[..|s.events|] == s.events
      && (!RefreshGate(cfg, network(|s.sent|)) ==> r.state.tokens == s.tokens)
  {
    var r := CallSpec(network, baseUrl, userAgent, endpoint, cfg, s);
    assert r.state.events[..|s.events|] == s.events;
  }

  class Client {
    const network: nat -> Outcome
    const baseUrl: string
    const userAgent: string
    /** `localStorage['accessToken']` and `localStorage['refreshToken']`. */
    var accessToken: Option<string>
    var refreshToken: Option<string>
    /** Every `auth:signout` and `api:error` event dispatched on `window`, in order. */
    var events: seq<Event>
    /** Every request handed to `fetch`, in order. */
    var sent: seq<Request>

    function Snapshot(): State
      reads this
    {
      State(Tokens(accessToken, refreshToken), events, sent)
    }

    constructor(network: nat -> Outcome, baseUrl: string, userAgent: string, stored: Tokens)
      ensures this.network == network && this.baseUrl == baseUrl && this.userAgent == userAgent
      ensures Snapshot() == State(stored, [], [])
    {
      this.network := network;
      this.baseUrl := baseUrl;
      this.userAgent := userAgent;
      accessToken := stored.access;
      refreshToken := stored.refresh;
      events := [];
      sent := [];
    }

    /** `tokenManager.setTokens`. */
    method SetTokens(access: string, refresh: string)
      modifies this
      ensures accessToken == Some(access) && refreshToken == Some(refresh)
      ensures events == old(events) && sent == old(sent)
    {
      accessToken := Some(access);
      refreshToken := Some(refresh);
    }

    /** `tokenManager.clearTokens`. */
    method ClearTokens()
      modifies this
      ensures Snapshot() == old(Snapshot()).(tokens := NoTokens)
    {
      accessToken := None;
      refreshToken := None;
    }

    /** `window.dispatchEvent`. */
    method Dispatch(e: Event)
      modifies this
      ensures Snapshot() == old(Snapshot()).(events := old(events) + [e])
    {
      events := events + [e];
    }

    /** One call to `fetch`. */
    method Fetch(req: Request) returns (o: Outcome)
      modifies this
      ensures o == network(|old(sent)|)
      ensures Snapshot() == Send(old(Snapshot()), req)
    {
      o := network(|sent|);
      sent := sent + [req];
    }

    /** `refreshAccessToken`. */
    method RefreshAccessToken() returns (r: RefreshResult)
      modifies this
      ensures Step(r, Snapshot()) == RefreshSpec(network, baseUrl, userAgent, old(Snapshot()))
    {
      var stored := refreshToken;
      if !Present(stored) {
        return RefreshFailed(NoRefreshToken);
      }
      var response := Fetch(RefreshRequest(baseUrl, userAgent, stored.value));
      if response.NetFail? {
        ClearTokens();
        return RefreshFailed(RefreshCrashed);
      }
      if !IsOk(response.status) {
        ClearTokens();
        ClearTokens();
        return RefreshFailed(ApiError("Failed to refresh token", response.status, Undefined, Undefined));
      }
      if !response.body.JsonText? || IsNullish(response.body.value) {
        ClearTokens();
        return RefreshFailed(RefreshCrashed);
      }
      var data := response.body.value;
      var access := Field(data, "accessToken").value;
      SetTokens(ToJsString(access), ToJsString(Field(data, "refreshToken").value));
      return NewToken(access);
    }

    /** `apiClient(endpoint, cfg)`. */
    method Call(endpoint: string, cfg: Config) returns (r: CallResult)
      modifies this
      ensures Step(r, Snapshot()) == CallSpec(network, baseUrl, userAgent, endpoint, cfg, old(Snapshot()))
    {
      var url := if StartsWith(endpoint, "http") then endpoint else baseUrl + endpoint;
      var headers := map["Content-Type" := JsonContentType] + cfg.headers;
      if !cfg.skipAuth {
        var token := accessToken;
        if Present(token) {
          headers := headers["Authorization" := Bearer(token.value)];
        }
      }
      var response := Fetch(Request(url, cfg.verb, headers, cfg.body));
      if response.NetFail? {
        return Failed(ApiError(response.reason.GetOr("Network error"), 0, Undefined, Undefined));
      }
      if response.status == 401 && !cfg.skipAuth && !cfg.skipErrorHandling {
        var refreshed := RefreshAccessToken();
        var recovered := false;
        if refreshed.NewToken? {
          headers := headers["Authorization" := Bearer(ToJsString(refreshed.token))];
          var retried := Fetch(Request(url, cfg.verb, headers, cfg.body));
          if retried.Resp? {
            response := retried;
            recovered := true;
          }
        }
        if !recovered {
          ClearTokens();
          Dispatch(SignOut);
          return Failed(AuthenticationFailed);
        }
      }
      var parsed := ParseBody(response.contentType, response.body);
      if parsed.None? {
        return Failed(ApiError("Failed to parse response", response.status, Undefined, Undefined));
      }
      if !IsOk(response.status) {
        var apiError := ErrorFromBody(parsed.value, response.status);
        if apiError.None? {
          return Crashed;
        }
        if !cfg.skipErrorHandling {
          Dispatch(ApiErrorEvent(apiError.value));
        }
        return Failed(apiError.value);
      }
      return Ok(parsed.value);
    }
  }
}
