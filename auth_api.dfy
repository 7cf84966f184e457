/**
 * `authApi` of `src/lib/api/auth.ts`: each operation is one call through the client,
 * followed, for the operations that receive a token pair, by storing that pair.
 */
module AuthApi {
  import opened Common
  import opened JsValues
  import opened ApiClient

  const LoginPath := "/auth/login"
  const SignUpPath := "/auth/signup"
  const LogoutPath := "/auth/logout"
  const LogoutAllPath := "/auth/logout-all"
  const RefreshTokenPath := "/auth/refresh"
  const VerifyEmailPath := "/auth/verify-email"
  const ResendVerificationPath := "/auth/resend-verification"
  const MePath := "/auth/me"

  /** Options given to `api.*` before it sets the method and body. */
  function Options(headers: map<string, string>, skipAuth: bool): Config {
    Config("GET", headers, None, skipAuth, false)
  }

  function LoginConfig(payload: JsValue, userAgent: string): Config {
    PostConfig(payload, Options(map["User-Agent" := userAgent], true))
  }

  function SignUpConfig(payload: JsValue): Config {
    PostConfig(payload, Options(map[], true))
  }

  /** `api.post(LOGOUT)`: no data and no options. */
  function LogoutConfig(): Config {
    PostConfig(Undefined, Options(map[], false))
  }

  function RefreshTokenConfig(payload: JsValue, userAgent: string): Config {
    PostConfig(payload, Options(map["User-Agent" := userAgent], true))
  }

  function VerifyEmailConfig(payload: JsValue): Config {
    PostConfig(payload, Options(map[], true))
  }

  function ResendVerificationConfig(payload: JsValue): Config {
    PostConfig(payload, Options(map[], true))
  }

  /**
   * What `login`, `refreshToken` and `verifyEmail` do after the request: read both tokens
   * of the response (a `TypeError` when it is nullish), store them when both are truthy,
   * and return the response.
   */
  function StoreReturnedPair(call: Step<CallResult>): Step<CallResult> {
    match call.result
    case Ok(data) =>
      if IsNullish(data) then Step(Crashed, call.state)
      else
        var access := Field(data, "accessToken").value;
        var refresh := Field(data, "refreshToken").value;
        if Truthy(access) && Truthy(refresh) then
          Step(call.result, call.state.(tokens := Tokens(Some(ToJsString(access)), Some(ToJsString(refresh)))))
        else call
    case _ => call
  }

  /** The `finally` of `logout`/`logoutAll`: whatever the request did, tokens are cleared and one sign-out is logged. */
  function AfterLogout(call: Step<CallResult>): State {
    SignedOut(call.state)
  }

  /** The pair is stored iff the call succeeded with a non-nullish body whose two tokens are truthy; the response is returned unchanged. */
  lemma StoresOnlyBothTokens(call: Step<CallResult>)
    ensures var after := StoreReturnedPair(call);
      && after.state.events == call.state.events && after.state.sent == call.state.sent
      && (after.state.tokens != call.state.tokens ==>
            call.result.Ok? && Truthy(Field(call.result.data, "accessToken").value)
            && Truthy(Field(call.result.data, "refreshToken").value))
      && (call.result.Ok? && !IsNullish(call.result.data)
          && Truthy(Field(call.result.data, "accessToken").value) && Truthy(Field(call.result.data, "refreshToken").value) ==>
            after.state.tokens.access == Some(ToJsString(Field(call.result.data, "accessToken").value))
            && after.state.tokens.refresh == Some(ToJsString(Field(call.result.data, "refreshToken").value)))
      && (call.result.Ok? && !IsNullish(call.result.data) ==> after.result == call.result)
      && (!call.result.Ok? ==> after == call)
  {
  }

  /** Every unauthenticated operation sends with `skipAuth`; logout does not. */
  lemma UnauthenticatedOperationsSkipAuth(payload: JsValue, userAgent: string)
    ensures LoginConfig(payload, userAgent).skipAuth && SignUpConfig(payload).skipAuth
    ensures RefreshTokenConfig(payload, userAgent).skipAuth && VerifyEmailConfig(payload).skipAuth
    ensures ResendVerificationConfig(payload).skipAuth
    ensures !LogoutConfig().skipAuth && LogoutConfig().body == None
    ensures LoginConfig(payload, userAgent).verb == "POST" && LoginConfig(payload, userAgent).headers["User-Agent"] == userAgent
  {
  }

  /**
   * A call with `skipAuth` sends exactly one request, never signs out, attaches no bearer
   * token of its own and leaves the stored tokens as they were.
   */
  lemma SkipAuthCallsNeverRefresh(network: nat -> Outcome, baseUrl: string, userAgent: string, endpoint: string, cfg: Config, s: State)
    requires cfg.skipAuth
    ensures var r := CallSpec(network, baseUrl, userAgent, endpoint, cfg, s);
      && |r.state.sent| == |s.sent| + 1
      && r.state.sent[|s.sent|].headers == map["Content-Type" := JsonContentType] + cfg.headers
      && r.state.tokens == s.tokens
      && SignOut !in r.state.events[|s.events|..]
  {
    var r := CallSpec(network, baseUrl, userAgent, endpoint, cfg, s);
    if r.result.Failed? && r.state.events != s.events {
      assert r.state.events == s.events + [ApiErrorEvent(r.result.error)];
      assert r.state.events[|s.events|..] == [ApiErrorEvent(r.result.error)];
    } else {
      assert r.state.events == s.events;
      assert r.state.events[|s.events|..] == [];
    }
  }

  /** Logout always ends with no tokens and with its own sign-out as the last event, whatever the request did. */
  lemma LogoutAlwaysClears(call: Step<CallResult>)
    ensures AfterLogout(call).tokens == NoTokens
    ensures AfterLogout(call).events == call.state.events + [SignOut]
    ensures AfterLogout(call).sent == call.state.sent
  {
  }

  /** `if (response.accessToken && response.refreshToken) tokenManager.setTokens(...)`, then `return response`. */
  method KeepReturnedPair(c: Client, response: CallResult) returns (r: CallResult)
    modifies c
    ensures Step(r, c.Snapshot()) == StoreReturnedPair(Step(response, old(c.Snapshot())))
  {
    r := response;
    if r.Ok? {
      if IsNullish(r.data) {
        return Crashed;
      }
      var access := Field(r.data, "accessToken").value;
      var refresh := Field(r.data, "refreshToken").value;
      if Truthy(access) && Truthy(refresh) {
        c.SetTokens(ToJsString(access), ToJsString(refresh));
      }
    }
  }

  method Login(c: Client, payload: JsValue) returns (r: CallResult)
    modifies c
    ensures Step(r, c.Snapshot()) ==
      StoreReturnedPair(CallSpec(c.network, c.baseUrl, c.userAgent, LoginPath, LoginConfig(payload, c.userAgent), old(c.Snapshot())))
  {
    r := c.Call(LoginPath, LoginConfig(payload, c.userAgent));
    r := KeepReturnedPair(c, r);
  }

  method SignUp(c: Client, payload: JsValue) returns (r: CallResult)
    modifies c
    ensures Step(r, c.Snapshot()) ==
      CallSpec(c.network, c.baseUrl, c.userAgent, SignUpPath, SignUpConfig(payload), old(c.Snapshot()))
  {
    r := c.Call(SignUpPath, SignUpConfig(payload));
  }

  /** `logout`: the request's failure is swallowed. */
  method Logout(c: Client)
    modifies c
    ensures c.Snapshot() ==
      AfterLogout(CallSpec(c.network, c.baseUrl, c.userAgent, LogoutPath, LogoutConfig(), old(c.Snapshot())))
  {
    var ignored := c.Call(LogoutPath, LogoutConfig());
    c.ClearTokens();
    c.Dispatch(SignOut);
  }

  /** `logoutAll`: the request's failure is swallowed. */
  method LogoutAll(c: Client)
    modifies c
    ensures c.Snapshot() ==
      AfterLogout(CallSpec(c.network, c.baseUrl, c.userAgent, LogoutAllPath, LogoutConfig(), old(c.Snapshot())))
  {
    var ignored := c.Call(LogoutAllPath, LogoutConfig());
    c.ClearTokens();
    c.Dispatch(SignOut);
  }

  method GetCurrentUser(c: Client) returns (r: CallResult)
    modifies c
    ensures Step(r, c.Snapshot()) ==
      CallSpec(c.network, c.baseUrl, c.userAgent, MePath, GetConfig(DefaultConfig), old(c.Snapshot()))
  {
    r := c.Call(MePath, GetConfig(DefaultConfig));
  }

  method RefreshToken(c: Client, payload: JsValue) returns (r: CallResult)
    modifies c
    ensures Step(r, c.Snapshot()) ==
      StoreReturnedPair(CallSpec(c.network, c.baseUrl, c.userAgent, RefreshTokenPath, RefreshTokenConfig(payload, c.userAgent), old(c.Snapshot())))
  {
    r := c.Call(RefreshTokenPath, RefreshTokenConfig(payload, c.userAgent));
    r := KeepReturnedPair(c, r);
  }

  method VerifyEmail(c: Client, payload: JsValue) returns (r: CallResult)
    modifies c
    ensures Step(r, c.Snapshot()) ==
      StoreReturnedPair(CallSpec(c.network, c.baseUrl, c.userAgent, VerifyEmailPath, VerifyEmailConfig(payload), old(c.Snapshot())))
  {
    r := c.Call(VerifyEmailPath, VerifyEmailConfig(payload));
    r := KeepReturnedPair(c, r);
  }

  method ResendVerificationEmail(c: Client, payload: JsValue) returns (r: CallResult)
    modifies c
    ensures Step(r, c.Snapshot()) ==
      CallSpec(c.network, c.baseUrl, c.userAgent, ResendVerificationPath, ResendVerificationConfig(payload), old(c.Snapshot()))
  {
    r := c.Call(ResendVerificationPath, ResendVerificationConfig(payload));
  }
}
