/**
 * `tokenStorage` of `src/lib/api/token-storage.ts`: the variant for cookies the server sets.
 * It never writes a token, and its getters report only whether a cookie is present,
 * returning the flag `"cookie"` instead of the value.
 */
module PresenceTokenStorage {
  import opened Common
  import opened JsStrings
  import opened Cookies
  import CookieTokenStorage

  /** The flag returned in place of a token. */
  const PresenceFlag := "cookie"

  /** `getAccessToken`: the flag when `getCookie('accessToken')` is non-null. */
  function GetAccessToken(cookieString: string): Option<string> {
    if GetCookie(cookieString, "accessToken").Some? then Some(PresenceFlag) else None
  }

  /** `getRefreshToken`: the flag when `getCookie('refreshToken')` is non-null; the legacy name is not consulted. */
  function GetRefreshToken(cookieString: string): Option<string> {
    if GetCookie(cookieString, "refreshToken").Some? then Some(PresenceFlag) else None
  }

  /**
   * In a jar the page can read, `getAccessToken` gives the flag exactly when an
   * `accessToken` cookie with a non-empty value is there; it never gives the value itself
   * (unless that value happens to be the flag).
   */
  lemma AccessFlagIffPresent(cs: seq<Cookie>)
    requires WellFormed(cs) && UniqueNames(cs)
    ensures var r := GetAccessToken(CookieHeader(cs));
      && (r.Some? <==> Lookup(cs, "accessToken").Some? && Lookup(cs, "accessToken").value != "")
      && (r.Some? ==> r == Some("cookie"))
      && (r.Some? && Lookup(cs, "accessToken").value != "cookie" ==> r != Lookup(cs, "accessToken"))
  {
    CookieTokenStorage.TokenNamesValid();
    ReadJar(cs, "accessToken");
  }

  /** The same for `getRefreshToken` and the `refreshToken` cookie. */
  lemma RefreshFlagIffPresent(cs: seq<Cookie>)
    requires WellFormed(cs) && UniqueNames(cs)
    ensures var r := GetRefreshToken(CookieHeader(cs));
      && (r.Some? <==> Lookup(cs, "refreshToken").Some? && Lookup(cs, "refreshToken").value != "")
      && (r.Some? ==> r == Some("cookie"))
  {
    CookieTokenStorage.TokenNamesValid();
    ReadJar(cs, "refreshToken");
  }

  /**
   * `hasTokens` also counts the legacy names, so with only a `token` cookie it holds
   * while `getAccessToken` gives `null`; with only `refresh_token`, the cookie-value
   * variant finds a refresh token and this one does not.
   */
  lemma LegacyNamesOnlyInHasTokens()
    ensures var h := CookieHeader([Cookie("token", "abc", 7)]);
      CookieTokenStorage.HasTokens(h) && GetAccessToken(h) == None
    ensures var h := CookieHeader([Cookie("refresh_token", "abc", 30)]);
      GetRefreshToken(h) == None && CookieTokenStorage.GetRefreshToken(h) == Some("abc")
  {
    CookieTokenStorage.TokenNamesValid();
    var j1 := [Cookie("token", "abc", 7)];
    assert NoChar("abc", ';');
    ReadJar(j1, "token");
    ReadJar(j1, "accessToken");
    assert CookieTokenStorage.TokenNames()[4] == "token";
    var j2 := [Cookie("refresh_token", "abc", 30)];
    ReadJar(j2, "refresh_token");
    ReadJar(j2, "refreshToken");
  }

  /** After `clearTokens` (the same five deletions as the cookie-value variant) both getters give `null`. */
  lemma ClearThenAbsent(cs: seq<Cookie>)
    requires WellFormed(cs) && UniqueNames(cs)
    ensures var h := CookieHeader(CookieTokenStorage.AfterClearTokens(cs));
      GetAccessToken(h) == None && GetRefreshToken(h) == None && !CookieTokenStorage.HasTokens(h)
  {
    var h := CookieHeader(CookieTokenStorage.AfterClearTokens(cs));
    CookieTokenStorage.ClearTokensClears(cs);
    assert CookieTokenStorage.TokenNames()[0] == "accessToken";
    assert CookieTokenStorage.TokenNames()[1] == "refreshToken";
  }

  /** `setTokens` is kept for compatibility and writes nothing. */
  method SetTokens(jar: CookieJar, access: string, refresh: string)
    ensures jar.Header() == old(jar.Header())
  {
  }

  /** `clearTokens`: the same deletions as the cookie-value variant. */
  method ClearTokens(jar: CookieJar)
    requires jar.Valid()
    modifies jar
    ensures jar.Valid()
    ensures jar.cookies == CookieTokenStorage.AfterClearTokens(old(jar.cookies))
  {
    CookieTokenStorage.ClearTokens(jar);
  }
}
