/**
 * `tokenStorage` of `src/api/token-storage.ts`: tokens kept in readable cookies under
 * the names `accessToken`/`refreshToken` and the legacy `access_token`/`refresh_token`/`token`.
 */
module CookieTokenStorage {
  import opened Common
  import opened JsStrings
  import opened Cookies

  const AccessLifetimeDays := 7
  const RefreshLifetimeDays := 30

  /** The five names `clearTokens` deletes and `hasTokens` looks for, in that order. */
  function TokenNames(): seq<string> { ["accessToken", "refreshToken", "access_token", "refresh_token", "token"] }

  /** JavaScript's `a || b` on `string | null`. */
  function Or(a: Option<string>, b: Option<string>): Option<string> {
    if a.Some? then a else b
  }

  /** `getAccessToken`: `accessToken`, else `access_token`, else `token`, else `null`. */
  function GetAccessToken(cookieString: string): Option<string> {
    Or(GetCookie(cookieString, "accessToken"), Or(GetCookie(cookieString, "access_token"), GetCookie(cookieString, "token")))
  }

  /** `getRefreshToken`: `refreshToken`, else `refresh_token`, else `null`. */
  function GetRefreshToken(cookieString: string): Option<string> {
    Or(GetCookie(cookieString, "refreshToken"), GetCookie(cookieString, "refresh_token"))
  }

  /** `hasTokens`: some one of the five names reads as non-null. */
  predicate HasTokens(cookieString: string) {
    exists i :: 0 <= i < |TokenNames()| && GetCookie(cookieString, TokenNames()[i]).Some?
  }

  /** The jar after `setTokens(access, refresh)`: four cookies written in order. */
  function AfterSetTokens(cs: seq<Cookie>, access: string, refresh: string): seq<Cookie> {
    var c1 := Assign(cs, "accessToken", access, InDays(AccessLifetimeDays));
    var c2 := Assign(c1, "refreshToken", refresh, InDays(RefreshLifetimeDays));
    var c3 := Assign(c2, "access_token", access, InDays(AccessLifetimeDays));
    Assign(c3, "refresh_token", refresh, InDays(RefreshLifetimeDays))
  }

  /** Deleting five names in turn. */
  function RemoveFive(cs: seq<Cookie>, a: string, b: string, c: string, d: string, e: string): seq<Cookie> {
    Remove(Remove(Remove(Remove(Remove(cs, a), b), c), d), e)
  }

  /** The jar after `clearTokens()`: the five names deleted in order. */
  function AfterClearTokens(cs: seq<Cookie>): seq<Cookie> {
    RemoveFive(cs, "accessToken", "refreshToken", "access_token", "refresh_token", "token")
  }

  /** Every name this store uses is one `getCookie` can find. */
  lemma TokenNamesValid()
    ensures ValidName("accessToken") && ValidName("refreshToken") && ValidName("access_token")
    ensures ValidName("refresh_token") && ValidName("token")
    ensures forall i :: 0 <= i < |TokenNames()| ==> ValidName(TokenNames()[i])
  {
  }

  /** The access value is preferred over the legacy names, which are tried in order. */
  lemma AccessTokenPreference(h: string)
    ensures GetCookie(h, "accessToken").Some? ==> GetAccessToken(h) == GetCookie(h, "accessToken")
    ensures GetCookie(h, "accessToken").None? && GetCookie(h, "access_token").Some? ==>
      GetAccessToken(h) == GetCookie(h, "access_token")
    ensures GetCookie(h, "accessToken").None? && GetCookie(h, "access_token").None? ==>
      GetAccessToken(h) == GetCookie(h, "token")
    ensures GetRefreshToken(h) == (if GetCookie(h, "refreshToken").Some? then GetCookie(h, "refreshToken") else GetCookie(h, "refresh_token"))
  {
  }

  /** Four upserts of distinct valid names: each cookie is in the result and every other name reads as before. */
  lemma UpsertFour(cs: seq<Cookie>, a1: Cookie, r1: Cookie, a2: Cookie, r2: Cookie)
    requires WellFormed(cs) && UniqueNames(cs)
    requires ValidName(a1.name) && ValidName(r1.name) && ValidName(a2.name) && ValidName(r2.name)
    requires NoChar(a1.value, ';') && NoChar(r1.value, ';') && NoChar(a2.value, ';') && NoChar(r2.value, ';')
    requires a1.name != r1.name && a1.name != a2.name && a1.name != r2.name
    requires r1.name != a2.name && r1.name != r2.name && a2.name != r2.name
    ensures var r := Upsert(Upsert(Upsert(Upsert(cs, a1), r1), a2), r2);
      && WellFormed(r) && UniqueNames(r)
      && a1 in r && r1 in r && a2 in r && r2 in r
      && Lookup(r, a1.name) == Some(a1.value) && Lookup(r, r1.name) == Some(r1.value)
      && Lookup(r, a2.name) == Some(a2.value) && Lookup(r, r2.name) == Some(r2.value)
      && forall n :: n != a1.name && n != r1.name && n != a2.name && n != r2.name ==> Lookup(r, n) == Lookup(cs, n)
  {
    var c1 := Upsert(cs, a1);
    var c2 := Upsert(c1, r1);
    var c3 := Upsert(c2, a2);
    UpsertFacts(cs, a1);
    UpsertFacts(c1, r1);
    UpsertFacts(c2, a2);
    UpsertFacts(c3, r2);
  }

  /**
   * `setTokens` writes each access cookie with a 7-day lifetime and each refresh cookie
   * with a 30-day lifetime, holding the values the browser keeps for the arguments;
   * every other cookie reads as before.
   */
  lemma SetTokensWritesFour(cs: seq<Cookie>, access: string, refresh: string)
    requires WellFormed(cs) && UniqueNames(cs)
    ensures var r := AfterSetTokens(cs, access, refresh);
      && WellFormed(r) && UniqueNames(r)
      && Cookie("accessToken", StoredValue(access), 7) in r
      && Cookie("access_token", StoredValue(access), 7) in r
      && Cookie("refreshToken", StoredValue(refresh), 30) in r
      && Cookie("refresh_token", StoredValue(refresh), 30) in r
      && Lookup(r, "accessToken") == Some(StoredValue(access))
      && Lookup(r, "access_token") == Some(StoredValue(access))
      && Lookup(r, "refreshToken") == Some(StoredValue(refresh))
      && Lookup(r, "refresh_token") == Some(StoredValue(refresh))
      && forall n :: n != "accessToken" && n != "refreshToken" && n != "access_token" && n != "refresh_token" ==>
           Lookup(r, n) == Lookup(cs, n)
  {
    TokenNamesValid();
    var a1, r1 := Cookie("accessToken", StoredValue(access), 7), Cookie("refreshToken", StoredValue(refresh), 30);
    var a2, r2 := Cookie("access_token", StoredValue(access), 7), Cookie("refresh_token", StoredValue(refresh), 30);
    assert AfterSetTokens(cs, access, refresh) == Upsert(Upsert(Upsert(Upsert(cs, a1), r1), a2), r2);
    UpsertFour(cs, a1, r1, a2, r2);
  }

  /**
   * After `setTokens(a, r)`, reading the cookies back gives the stored values, which are
   * `a` and `r` themselves whenever the browser keeps them verbatim; `hasTokens` then holds.
   */
  lemma SetThenGet(cs: seq<Cookie>, access: string, refresh: string)
    requires WellFormed(cs) && UniqueNames(cs)
    requires StoredValue(access) != "" && StoredValue(refresh) != ""
    ensures var h := CookieHeader(AfterSetTokens(cs, access, refresh));
      && GetAccessToken(h) == Some(StoredValue(access))
      && GetRefreshToken(h) == Some(StoredValue(refresh))
      && HasTokens(h)
    ensures Storable(access) && Storable(refresh) ==>
      var h := CookieHeader(AfterSetTokens(cs, access, refresh));
      GetAccessToken(h) == Some(access) && GetRefreshToken(h) == Some(refresh)
  {
    var r := AfterSetTokens(cs, access, refresh);
    SetTokensWritesFour(cs, access, refresh);
    TokenNamesValid();
    ReadJar(r, "accessToken");
    ReadJar(r, "refreshToken");
    assert GetCookie(CookieHeader(r), TokenNames()[0]).Some?;
    if Storable(access) && Storable(refresh) {
      StorableKept(access);
      StorableKept(refresh);
    }
  }

  /** After deleting five names none of them is left, and deleting them again changes nothing. */
  lemma RemoveFiveFacts(cs: seq<Cookie>, a: string, b: string, c: string, d: string, e: string)
    requires WellFormed(cs) && UniqueNames(cs)
    ensures var r := RemoveFive(cs, a, b, c, d, e);
      && WellFormed(r) && UniqueNames(r)
      && Lookup(r, a) == None && Lookup(r, b) == None && Lookup(r, c) == None
      && Lookup(r, d) == None && Lookup(r, e) == None
      && RemoveFive(r, a, b, c, d, e) == r
  {
    var c1 := Remove(cs, a);
    var c2 := Remove(c1, b);
    var c3 := Remove(c2, c);
    var c4 := Remove(c3, d);
    var r := Remove(c4, e);
    RemoveFacts(cs, a);
    RemoveKeepsMissing(c1, b, a);
    RemoveFacts(c1, b);
    RemoveKeepsMissing(c2, c, a);
    RemoveKeepsMissing(c2, c, b);
    RemoveFacts(c2, c);
    RemoveKeepsMissing(c3, d, a);
    RemoveKeepsMissing(c3, d, b);
    RemoveKeepsMissing(c3, d, c);
    RemoveFacts(c3, d);
    RemoveKeepsMissing(c4, e, a);
    RemoveKeepsMissing(c4, e, b);
    RemoveKeepsMissing(c4, e, c);
    RemoveKeepsMissing(c4, e, d);
    RemoveFacts(c4, e);
    NamedZeroIff(r, a);
    NamedZeroIff(r, b);
    NamedZeroIff(r, c);
    NamedZeroIff(r, d);
    NamedZeroIff(r, e);
    RemoveAbsent(r, a);
    RemoveAbsent(r, b);
    RemoveAbsent(r, c);
    RemoveAbsent(r, d);
    RemoveAbsent(r, e);
  }

  /** After `clearTokens`, none of the five names can be read and `hasTokens` is false; clearing again changes nothing. */
  lemma ClearTokensClears(cs: seq<Cookie>)
    requires WellFormed(cs) && UniqueNames(cs)
    ensures var h := CookieHeader(AfterClearTokens(cs));
      !HasTokens(h) && GetAccessToken(h) == None && GetRefreshToken(h) == None
    ensures AfterClearTokens(AfterClearTokens(cs)) == AfterClearTokens(cs)
  {
    var r := AfterClearTokens(cs);
    TokenNamesValid();
    RemoveFiveFacts(cs, "accessToken", "refreshToken", "access_token", "refresh_token", "token");
    GetCookieOfHeader(r, "accessToken");
    GetCookieOfHeader(r, "refreshToken");
    GetCookieOfHeader(r, "access_token");
    GetCookieOfHeader(r, "refresh_token");
    GetCookieOfHeader(r, "token");
  }

  method SetTokens(jar: CookieJar, access: string, refresh: string)
    requires jar.Valid()
    modifies jar
    ensures jar.Valid()
    ensures jar.cookies == AfterSetTokens(old(jar.cookies), access, refresh)
  {
    TokenNamesValid();
    jar.SetCookie("accessToken", access, AccessLifetimeDays);
    jar.SetCookie("refreshToken", refresh, RefreshLifetimeDays);
    jar.SetCookie("access_token", access, AccessLifetimeDays);
    jar.SetCookie("refresh_token", refresh, RefreshLifetimeDays);
  }

  method ClearTokens(jar: CookieJar)
    requires jar.Valid()
    modifies jar
    ensures jar.Valid()
    ensures jar.cookies == AfterClearTokens(old(jar.cookies))
  {
    TokenNamesValid();
    jar.DeleteCookie("accessToken");
    jar.DeleteCookie("refreshToken");
    jar.DeleteCookie("access_token");
    jar.DeleteCookie("refresh_token");
    jar.DeleteCookie("token");
  }
}
