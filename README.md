# Dual Guard frontend — a Dafny model of its core

Dual Guard is the browser frontend of an audit-contest platform. Auditors join contests
and submit findings ranked by severity. Judges review those findings. The frontend talks
to a REST back end through an authenticating HTTP client. This project models the parts
of the frontend where its behaviour is decided:

- **Authenticating client** (`src/lib/api/client.ts`, `src/lib/api/auth.ts`). Every
  request goes out with a bearer token. A 401 answer triggers one token refresh and one
  retry; a refresh that fails signs the user out. Errors are normalised into
  `ApiClientError`, and window events are dispatched. `fetch` is an oracle: the k-th
  request the client sends gets `network(k)`. The token slots, the event log and the
  list of sent requests are fields of a class. `CallSpec` states a whole call as a
  function of the previous state, and `Client.Call` is proved to run it step by step.
- **Token and user storage.** `src/api/token-storage.ts` stores tokens in cookies. It
  is modelled over a cookie jar whose `document.cookie` header is parsed as the
  browser's string. `src/lib/api/token-storage.ts` reports token presence from cookie
  names. `src/lib/api/user-storage.ts` keeps the cached user in `localStorage`.
- **Query-string builders** (`src/api/issues.ts`, `src/api/contests.ts`,
  `src/api/users.ts`). They append the truthy known parameters and then every other
  defined parameter. `URLSearchParams` is a class whose `toString` is proved
  injective, so the pairs can be read back from the endpoint. The query keys are in
  `src/constants/queryKeys.ts`.
- **React Query cache handling** of the issue hooks (`src/hooks/api/issues.ts`).
  `getNextPageParam`, the optimistic update of participation queries with its snapshot
  and rollback, and the invalidations after a mutation are all modelled.
- **Local stores** of findings and judge reviews (`src/hooks/use-findings.ts`,
  `src/hooks/use-judge-reviews.ts`). Both are classes over a `localStorage` list.
- **Components and pages:**
  - severity folders and filters (`FindingsList.tsx`, `JudgeReviewPanel.tsx`);
  - the finding dialogs;
  - the Markdown editor's insertion;
  - the leaderboard's sort and badges;
  - the sign-up and account forms' validation and submit handlers;
  - the contest display helpers of `src/lib/contests.ts`.

Strings are sequences of characters. JavaScript truthiness, `undefined`, `slice(-n)`,
`split`, `trim` (over the whitespace set the model lists), and insertion-ordered object
keys are written out. `Array.prototype.sort` with a key comparator is a stable
insertion sort by that key.

## Model

| member | source | states |
|---|---|---|
| ApiClient.Bearer | src/lib/api/client.ts:97-99 | The `Authorization` value is `Bearer ` followed by exactly the token (section 2.1 of RFC 6750) |
| ApiClient.WithMethod | src/lib/api/client.ts:173-198 | `api.get` and `api.delete` keep the caller's body, headers and flags and set only the method |
| ApiClient.WithBody | src/lib/api/client.ts:176-195 | `api.post/put/patch` set the method; a body is sent iff the data is truthy, and it is that data; headers and flags are kept |
| ApiClient.FirstRequestShape | src/lib/api/client.ts:86-100 | The first attempt carries a bearer header iff auth is not skipped and an access token is stored; the caller's other headers override the JSON content type; an endpoint starting with `http` is the URL itself, and every URL ends with the endpoint |
| ApiClient.TransportFailureNoRetry | src/lib/api/client.ts:103-114 | A `fetch` that throws gives an error with status 0 and the thrown message, or "Network error" when the value thrown is not an Error; nothing is retried, logged or cleared |
| ApiClient.RefreshOnlyOn401 | src/lib/api/client.ts:116-132 | A second request is sent iff the first answer is 401, neither flag is set and a refresh token is stored; a call sends one to three requests and appends only to the log of sent requests |
| ApiClient.FailedRefreshSignsOut | src/lib/api/client.ts:125-131 | When the refresh or the retry throws, both tokens are removed, exactly one sign-out event is logged and the call fails with 401 "Authentication failed" |
| ApiClient.RetryCarriesNewToken | src/lib/api/client.ts:119-124 | After a successful refresh, the refresh request carries the stored refresh token; the retry goes to the same URL with the new bearer token, and the returned pair is stored |
| ApiClient.SecondUnauthorizedSurfaced | src/lib/api/client.ts:149-166 | A 401 on the retry is not refreshed again: it surfaces as an error with status 401 and an `api:error` event, and the refreshed tokens stay |
| ApiClient.RefreshNeedsStoredToken | src/lib/api/client.ts:45-76 | Without a refresh token the refresh fails with 401 "No refresh token available" and sends nothing; any other failed refresh clears both tokens; a refresh never logs an event |
| ApiClient.ErrorResponseShape | src/lib/api/client.ts:134-166 | For every parsed body of a non-2xx answer: a nullish body crashes and changes nothing; otherwise the call fails with the body's truthy message or "Request failed with status N", and with the status, code and details; `api:error` is logged iff error handling is not skipped. Empty non-JSON text gets the default message |
| ApiClient.CallSettlesFinalResponse | src/lib/api/client.ts:116-166 | Whether or not the refresh path ran, the call's outcome is the parsing and settling of the last response: the first one, or the retry after a refresh |
| ApiClient.CallErrorShape | src/lib/api/client.ts:116-166 | A non-2xx final response, first or retried, fails with the message, status, code and details of its body; `api:error` is logged iff error handling is not skipped |
| ApiClient.BodyParsing | src/lib/api/client.ts:134-146 | A JSON body gives its value. Empty non-JSON text gives `{}`. An unparsable body, or empty text labelled JSON, fails with the response status and logs nothing. Success needs a 2xx status |
| ApiClient.EventsAppendOnly | src/lib/api/client.ts:79-169 | A call appends at most one event and never rewrites earlier ones; tokens change only on the refresh path |
| ApiClient.Client.constructor | src/lib/api/client.ts:23-30 | A client starts from the stored tokens, with no event and no request |
| ApiClient.Client.SetTokens | src/lib/api/client.ts:33-36 | Stores both tokens and changes nothing else |
| ApiClient.Client.ClearTokens | src/lib/api/client.ts:39-42 | Removes both tokens and changes nothing else |
| ApiClient.Client.Dispatch | src/lib/api/client.ts:160-162 | Appends one event to the window's log |
| ApiClient.Client.Fetch | src/lib/api/client.ts:105-108 | Records the request and returns the network's answer for that position |
| ApiClient.Client.RefreshAccessToken | src/lib/api/client.ts:45-76 | The step-by-step refresh ends in exactly the result and state of the refresh specification |
| ApiClient.Client.Call | src/lib/api/client.ts:79-169 | The step-by-step call ends in exactly the result and state of `CallSpec`, the function the lemmas above are about |
| AuthApi.StoresOnlyBothTokens | src/lib/api/auth.ts:34-37 | After a token request, the pair is stored iff the call succeeded with a body whose two tokens are truthy. The response is returned unchanged, and a failure leaves everything as it was |
| AuthApi.UnauthenticatedOperationsSkipAuth | src/lib/api/auth.ts:20-127 | Login, sign-up, refresh, verify and resend are POSTs with `skipAuth`; login sends the user agent; logout sends no body and keeps auth |
| AuthApi.SkipAuthCallsNeverRefresh | src/lib/api/client.ts:95-132 | A call with `skipAuth` sends exactly one request, without a bearer token; it never signs out and keeps the tokens |
| AuthApi.AfterLogout | src/lib/api/auth.ts:54-58 | The `finally` of logout clears both tokens and logs one sign-out, keeping the requests sent |
| AuthApi.LogoutAlwaysClears | src/lib/api/auth.ts:48-73 | Whatever the request did, logout ends with no tokens and its own sign-out as the last event |
| AuthApi.KeepReturnedPair | src/lib/api/auth.ts:34-37 | The store-then-return step ends in exactly the state `StoresOnlyBothTokens` describes |
| AuthApi.Login | src/lib/api/auth.ts:20-38 | One POST to `/auth/login`, then the pair is kept as `StoresOnlyBothTokens` states |
| AuthApi.SignUp | src/lib/api/auth.ts:41-45 | One unauthenticated POST to `/auth/signup`, returned as it is |
| AuthApi.Logout | src/lib/api/auth.ts:48-59 | The request to `/auth/logout`, its failure swallowed, then tokens cleared and one sign-out logged |
| AuthApi.LogoutAll | src/lib/api/auth.ts:62-73 | The same for `/auth/logout-all` |
| AuthApi.GetCurrentUser | src/lib/api/auth.ts:76-78 | One authenticated GET of `/auth/me` |
| AuthApi.RefreshToken | src/lib/api/auth.ts:81-99 | One POST to `/auth/refresh` with the user agent, then the pair is kept |
| AuthApi.VerifyEmail | src/lib/api/auth.ts:102-116 | One POST to `/auth/verify-email`, then the pair is kept when both tokens are returned |
| AuthApi.ResendVerificationEmail | src/lib/api/auth.ts:119-127 | One unauthenticated POST to `/auth/resend-verification` |
| UserStorage.AfterLoad | src/lib/api/user-storage.ts:28-42 | A load removes the entry exactly when it is unparsable and storage is not blocked |
| UserStorage.SaveThenLoad | src/lib/api/user-storage.ts:12-42 | Saving a user and loading gives that user back whenever storage accepts the write |
| UserStorage.SaveNullThenLoad | src/lib/api/user-storage.ts:16-18 | Saving `null` removes the entry, so a load finds no user |
| UserStorage.CorruptEntryIsDropped | src/lib/api/user-storage.ts:35-41 | An unparsable entry makes the load return null and is deleted |
| UserStorage.ClearThenLoad | src/lib/api/user-storage.ts:47-53 | After clearing, a load returns null |
| UserStorage.LoadNeverThrows | src/lib/api/user-storage.ts:28-42 | The load with a guarded handler never throws, and it returns a user iff storage is readable and holds a serialised user, which is that user |
| UserStorage.LoadAsWrittenThrowsWhenBlocked | src/lib/api/user-storage.ts:39 | As written, a load from blocked storage throws from its handler; on every other storage it agrees with the guarded load |
| UserStorage.UserStore.constructor | src/lib/api/user-storage.ts:7 | The store starts with the given entry and storage behaviour |
| UserStorage.UserStore.SetItem | src/lib/api/user-storage.ts:15 | `setItem` throws iff storage refuses writes, and otherwise stores the text |
| UserStorage.UserStore.RemoveItem | src/lib/api/user-storage.ts:17 | `removeItem` throws iff storage is blocked, and otherwise removes the entry |
| UserStorage.UserStore.Save | src/lib/api/user-storage.ts:12-23 | The entry after saving is `AfterSave`; every error is swallowed |
| UserStorage.UserStore.Load | src/lib/api/user-storage.ts:28-42 | Returns `LoadResultOf` and leaves `AfterLoad` |
| UserStorage.UserStore.LoadAsWritten | src/lib/api/user-storage.ts:28-42 | Returns `LoadResultAsWritten` and leaves `AfterLoad` |
| UserStorage.UserStore.Clear | src/lib/api/user-storage.ts:47-53 | The entry after clearing is `AfterClear`; every error is swallowed |
| Cookies.CookieHeader | src/api/token-storage.ts:7 | `"; "` followed by `document.cookie` is the concatenation of one `"; name=value"` segment per cookie |
| Cookies.Lookup | src/api/token-storage.ts:6-13 | A value is found for a name iff some cookie has that name |
| Cookies.SplitOnMarker | src/api/token-storage.ts:8 | Splitting on `"; name="` gives one more part than there are cookies of that name. With none, it is the whole text; with one, the second part is that cookie's value and what follows it |
| Cookies.GetCookieOfHeader | src/api/token-storage.ts:6-13 | `getCookie` gives null unless exactly one cookie has the name; with one, it gives that cookie's value, or null when the value is empty |
| Cookies.ReadJar | src/api/token-storage.ts:6-13 | On a jar with unique names, `getCookie` reads the stored value, or null when it is absent or empty |
| Cookies.LookupWellFormed | src/api/token-storage.ts:10 | A value read from the jar has no `;`, so the `split(';')` of `getCookie` keeps all of it |
| Cookies.UniqueNamed | src/api/token-storage.ts:9 | In a jar with unique names, no name occurs twice, so the two-part test of `getCookie` is met whenever the name is present |
| Cookies.StoredValue | src/api/token-storage.ts:18 | The value the browser keeps for an assignment has no `;` |
| Cookies.StorableKept | src/api/token-storage.ts:18 | A value without `;` and without surrounding spaces or tabs is kept verbatim |
| Cookies.Remove | src/api/token-storage.ts:21-23 | After deletion no cookie of the name is left |
| Cookies.RemoveMembers | src/api/token-storage.ts:21-23 | Deletion keeps exactly the cookies of other names |
| Cookies.RemoveFacts | src/api/token-storage.ts:21-23 | Deletion keeps the jar well formed with unique names, makes the name unreadable and leaves other names alone |
| Cookies.RemoveAbsent | src/api/token-storage.ts:21-23 | Deleting a name that is not there changes nothing |
| Cookies.RemoveIdempotent | src/api/token-storage.ts:21-23 | Deleting twice is deleting once |
| Cookies.UpsertMembers | src/api/token-storage.ts:15-19 | Writing a cookie adds it, keeps every cookie of another name, and brings in nothing else |
| Cookies.UpsertFacts | src/api/token-storage.ts:15-19 | Writing a cookie keeps the jar well formed with unique names, makes it the value read for its name, and leaves every other name's value alone |
| Cookies.AssignFacts | src/api/token-storage.ts:15-23 | Any assignment keeps the jar valid. The name reads as the kept value when the expiry is in the future and is gone otherwise; other names are unchanged |
| Cookies.NamedZeroIff | src/api/token-storage.ts:6-13 | No cookie of a name is counted iff none is in the jar |
| Cookies.CookieJar.constructor | src/api/token-storage.ts:7 | A jar starts from a valid set of cookies |
| Cookies.CookieJar.Write | src/api/token-storage.ts:18 | Assigning `document.cookie` yields exactly `Assign` of the old jar, which stays valid |
| Cookies.CookieJar.SetCookie | src/api/token-storage.ts:15-19 | `setCookie(name, value, days)` is the assignment with an expiry `days` ahead |
| Cookies.CookieJar.DeleteCookie | src/api/token-storage.ts:21-23 | `deleteCookie(name)` removes the cookie of that name and nothing else |
| CookieTokenStorage.TokenNamesValid | src/api/token-storage.ts:66-85 | The five token names are names `getCookie` can find |
| CookieTokenStorage.AccessTokenPreference | src/api/token-storage.ts:31-50 | `accessToken` is preferred, then `access_token`, then `token`; the refresh token is `refreshToken`, else `refresh_token` |
| CookieTokenStorage.SetTokensWritesFour | src/api/token-storage.ts:55-63 | `setTokens` writes both access cookies with 7 days and both refresh cookies with 30 days, holding the kept values; every other cookie reads as before |
| CookieTokenStorage.SetThenGet | src/api/token-storage.ts:31-63 | After `setTokens(a, r)` the getters read back the kept values, which are `a` and `r` when the browser keeps them verbatim, and `hasTokens` holds |
| CookieTokenStorage.RemoveFiveFacts | src/api/token-storage.ts:66-74 | After five deletions none of the names is left, and deleting them again changes nothing |
| CookieTokenStorage.ClearTokensClears | src/api/token-storage.ts:66-86 | After `clearTokens`, both getters give null and `hasTokens` is false; clearing is idempotent |
| CookieTokenStorage.SetTokens | src/api/token-storage.ts:55-63 | The jar after the four writes is `AfterSetTokens` of the old one |
| CookieTokenStorage.ClearTokens | src/api/token-storage.ts:66-74 | The jar after the five deletions is `AfterClearTokens` of the old one |
| PresenceTokenStorage.AccessFlagIffPresent | src/lib/api/token-storage.ts:26-32 | `getAccessToken` gives the flag `"cookie"` iff a non-empty `accessToken` cookie is there, and never the value itself |
| PresenceTokenStorage.RefreshFlagIffPresent | src/lib/api/token-storage.ts:35-40 | `getRefreshToken` gives `"cookie"` iff a non-empty `refreshToken` cookie is there |
| PresenceTokenStorage.LegacyNamesOnlyInHasTokens | src/lib/api/token-storage.ts:62-71 | A jar holding only `token` has tokens by `hasTokens`, but `getAccessToken` gives null. With only `refresh_token`, the cookie-value store reads a refresh token and this one does not |
| PresenceTokenStorage.ClearThenAbsent | src/lib/api/token-storage.ts:51-59 | After `clearTokens` both getters give null and `hasTokens` is false |
| PresenceTokenStorage.SetTokens | src/lib/api/token-storage.ts:45-48 | `setTokens` leaves `document.cookie` as it was |
| PresenceTokenStorage.ClearTokens | src/lib/api/token-storage.ts:51-59 | The same five deletions as the cookie-value store |
| SearchParams.PairText | src/api/issues.ts:38 | One serialised pair is never empty |
| SearchParams.Serialize | src/api/issues.ts:38 | `searchParams.toString()` is empty iff nothing was appended |
| SearchParams.ReadPairText | src/api/issues.ts:38 | A serialised pair reads back as its encoded name and value |
| SearchParams.ReadSerialized | src/api/issues.ts:38 | Reading a serialised list gives back every encoded pair, in order |
| SearchParams.SerializeInjective | src/api/issues.ts:38 | With an injective encoder the query string determines the appended pairs |
| SearchParams.UrlSearchParams.constructor | src/api/issues.ts:24 | `new URLSearchParams()` holds no pair |
| SearchParams.UrlSearchParams.Append | src/api/issues.ts:25 | `append` adds one pair at the end and keeps the rest |
| QueryString.StandardKnownDistinct | src/api/issues.ts:33 | The five standard known keys differ from each other |
| QueryString.KnownPairsSpec | src/api/issues.ts:25-29 | The known keys are appended in their fixed order, exactly those whose value is truthy, each with its value as a string |
| QueryString.FalsyKnownAbsent | src/api/issues.ts:25-29 | A known key whose value is falsy, such as page 0, an empty `sortBy` or a missing key, is not in the query at all, not even through the loop |
| QueryString.FalsyValuesAppendNothing | src/api/issues.ts:25-29 | When no entry holds a truthy value, the known keys append nothing |
| QueryString.ExtraPairsSpec | src/api/issues.ts:32-36 | The loop appends exactly the entries that are neither known keys nor `undefined`, in entry order, with `String` of the value, so `null` becomes `"null"` |
| QueryString.ExtraKeysNotKnown | src/api/issues.ts:32-36 | Every key the loop appends comes from the params object and is not a known key |
| QueryString.ExtraKeysDistinct | src/api/issues.ts:32-36 | The loop appends no key twice |
| QueryString.NoDuplicateKeys | src/api/issues.ts:25-36 | With distinct known keys no key appears twice in a query |
| QueryString.KnownBeforeExtras | src/api/issues.ts:25-36 | All known-key pairs come first, and every pair after them has a key that is not known |
| QueryString.NothingAppendedIff | src/api/issues.ts:25-36 | Nothing is appended iff every known key is falsy and, with the loop, every other entry is `undefined` |
| QueryString.BarePathIff | src/api/issues.ts:38-41 | The endpoint is the bare path iff no known key is truthy and every other entry is `undefined`; otherwise it is the path, `?` and the query |
| QueryString.EndpointBareIff | src/api/issues.ts:38-41 | The endpoint is the bare path iff no pair was appended |
| QueryString.PathAndQueryOfEndpoint | src/api/issues.ts:38-41 | Splitting at the first `?` gives back the path and the query when the path has no `?` |
| QueryString.EndpointRoundTrip | src/api/issues.ts:24-41 | The endpoint's path is the base path, and reading its query gives every appended pair, encoded, in order |
| QueryString.AppendIfTruthy | src/api/issues.ts:25 | One `if (params?.key) append` adds the key's pair iff its value is truthy |
| QueryString.AppendExtras | src/api/issues.ts:32-36 | The `forEach` loop appends exactly `ExtraPairs` of the entries, the sequence `ExtraPairsSpec` characterises |
| QueryString.AppendStandardKnown | src/api/issues.ts:25-29 | The five appends add exactly `KnownPairs` of the standard keys |
| QueryString.EndpointOf | src/api/issues.ts:38-41 | The endpoint is built from the serialised pairs |
| QueryString.StandardListEndpoint | src/api/issues.ts:24-41 | The whole builder yields the path with the standard known pairs and then the extras |
| QueryString.KnownOnlyEndpoint | src/api/issues.ts:98-108 | A builder without the loop yields the path with the standard known pairs only |
| IssuesApi.GetAll | src/api/issues.ts:21-44 | The endpoint `/issues` with the five standard known keys and then the other entries |
| IssuesApi.GetByContest | src/api/issues.ts:47-71 | The same query on the contest's issues path |
| IssuesApi.GetComments | src/api/issues.ts:94-113 | The comments path with the known keys only: no loop over the other entries |
| IssuesApi.CommentsOnlyKnownKeys | src/api/issues.ts:98-103 | A comments query carries at most the five known keys, and no other key |
| IssuesApi.IssueQueriesNoDuplicateKeys | src/api/issues.ts:24-36 | No key appears twice in an issues query |
| IssuesApi.FalsyKnownDroppedNullExtraKept | src/api/issues.ts:25-36 | With `{page: 0, sortBy: "", status: null}` the falsy known keys are dropped and the extra `null` is sent as the text `"null"` |
| IssuesApi.GetEscalation | src/api/issues.ts:124-136 | A success is returned as it is. A failure with status 404 becomes `null`, and every other failure or crash is rethrown unchanged |
| ContestsApi.GetAll | src/api/contests.ts:15-38 | The endpoint `/contests` with the five standard known keys and then the other entries |
| ContestsApi.GetParticipants | src/api/contests.ts:74-93 | The participants path with the five known keys only |
| ContestsApi.GetPaginated | src/api/contests.ts:101-122 | `/contests/paginated` with `page`, `limit` and `status` when truthy, then every other entry that is not `undefined` |
| ContestsApi.PaginatedKnownDistinct | src/api/contests.ts:111 | The three paginated known keys differ from each other |
| ContestsApi.ContestQueriesNoDuplicateKeys | src/api/contests.ts:15-122 | No key appears twice in the query of any of the three contest list calls |
| ContestsApi.PaginatedSendsOtherKeysAsExtras | src/api/contests.ts:105-114 | In the paginated call, `offset`, `sortBy` and `sortOrder` are sent whenever they are not `undefined`, even when falsy, and only after every known key |
| ContestsApi.ZeroOffsetDroppedByGetAllSentByGetPaginated | src/api/contests.ts:19-114 | `{offset: 0}` gives the bare path for `getAll` but `offset=0` for `getPaginated` |
| UsersApi.GetAll | src/api/users.ts:9-30 | The endpoint `/users` with the five standard known keys and then the other entries |
| UsersApi.BareUsersPathIff | src/api/users.ts:24-27 | The bare `/users` is requested iff every known key is falsy and every other entry is `undefined`; otherwise `/users?` and the query |
| UsersApi.UsersEndpointRoundTrip | src/api/users.ts:10-27 | The `/users` endpoint's path is `/users`, and its query reads back as every appended pair, encoded, in order |
| QueryKeys.ListsPrefixOfList | src/constants/queryKeys.ts:13-40 | `all` is a proper prefix of `lists()` and `details()`, and `lists()` of every `list(filters)`, so invalidating the lists reaches every filtered list |
| QueryKeys.IssueDetailPrefixOfChildren | src/constants/queryKeys.ts:42-48 | An issue's detail key is a proper prefix of its comments and escalation keys, and of no other issue's |
| QueryKeys.ContestDetailPrefixOfChildren | src/constants/queryKeys.ts:29-31 | A contest's detail key is a proper prefix of its participants key and of its participation key |
| QueryKeys.ByContestOutsideListsAndDetails | src/constants/queryKeys.ts:43-44 | `byContest` keys sit under `issues`, but under neither `issues.lists()` nor `issues.details()` |
| QueryKeys.DetailInjective | src/constants/queryKeys.ts:18 | Two detail keys of one namespace are equal iff the ids are |
| QueryKeys.NamespacesSeparate | src/constants/queryKeys.ts:7-37 | A key under one namespace is never under another |
| QueryKeys.KeysStartWithNamespace | src/constants/queryKeys.ts:7-48 | Every key starts with its namespace atom; `auth.me()` is `['auth', 'me']` |
| IssueHooks.NextPage | src/hooks/api/issues.ts:39-44 | There is a next page iff `page < totalPages`, and it is `page + 1`, never beyond the last page |
| IssueHooks.PagesFromCountsUp | src/hooks/api/issues.ts:39-45 | From page 1 an infinite list loads pages 1 to `totalPages` in order, each once, or just page 1 when `totalPages <= 1` |
| IssueHooks.MutatedSpec | src/hooks/api/issues.ts:330-341 | An optimistic update keeps each key. A participation response loses exactly the issues with the deleted id and keeps all else; other entries are unchanged |
| IssueHooks.SnapLookupLast | src/hooks/api/issues.ts:349-351 | In a replay of `setQueryData` calls, the last call for a key decides it |
| IssueHooks.SnapshotKeysFrom | src/hooks/api/issues.ts:330-332 | A key no entry has is not in the snapshot |
| IssueHooks.SnapshotLookup | src/hooks/api/issues.ts:330-332 | The snapshot holds an entry's data iff that entry is a participation query with data |
| IssueHooks.RollbackRestores | src/hooks/api/issues.ts:309-353 | `onError` right after `onMutate` gives back the cache as it was before the mutation, entry by entry |
| IssueHooks.RollbackEntry | src/hooks/api/issues.ts:346-353 | Rolling back restores one entry of the cache |
| IssueHooks.EmptyEntriesUntouched | src/hooks/api/issues.ts:331 | An entry without data is neither snapshotted nor rewritten |
| IssueHooks.ParticipationPredicateSelects | src/hooks/api/issues.ts:312-315 | The predicate selects a contest's participation key, and no issue, list, detail, comments, escalation or participants key |
| IssueHooks.RemoveUnder | src/hooks/api/issues.ts:361 | `removeQueries` keeps exactly the entries not under the key |
| IssueHooks.ContestUnknownAfterRemoval | src/hooks/api/issues.ts:355-361 | Once the detail is removed no contest can be read for the issue, which is why the handler reads it first |
| IssueHooks.ContestOfSomeHasDetail | src/hooks/api/issues.ts:356-358 | A contest is known only when the issue's detail is in the cache |
| IssueHooks.SettledInvalidatesParticipation | src/hooks/api/issues.ts:362-385 | With a known contest, its issues, detail and participation are invalidated and not all participation; without one, the lists and every participation query. The lists always come first |
| IssueHooks.IssueCache.constructor | src/hooks/api/issues.ts:305 | The cache starts with the given entries and no invalidation |
| IssueHooks.IssueCache.OnMutate | src/hooks/api/issues.ts:309-345 | Every entry becomes its optimistic update; the snapshot returned is `Snapshot` of the old cache, which `RollbackRestores` undoes |
| IssueHooks.IssueCache.SetQueryData | src/hooks/api/issues.ts:340 | The entry of the key gets the data, and every other entry is kept |
| IssueHooks.IssueCache.OnError | src/hooks/api/issues.ts:346-353 | Every entry becomes what the replay of the snapshot leaves for it |
| IssueHooks.IssueCache.RemoveQueries | src/hooks/api/issues.ts:361 | The entries become `RemoveUnder` of the key |
| IssueHooks.IssueCache.Invalidate | src/hooks/api/issues.ts:363 | One invalidation is logged, and the entries are unchanged |
| IssueHooks.IssueCache.ReadContest | src/hooks/api/issues.ts:356-358 | The contest read is the truthy `contestId` of the cached detail, if any |
| IssueHooks.IssueCache.OnSettled | src/hooks/api/issues.ts:354-386 | The detail is removed, and the invalidations are those for the contest read before the removal |
| IssueHooks.IssueCache.OnDeleted | src/hooks/api/issues.ts:151-171 | The same removal; the lists and, with a known contest, its issues and detail are invalidated |
| Common.Filter | src/hooks/use-findings.ts:19 | `Array.prototype.filter` keeps exactly the elements that satisfy the predicate |
| Common.FilterAppend | src/hooks/use-findings.ts:96 | Filtering distributes over concatenation |
| Common.FilterIdempotent | src/hooks/use-findings.ts:96 | Filtering twice is filtering once |
| Common.Count | src/hooks/use-judge-reviews.ts:109-112 | A count is at most the length |
| Common.CountIsFilterLength | src/hooks/use-judge-reviews.ts:109-112 | The count of a predicate is the length of the filtered list |
| Common.FindIndex | src/hooks/use-findings.ts:80 | `findIndex` gives the first index that satisfies the predicate, or none when no element does |
| Common.FilterDistinct | src/hooks/use-judge-reviews.ts:48 | Filtering keeps a list free of repetitions |
| FindingsStore.OfContest | src/hooks/use-findings.ts:14-27 | The loaded list holds exactly the stored findings of the contest |
| FindingsStore.Patched | src/hooks/use-findings.ts:83-87 | A patch keeps the id, contest, author and creation time, sets `updatedAt`, and overwrites exactly the fields given |
| Common.ReplaceWhere | src/hooks/use-findings.ts:89 | The list keeps its length; each element satisfying the predicate becomes the replacement, the others stay in place |
| FindingsStore.Without | src/hooks/use-findings.ts:94-99 | Deletion keeps exactly the findings with another id |
| FindingsStore.UserFindings | src/hooks/use-findings.ts:102-104 | The user's findings are exactly those written by the mock user |
| FindingsStore.UpdateUnknownIdChangesNothing | src/hooks/use-findings.ts:79-82 | Updating an id that no stored finding has leaves the stored list unchanged |
| FindingsStore.UpdateTouchesFirstMatchOnly | src/hooks/use-findings.ts:79-88 | An update patches exactly the first finding with the id, and every other entry stays where it was |
| FindingsStore.DeleteIdempotent | src/hooks/use-findings.ts:94-99 | Deleting twice is deleting once. Deleting an absent id changes nothing, and a deletion removes as many findings as carry the id |
| FindingsStore.FilterComplement | src/hooks/use-findings.ts:96 | The kept and the removed findings add up to the list |
| FindingsStore.DeleteCommutesWithLoad | src/hooks/use-findings.ts:94-99 | Deleting from the local list equals loading the contest's view of the store after the deletion |
| FindingsStore.CreatedIsUsers | src/hooks/use-findings.ts:54-68 | A created finding belongs to the hook's contest and to the mock user, is created and updated at once, and joins the user's findings at the end |
| FindingsStore.FindingsHook.constructor | src/hooks/use-findings.ts:10-11 | The hook starts loading with an empty list |
| FindingsStore.FindingsHook.Load | src/hooks/use-findings.ts:14-27 | A readable stored list replaces the local one with the contest's findings; otherwise the local list stays; loading always ends |
| FindingsStore.FindingsHook.Create | src/hooks/use-findings.ts:49-71 | The new finding is appended to the stored list, which starts empty when it is unreadable, and to the local list |
| FindingsStore.FindingsHook.Update | src/hooks/use-findings.ts:74-91 | Nothing happens unless a stored finding has the id; otherwise the store is `UpdatedStore` and the local list gets the patched finding |
| FindingsStore.FindingsHook.Delete | src/hooks/use-findings.ts:94-99 | The id is removed from the stored and from the local list |
| JudgeReviews.OfContest | src/hooks/use-judge-reviews.ts:12-25 | The loaded list holds exactly the stored reviews of the contest |
| JudgeReviews.ReviewForFinding | src/hooks/use-judge-reviews.ts:47-49 | A review is found iff the local list has one for the finding, and it is one of them |
| JudgeReviews.UpsertedFields | src/hooks/use-judge-reviews.ts:64-90 | The returned review has the pair, the new severity, comment and status, and `updatedAt` now. An existing review keeps its id and creation time; a new one is created now |
| JudgeReviews.UpsertShape | src/hooks/use-judge-reviews.ts:58-90 | The store keeps its length iff the pair had a review; otherwise exactly one review is appended at the end |
| JudgeReviews.UpsertKeepsPairsUnique | src/hooks/use-judge-reviews.ts:58-90 | Upserting keeps at most one stored review per (finding, contest) pair |
| JudgeReviews.UpsertLeavesOthers | src/hooks/use-judge-reviews.ts:64-90 | Reviews of other pairs keep their place and value |
| JudgeReviews.StatsAddUp | src/hooks/use-judge-reviews.ts:106-115 | The four status counts add up to the total |
| JudgeReviews.UpdateStatusKeepsVerdict | src/hooks/use-judge-reviews.ts:94-103 | A status update keeps the severity and comment and changes only the status |
| JudgeReviews.JudgeReviewsHook.constructor | src/hooks/use-judge-reviews.ts:5-11 | The hook starts loading with an empty list |
| JudgeReviews.JudgeReviewsHook.Load | src/hooks/use-judge-reviews.ts:12-25 | A readable stored list replaces the local one with the contest's reviews; otherwise the local list stays |
| JudgeReviews.JudgeReviewsHook.Upsert | src/hooks/use-judge-reviews.ts:52-91 | Returns `Upserted`, and leaves `UpsertedStore` in storage and `UpsertedLocal` in the local list |
| JudgeReviews.JudgeReviewsHook.UpdateStatus | src/hooks/use-judge-reviews.ts:94-103 | Without a local review nothing changes; otherwise the review is upserted with only the status changed |
| JudgeReviews.JudgeReviewsHook.GetStats | src/hooks/use-judge-reviews.ts:106-115 | The total is the number of local reviews, and the status counts add up to it |
| Sorting.Insert | src/components/FindingsList.tsx:44-46 | Inserting into a sorted list keeps it sorted and adds exactly the one element |
| Sorting.SortedCons | src/components/FindingsList.tsx:44-46 | A head no greater than the first key of a sorted list keeps it sorted |
| Sorting.SortByKey | src/components/FindingsList.tsx:44-46 | The sorted copy is ordered by ascending key and is a permutation of the input |
| Sorting.ConstantKeyKeepsOrder | src/components/FindingsList.tsx:44-46 | When every element has the same key, as under a comparator that is always NaN, the sort leaves the list as it was |
| Sorting.SortedCopyHasSameElements | src/pages/Leaderboard.tsx:21-32 | The sorted copy holds exactly the elements of the input |
| SeverityGroups.GroupOf | src/components/FindingsList.tsx:35-41 | A severity's folder holds exactly the findings of that severity |
| SeverityGroups.FirstOccurrencesSpec | src/components/FindingsList.tsx:35-44 | The accumulator's keys are exactly the severities that occur, each once |
| SeverityGroups.Group | src/components/FindingsList.tsx:35-41 | The `reduce` yields the keys in order of first occurrence, and under each key exactly that severity's findings in input order |
| SeverityGroups.GroupStep | src/components/FindingsList.tsx:36-39 | One step of the `reduce` keeps the keys and arrays in step with the findings seen so far |
| SeverityGroups.FirstOccurrencesSnoc | src/components/FindingsList.tsx:36-38 | A finding of a new severity adds that key at the end; otherwise the keys stay |
| SeverityGroups.SizeSumAppend | src/components/FindingsList.tsx:39 | One more finding adds one to exactly the folder of its severity |
| SeverityGroups.GroupsPartition | src/components/FindingsList.tsx:35-41 | The folder sizes add up to the number of findings, and each finding is in the folder of its severity |
| SeverityGroups.SortedSeverities | src/components/FindingsList.tsx:44-46 | The folder order is sorted by rank and is a permutation of the accumulator's keys |
| SeverityGroups.SortedSeveritiesPresent | src/components/FindingsList.tsx:44-46 | The sorted folders are exactly the severities that occur, each once |
| SeverityGroups.UnrankedKeepsFirstOccurrence | src/components/FindingsList.tsx:44-46 | With the same rank for every severity, the folders are the severities in order of first occurrence |
| SeverityGroups.DistinctRanksStrictOrder | src/components/FindingsList.tsx:44-46 | A rank that tells the possible severities apart orders the folders strictly by rank |
| SeverityGroups.DistinctByMultiset | src/components/FindingsList.tsx:44-46 | A permutation of a list without repetitions has none either |
| SeverityGroups.Toggled | src/components/FindingsList.tsx:48-58 | Toggling changes the membership of exactly the one severity |
| SeverityGroups.ToggleTwice | src/components/FindingsList.tsx:48-58 | Toggling twice restores the set |
| FindingsList.OwnerControls | src/components/FindingsList.tsx:131-165 | Anonymous mode hides every owner control. Otherwise a control shows iff the finding's author is the signed-in user; a finding without an author counts as owned when signed out |
| FindingsList.DisplayName | src/components/FindingsList.tsx:132-134 | The anonymous id in anonymous mode, the title otherwise |
| FindingsList.ConfirmedDelete | src/components/FindingsList.tsx:65-71 | `onDelete` is called iff a truthy id is pending and the callback exists, and with that id |
| FindingsList.ZeroIdNeverDeleted | src/components/FindingsList.tsx:66 | A pending id 0 is never deleted, because 0 is falsy; every other id is |
| FindingsList.FoldersPartitionFindings | src/components/FindingsList.tsx:35-46 | For any rank, folders are ordered by it without repetition, and each finding is listed exactly in the folder of its severity |
| FindingsList.SeverityOrder | src/types/finding.ts:7-11 | `severityOrder` has an entry, from 0 to 2, exactly for the upper-case enum names |
| FindingsList.LowerCaseSeveritiesUnmatched | src/components/FindingsList.tsx:28 | No lower-case severity is a key of `severityOrder` or in the initial expanded set |
| FindingsList.AsWrittenFoldersStartCollapsed | src/components/FindingsList.tsx:28-46 | As written, the folders of lower-case severities come in order of first occurrence, and none is in the initial expanded set |
| FindingsList.FirstRender | src/components/FindingsList.tsx:28-106 | As written, the folders a new list computes are all collapsed, in order of first occurrence |
| FindingsList.IntendedFolderOrder | src/components/FindingsList.tsx:44-46 | Corrected: ranked high, medium, low, the folders run in that order, each once |
| FindingsList.IntendedFirstRender | src/components/FindingsList.tsx:28-106 | Corrected: the folders a new list computes hold every severity that occurs, expanded, in the order high, medium, low |
| FindingsList.FindingsListView.Intended | src/components/FindingsList.tsx:28-32 | Corrected initial state: the lower-case severities start expanded, and no dialog is open |
| FindingsList.FindingsListView.constructor | src/components/FindingsList.tsx:28-32 | The initial expanded set is the upper-case enum names, which no lower-case severity matches; no dialog is open |
| FindingsList.FindingsListView.ToggleSeverity | src/components/FindingsList.tsx:48-58 | The expanded set becomes `Toggled`, and nothing else changes |
| FindingsList.FindingsListView.HandleDeleteClick | src/components/FindingsList.tsx:60-63 | The id is pending and the delete dialog is open |
| FindingsList.FindingsListView.ConfirmDelete | src/components/FindingsList.tsx:65-71 | Returns `ConfirmedDelete` of the pending id; the dialog closes and nothing is pending |
| FindingsList.FindingsListView.HandleViewClick | src/components/FindingsList.tsx:73-76 | The finding is selected and the view dialog is open |
| FindingsList.FindingsListView.Folders | src/components/FindingsList.tsx:35-46 | The folders follow the sorted severities, each with its group and its expanded flag |
| JudgeReviewPanel.ReviewStatusOf | src/components/JudgeReviewPanel.tsx:77-80 | A finding's status is its review's status, or pending without a review |
| JudgeReviewPanel.FilterFindings | src/components/JudgeReviewPanel.tsx:96-99 | `all` keeps every finding; a status keeps the findings with that status |
| JudgeReviewPanel.StatusFilterExact | src/components/JudgeReviewPanel.tsx:96-99 | A status filter keeps exactly the findings with that status, and applying it again changes nothing |
| JudgeReviewPanel.PanelStatsAddUp | src/components/JudgeReviewPanel.tsx:102-108 | The four status counts add up to the number of findings |
| JudgeReviewPanel.NoReviewsAllPending | src/components/JudgeReviewPanel.tsx:77-80 | Without reviews every finding counts as pending |
| JudgeReviewPanel.AsWrittenPanelOrder | src/components/JudgeReviewPanel.tsx:56-58 | As written, `severityOrder` has no lower-case key, so the folders come in order of first occurrence |
| JudgeReviewPanel.IntendedPanelOrder | src/components/JudgeReviewPanel.tsx:56-58 | Corrected: ranked from critical to informational, the folders run in that order, each once |
| JudgeReviewPanel.VisibleFoldersContents | src/components/JudgeReviewPanel.tsx:170-174 | A shown folder holds exactly the filtered findings of its severity and its expanded flag; under a status filter it is never empty |
| JudgeReviewPanel.VisibleFoldersAll | src/components/JudgeReviewPanel.tsx:170-174 | Under `all` every severity gets a folder, in order |
| JudgeReviewPanel.VisibleFoldersOnly | src/components/JudgeReviewPanel.tsx:170-174 | Under a status filter, a severity with a finding of that status gets a folder |
| JudgeReviewPanel.PanelView.constructor | src/components/JudgeReviewPanel.tsx:39-44 | The five severities start expanded, nothing is selected and the filter is `all` |
| JudgeReviewPanel.PanelView.ToggleSeverity | src/components/JudgeReviewPanel.tsx:60-70 | The expanded set becomes `Toggled`, and nothing else changes |
| JudgeReviewPanel.PanelView.HandleReviewClick | src/components/JudgeReviewPanel.tsx:72-75 | The finding is selected and the review dialog is open |
| JudgeReviewPanel.PanelView.SetFilter | src/components/JudgeReviewPanel.tsx:44 | The filter is set, and nothing else changes |
| JudgeReviewPanel.PanelView.Save | src/components/JudgeReviewPanel.tsx:245-250 | The update is forwarded iff a finding is selected, with its id and the data; the dialog closes |
| JudgeReviewPanel.PanelView.Folders | src/components/JudgeReviewPanel.tsx:170-174 | The folders are the visible folders of the sorted severities |
| JudgeReviewDialog.InitialSeverity | src/components/JudgeReviewDialog.tsx:64 | The existing review's severity when it names one, otherwise the submitted severity |
| JudgeReviewDialog.InitialComment | src/components/JudgeReviewDialog.tsx:65 | The existing review's comment, or empty without a review |
| JudgeReviewDialog.InitialStatus | src/components/JudgeReviewDialog.tsx:66 | The existing review's status, or `pending` without a review |
| JudgeReviewDialog.DialogTitle | src/components/JudgeReviewDialog.tsx:115 | `Finding #` followed by the last six characters of the id (all of it when shorter) |
| JudgeReviewDialog.ReviewForm.constructor | src/components/JudgeReviewDialog.tsx:57-59 | The form starts at `medium`, no comment, `pending` |
| JudgeReviewDialog.ReviewForm.Sync | src/components/JudgeReviewDialog.tsx:62-68 | Without a finding nothing changes; with one the three fields take their initial values |
| JudgeReviewDialog.ReviewForm.SelectSeverity | src/components/JudgeReviewDialog.tsx:135 | Only the severity changes |
| JudgeReviewDialog.ReviewForm.SetComment | src/components/JudgeReviewDialog.tsx:188 | Only the comment changes |
| JudgeReviewDialog.ReviewForm.SetStatus | src/components/JudgeReviewDialog.tsx:172 | Only the status changes |
| JudgeReviewDialog.ReviewForm.HandleSave | src/components/JudgeReviewDialog.tsx:93-99 | The data handed to `onSave` is exactly the form's three fields |
| JudgeReviewDialog.SaveWithoutEdits | src/components/JudgeReviewDialog.tsx:62-99 | Saving right after the effect sends back the existing verdict, or the submitted severity, no comment and `pending`; the severity then counts as unchanged |
| JudgeReviewDialog.DialogContent | src/components/JudgeReviewDialog.tsx:70-91 | Nothing without a finding; otherwise the title and one block per content line |
| LineClassifier.ClassifyLine | src/components/JudgeReviewDialog.tsx:75-91 | Each line becomes a level-2 heading, a level-3 heading, nothing (a code fence), a break (blank) or a paragraph, each exactly when its test is the first to pass; headings drop their marker and paragraphs keep the line |
| LineClassifier.PrefixesExclusive | src/components/FindingViewDialog.tsx:36-45 | The heading and fence prefixes exclude each other, so the order of the tests only matters for blank lines |
| LineClassifier.RenderContent | src/components/FindingViewDialog.tsx:31-53 | One block per `\n`-separated line, in order, each classified on its own |
| LineClassifier.OneBlockPerLine | src/components/FindingViewDialog.tsx:32-34 | The number of blocks is one more than the number of line feeds |
| LineClassifier.RenderJoinedLines | src/components/FindingViewDialog.tsx:32-52 | Lines joined with `\n` render as those lines' blocks, in order |
| FindingViewDialog.ViewOf | src/components/FindingViewDialog.tsx:26-81 | No view without a finding; the anonymous view is titled by the last six characters of the id and hides the timestamps; otherwise the title is shown with the creation time, and the last update exactly when it differs from it |
| FindingViewDialog.AnonymousViewHidesAuthor | src/components/FindingViewDialog.tsx:66-74 | Two findings with the same content and the same last six id characters look the same in anonymous mode |
| MarkdownEditor.SelectedOrPlaceholder | src/components/MarkdownEditor.tsx:25 | The selected text, or the placeholder when the selection is empty |
| MarkdownEditor.InsertAtCursor | src/components/MarkdownEditor.tsx:19-35 | Without a textarea nothing happens; otherwise a splice is produced |
| MarkdownEditor.InsertAtCursorSpec | src/components/MarkdownEditor.tsx:26-32 | The text before and after the selection is kept verbatim, the markers surround the selection (or placeholder), and the cursor lands between it and the closing marker |
| MarkdownEditor.InsertThenCut | src/components/MarkdownEditor.tsx:26 | Removing the inserted part gives back the text without its selection, and the original text when nothing was selected |
| MarkdownEditor.ToolbarMarkers | src/components/MarkdownEditor.tsx:54-65 | Bold, italic, code and link wrap the selection in a marker pair; headings, quote and lists only prefix it |
| MarkdownEditor.ImageInsertion | src/components/MarkdownEditor.tsx:37-52 | An image goes in as `![name](data URL)` at the cursor, or with the selection in place of the data URL |
| Account.ValidateWallet | src/pages/Account.tsx:53-58 | No error exactly when the input is empty or trims to a `0x` address of 40 hex digits; otherwise the fixed message |
| Account.WhitespaceWalletInvalid | src/pages/Account.tsx:54-57 | Non-empty input made of whitespace only is rejected |
| Account.FormattedWallet | src/pages/Account.tsx:39-44 | Nothing for empty input; the first six, `...` and the last four characters above ten characters; the input itself otherwise |
| Account.ProfilePayload | src/pages/Account.tsx:67-70 | An empty username is left out and an empty bio is sent as `null`; other values go as typed |
| Account.WalletPayload | src/pages/Account.tsx:89 | The trimmed input, or `null` when it trims to empty |
| Account.ValidWalletPayload | src/pages/Account.tsx:53-89 | A validated wallet is sent as an address, or as `null` exactly when the input is empty |
| Account.SaveToast | src/pages/Account.tsx:71-101 | The form's success toast on success; otherwise "Update failed" with the error's message, or the form's fallback when the value thrown is not an Error |
| Account.Initial | src/pages/Account.tsx:38 | An initial exactly when the user has a username, at most one character |
| Account.AccountForm.constructor | src/pages/Account.tsx:27-30 | The inputs start from the user's values, missing ones as empty, with the wallet already validated |
| Account.AccountForm.TypeUsername | src/pages/Account.tsx:27 | Only the username input changes |
| Account.AccountForm.TypeBio | src/pages/Account.tsx:377 | The bio becomes the first 280 characters of the typed text |
| Account.AccountForm.TypeWallet | src/pages/Account.tsx:60-62 | The wallet input changes and the error shown is the validator's verdict on it |
| Account.AccountForm.SaveProfile | src/pages/Account.tsx:49-83 | A request is sent exactly when the name or bio differs from the user's and no save is pending, with the profile payload |
| Account.AccountForm.SaveWallet | src/pages/Account.tsx:51-103 | A request is sent exactly when the wallet differs, no save is pending and the wallet validates; what it sends is `null` or an address |
| SubmitFindingDialog.BlankFieldsRejected | src/components/SubmitFindingDialog.tsx:111-118 | A submission is accepted exactly when a severity is chosen and neither title nor content is whitespace only |
| SubmitFindingDialog.TemplateAccepted | src/components/SubmitFindingDialog.tsx:65-118 | With the template as content, a severity and a non-blank title are all that is needed |
| SubmitFindingDialog.StartsWithNonWhitespace | src/components/SubmitFindingDialog.tsx:111 | A text starting with a non-whitespace character is not blank after trimming |
| SubmitFindingDialog.DoneToast | src/components/SubmitFindingDialog.tsx:127-132 | `Finding updated` when editing, `Finding submitted` otherwise |
| SubmitFindingDialog.SubmitForm.constructor | src/components/SubmitFindingDialog.tsx:88-91 | The form starts reset (no severity, no title, the template) and not submitting |
| SubmitFindingDialog.SubmitForm.Sync | src/components/SubmitFindingDialog.tsx:96-106 | The fields come from the finding being edited, or are reset |
| SubmitFindingDialog.SubmitForm.SetSeverity | src/components/SubmitFindingDialog.tsx:88 | Only the severity changes |
| SubmitFindingDialog.SubmitForm.SetTitle | src/components/SubmitFindingDialog.tsx:89 | Only the title changes |
| SubmitFindingDialog.SubmitForm.SetContent | src/components/SubmitFindingDialog.tsx:90 | Only the content changes |
| SubmitFindingDialog.SubmitForm.BeginSubmit | src/components/SubmitFindingDialog.tsx:108-120 | A rejected form shows the missing-fields toast and changes nothing; an accepted one is marked as submitting and its untrimmed fields are the draft |
| SubmitFindingDialog.SubmitForm.FinishSubmit | src/components/SubmitFindingDialog.tsx:123-139 | The draft goes to `onSubmit` with the matching toast; the form is reset, no longer submitting, and the dialog is closed |
| Leaderboard.SortedAuditors | src/pages/Leaderboard.tsx:21-32 | The same auditors, ordered by rank ascending or by the chosen field descending |
| Leaderboard.RankBadge | src/pages/Leaderboard.tsx:34-39 | Trophy, silver or bronze exactly for 1, 2 and 3; otherwise `#` and the number |
| Leaderboard.Rows | src/pages/Leaderboard.tsx:112-132 | One row per auditor in order, badged by its position, with high, medium and low findings added up |
| Leaderboard.BadgesFollowPosition | src/pages/Leaderboard.tsx:119 | The trophy goes to the first row alone, whatever its rank; from the fourth row on the badge reads the row's position |
| Leaderboard.TableIsPermutation | src/pages/Leaderboard.tsx:21-32 | The table lists every auditor exactly as often as the input does |
| ContestsLib.MapContestStatus | src/lib/contests.ts:45-56 | A status in the map gives its entry; any other gives `UPCOMING` |
| ContestsLib.InheritedStatusIsNoStatus | src/lib/contests.ts:55 | As written, `constructor` yields an inherited member, not a status; for every other name the two agree |
| ContestsLib.StatusesMapToThemselves | src/lib/contests.ts:46-54 | The five statuses map to themselves, `DRAFT` to `UPCOMING`, `CANCELLED` to `COMPLETED` |
| ContestsLib.MapContestStatusIdempotent | src/lib/contests.ts:45-56 | Mapping a mapped status's name again gives the same status |
| ContestsLib.LogoFromTitle | src/lib/contests.ts:27-33 | At most two characters, none of them a lower-case letter |
| ContestsLib.SplitFirstWord | src/lib/contests.ts:28 | Splitting on spaces peels off a first word without spaces |
| ContestsLib.LogoOfTwoWords | src/lib/contests.ts:29-31 | Two non-empty leading words give their upper-cased initials, as written too |
| ContestsLib.LogoOfOneWord | src/lib/contests.ts:32 | A title without a space gives its first two characters upper-cased, as written too |
| ContestsLib.LogoOfTrailingSpace | src/lib/contests.ts:29-30 | As written, `Foo ` gives `FUNDEFINED`; the corrected logo is `F` |
| ContestsLib.LogoOfSingleSpace | src/lib/contests.ts:29-30 | As written, a single space throws; the corrected logo is empty |
| ContestsLib.ContestType | src/lib/contests.ts:36-42 | The first tag when there is one; otherwise never empty |
| ContestsLib.ContestTypeFromDescription | src/lib/contests.ts:41 | Without tags, the description's first word when non-empty, else `Smart Contract` |
| ContestsLib.Participants | src/lib/contests.ts:67 | The participant count, or 0 when it is missing |
| ContestsLib.CardOf | src/lib/contests.ts:59-70 | The card of the corrected helpers: the title as name, a logo of at most two letters, the mapped status or `UPCOMING`, `participantCount || 0` and the first tag as type |
| ContestsLib.DetailOf | src/lib/contests.ts:73-87 | The detail of the corrected helpers: `description || undefined` and a scope of the contract name exactly when there is one |
| ContestsLib.CardOfAsWritten | src/lib/contests.ts:59-70 | As written, the card throws exactly when `getLogoFromTitle` does, and its status is what `statusMap[status] || UPCOMING` reads |
| ContestsLib.CardAsWrittenAgrees | src/lib/contests.ts:59-70 | When the logo needs no empty word and the status is no inherited name, the card as written is `CardOf` |
| ContestsLib.CardOfSingleSpace | src/lib/contests.ts:62 | As written, the card of title `" "` throws; `CardOf` gives an empty logo |
| ContestsLib.CardOfTrailingSpace | src/lib/contests.ts:62 | As written, the card of title `"Foo "` has logo `"FUNDEFINED"`; `CardOf` gives `"F"` |
| ContestsLib.CardOfConstructorStatus | src/lib/contests.ts:66 | As written, status `"constructor"` puts the inherited member on the card; `CardOf` shows `UPCOMING` |
| ContestsLib.DetailExtendsCard | src/lib/contests.ts:59-87 | The detail view shows what the card shows, both built on the corrected helpers; scope exactly when there is a contract name; an empty description is dropped; the id is the decimal text of the numeric id |
| SignUp.ValidateUsername | src/pages/SignUp.tsx:62-73 | Valid exactly for 3 to 30 letters, digits, `_` or `-`; the message of the first failing check otherwise |
| SignUp.EmailMatchesIffShape | src/pages/SignUp.tsx:80 | The scan accepts exactly the strings of the form `L@A.B` with no whitespace and a single `@` |
| SignUp.ValidateEmail | src/pages/SignUp.tsx:76-85 | Valid exactly for the `L@A.B` shape; empty input is reported as required |
| SignUp.ValidatePassword | src/pages/SignUp.tsx:112-132 | Valid exactly when all four requirements hold and the length is at most 128; the first failing check's message otherwise |
| SignUp.FormValidIgnoresMaximum | src/pages/SignUp.tsx:106-121 | A password over 128 characters meeting the requirements enables the button and is still rejected on submit |
| SignUp.ConfirmError | src/pages/SignUp.tsx:146-150 | No error exactly when the confirmation is non-empty and equal to the password |
| SignUp.SubmitGate | src/pages/SignUp.tsx:134-172 | The request is sent exactly when every field validates and the terms are accepted; field errors come before the terms |
| SignUp.LowerKeepsNonWhitespace | src/pages/SignUp.tsx:175 | Lower-casing maps no character to whitespace |
| SignUp.SubmittedRequest | src/pages/SignUp.tsx:172-177 | The request carries the username, the lower-cased email with nothing trimmed, and the password |
| SignUp.FailureToast | src/pages/SignUp.tsx:188-226 | The title follows the client error's status (409, 429, 400, otherwise a generic failure); a non-error gets the default message |
| SignUp.CheckEmailState | src/pages/SignUp.tsx:179-187 | The check-email page gets the request's email and the server's message, or a non-empty default |

## Left out

- `fetch`, `localStorage`, `document.cookie` and `window.dispatchEvent` are not modelled as browser APIs. `fetch` is an outcome oracle indexed by the number of requests sent so far. Storage is a field that may refuse writes or be blocked. Cookies are a jar rendered as the `document.cookie` header. Events are an append-only log.
- Cookie attributes (`expires`, `path`, `SameSite`) and the date arithmetic behind the 7- and 30-day lifetimes are recorded as the lifetime in days; dates are not modelled.
- The percent-encoding of `URLSearchParams` is an opaque encoder, assumed injective and free of `&` and `=`. JSON serialisation is assumed to round-trip; a stored value is either a serialised user, empty text, or unparsable.
- Concurrency is not modelled: two parallel 401s each run their own refresh, React effects run when the model calls them, and mutation callbacks run in sequence. The `setTimeout` of `handleSubmit` splits it into `BeginSubmit` and `FinishSubmit`. The cursor focus after an insertion is given as a position only.
- Numbers are integers. `formatPrize`, `formatShortDate` and `toLocaleString` use floats and dates and are not part of this model. The earnings comparator's `parseFloat` is a parameter `earnings` of the leaderboard sort. `Date.now` and `Math.random` ids and ISO timestamps are parameters.
- `renderMarkdown`, the editor's preview, is a chain of regular-expression substitutions producing HTML, and is not part of this model. Neither are the `FileReader` call, the camera, the canvas and the wallet connection.
- React Query's matching, staleness and refetch semantics are not modelled: `invalidateQueries` is recorded in a log, and `removeQueries` drops the entries under a key prefix. `cancelQueries` is left out because no request is in flight in the model. The thin hook wrappers and the other mutation hooks only invalidate keys, and they are left out.
- The one-line API calls (`getById`, `create`, `update`, `delete`, `createComment`, `createEscalation`, `updateEscalation`, `updateByAuditor`, `deleteByAuditor`, `join`, `leave`, `getActiveAndUpcoming`, `getProfile`, `updateProfile`) only forward to the client and are left out. `src/api/client.ts` is not part of this model; its errors are taken to carry `status`, as `ApiClientError` does.
- Characters are code points. `toUpperCase` and `toLowerCase` map ASCII letters only, and UTF-16 code units are not modelled. The whitespace set of `trim` and of `\s` is the one `JsStrings.IsWhitespace` lists.
- Object keys are kept in insertion order; the JavaScript rule that puts integer-like keys first is not modelled.
- The rank of the folder sort is a parameter of the grouping: `Unranked` is what the source's comparator amounts to, and `IssueRank` and `PanelRank` are the intended rankings (see Findings). A comparator mixing defined and undefined ranks is not modelled, because no finding carries an upper-case severity.
- `severityColors[severity].split(' ')[1]` (`src/components/FindingsList.tsx:120`, `src/components/JudgeReviewPanel.tsx:188`) is not modelled. `severityColors` has only upper-case keys, so on a lower-case severity the lookup is `undefined` and the render throws. The folder lists the model computes are what the component derives before that point.
- ContestsLib.CardOf and ContestsLib.DetailOf use the corrected `LogoFromTitle` and `MapContestStatus`, so they differ from the source on a title `"Foo "` (the source's logo is `"FUNDEFINED"`), on a title `" "` (both source transforms throw) and on a status `"constructor"` (the source's status is the inherited `Object` function). `CardOfAsWritten` models the card as written. The detail as written calls the same two helpers and differs on the same inputs; it has no separate member.
- Logging through `console.warn` and `console.error` (for example `src/lib/api/user-storage.ts:37` and `:51`, and the save handlers of the account page) is not modelled: it changes no state the model keeps.
- `UserIssue` lacks the `id`, `submittedBy` and `anonymousId` fields `FindingsList.tsx` reads, so the model uses a record with those fields. Its other display fields are not modelled.
- `participantCount || 0` is modelled with the count as an optional integer, so a count of 0 and a missing count agree.
- The `Account.tsx` effect that refills the inputs when the user changes is modelled as building a new form for that user.
- The storage-write failures of the findings and judge-review stores are not modelled: their writes always succeed.
- Sorting.SortByKey: states order and permutation but not stability; the insertion sort is stable, as `Array.prototype.sort` is.
- ContestsLib.LogoFromTitle: its contract gives the length bound and the upper case only; the word cases are the lemmas `LogoOfTwoWords`, `LogoOfOneWord`, `LogoOfTrailingSpace` and `LogoOfSingleSpace`.
- ContestsLib.ContestType: without tags its contract only says the type is not empty; `ContestTypeFromDescription` gives the first-word rule.

## Findings

| source | as written | input that shows it | evidently intended | confidence | as-written member | corrected member |
|---|---|---|---|---|---|---|
| src/lib/api/user-storage.ts:39 | The handler of `loadUserFromStorage` calls `removeItem` unguarded, so when storage itself throws the load throws too | Storage that throws on every access (blocked storage) | The load returns `null` and never throws, like `save` and `clear` | not executed | UserStorage.LoadAsWrittenThrowsWhenBlocked | UserStorage.LoadNeverThrows |
| src/lib/contests.ts:29-30 | `words[1][0]` is `undefined` when the second word is empty | `"Foo "` gives `"FUNDEFINED"`, and `" "` throws a `TypeError` (`NaN` has no `toUpperCase`) | An empty word contributes no letter: `"F"` and `""` | not executed | ContestsLib.LogoOfTrailingSpace | ContestsLib.LogoFromTitle |
| src/components/FindingsList.tsx:28-46 | The initial expanded set and `severityOrder` are keyed by the upper-case enum names, while a finding's severity is lower-case; each comparison is NaN | One finding of severity `"low"` then one of `"high"`: the computed folders are both collapsed, with `low` first; the render then throws at line 120, because `severityColors` has no lower-case key | Every folder starts expanded, ordered high, medium, low | not executed | FindingsList.FirstRender | FindingsList.IntendedFirstRender |
| src/components/JudgeReviewPanel.tsx:56-58 | `severityOrder` is keyed by the upper-case names, while the panel's severities are lower-case, so each comparison is NaN | Findings of severity `"low"` then `"critical"`: `low` comes first in the computed order; the render then throws at line 188, because `severityColors` has no lower-case key | Folders ordered from critical to informational | not executed | JudgeReviewPanel.AsWrittenPanelOrder | JudgeReviewPanel.IntendedPanelOrder |
| src/lib/contests.ts:55 | `statusMap[status]` also finds the members an object literal inherits | Status `"constructor"` yields the `Object` function instead of a status | Any status outside the map shows as `UPCOMING` | not executed | ContestsLib.InheritedStatusIsNoStatus | ContestsLib.MapContestStatus |
