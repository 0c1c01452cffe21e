# Locale routing and the auth session of the booztfrog.com front end

This project models and proves properties of the logic the Next.js front end
runs around signing in and out:

- **The route guard** (`frontend/middleware.ts`).
  - It strips a leading `/en` or `/nb` from the pathname.
  - It classifies what remains as protected (`/dashboard…`), as an auth page (`/login`, `/register`, `/forgot-password`), or as neither.
  - It then redirects to the login page, redirects to the dashboard, or lets the request through, depending on whether the `auth_token` cookie holds a non-empty value.
- **The HTTP client wrapper** (`frontend/lib/api.ts`).
  - The request interceptor reads the session token out of `document.cookie`. It sets `Authorization: Bearer <token>` (section 2.1 of RFC 6750) and sets `Accept-Language` from the locale prefix of the page.
  - `handleApiError` turns every failure into an `ApiError`.
  - The endpoint functions unwrap the `{data: …}` envelope.
- **The session hook** (`frontend/hooks/useAuth.ts`).
  - It builds the cookie strings written by `setAuthCookie` and `removeAuthCookie`.
  - It defines the `onSuccess` steps of login, register and logout, as a `Session` class over the cookie store, the query cache and the ordered record of effects.
  - It derives `user` and `isAuthenticated`.
- **Three UI helpers.**
  - The dashboard sidebar's links and its active-link rule.
  - The topbar's avatar initials.
  - The language switcher's rewriting of the first path segment.

The browser's cookie store is modelled too, because the round trip runs through it. The model covers how an assignment to `document.cookie` stores, replaces or deletes a cookie (after sections 5.2 and 5.3 of RFC 6265, without the trimming of whitespace around the name and the value), and how reading it lists the `name=value` pairs. This is what links the cookie writer in the hook with the token reader in the interceptor and with the route guard's cookie lookup.

Files, one module each:

- `wrappers.dfy`: `Option` and `Result`.
- `text.dfy`: JavaScript `split`, `join`, `startsWith`, `slice` and ASCII case mapping.
- `routing.dfy`: the locales of `frontend/i18n/routing.ts` and the `^\/(en|nb)` match.
- `api_types.dfy`: the records of `frontend/types/api.ts`.
- `middleware.dfy`.
- `cookie_jar.dfy`: the browser's cookie store.
- `api.dfy`.
- `session_cookie.dfy`: the two cookie strings.
- `use_auth.dfy`.
- `sidebar.dfy`.
- `topbar.dfy`.
- `language_switcher.dfy`.

Logout cleans up only in the logout mutation's `onSuccess` (`frontend/hooks/useAuth.ts`, lines 54-58). A failed logout call is therefore rethrown and leaves the cookie, the cache and the effects untouched (`UseAuth.Session.Logout`).

Some behaviour of the code as written is surprising. Each item below is proved, not hidden:

- The locale prefix is matched with no segment boundary: `/nbx/dashboard` is read as locale `nb` with rest `x/dashboard`.
- `startsWith` makes `/en/dashboardfoo` protected and `/nb/login-help` an auth page.
- The interceptor cuts the token at its first `=`, while the route guard reads the whole value: a token with `=` (base64 padding, say) opens the dashboard but is sent cut.
- An empty name gives empty initials, not `U`.

## Model

| member | source | states |
|---|---|---|
| Routing.LocaleOf | frontend/middleware.ts:23 | the matched locale is exactly the one whose `/<code>` starts the pathname, with no segment boundary required |
| Routing.LocaleOrDefault | frontend/middleware.ts:23 | `en` when no locale prefix matches, otherwise a locale whose `/<code>` starts the pathname |
| Routing.LocaleOfCodePrefix | frontend/middleware.ts:23-24 | every path built as `/<code>` + anything is attributed to that locale |
| Middleware.StripLocale | frontend/middleware.ts:13 | a matched `/en` or `/nb` prefix followed by the result gives back the pathname; an unmatched pathname is returned unchanged |
| Middleware.StrippedStartsWith | frontend/middleware.ts:13-18 | a page path not beginning like a locale code starts the stripped pathname iff it starts the pathname directly or after `/en` or `/nb` |
| Middleware.IsProtectedRoute | frontend/middleware.ts:15 | a pathname is protected iff it starts with `/dashboard`, `/en/dashboard` or `/nb/dashboard` |
| Middleware.IsAuthPage | frontend/middleware.ts:16-18 | a pathname is an auth page iff one of `/login`, `/register`, `/forgot-password` starts it, directly or after `/en` or `/nb` |
| Middleware.Decide | frontend/middleware.ts:10-37 | every redirect goes to a path of the pathname's locale, which is `en` when the pathname has no prefix |
| Middleware.ProtectedExcludesAuthPage | frontend/middleware.ts:7-18 | no pathname is both protected and an auth page |
| Middleware.LoginRedirectIff | frontend/middleware.ts:20-27 | the guard redirects to `/<locale>/login` with `redirect` = the unstripped pathname iff the path is protected and the token is absent or empty |
| Middleware.DashboardRedirectIff | frontend/middleware.ts:29-34 | the guard redirects to `/<locale>/dashboard` with no parameter iff the path is an auth page and the token is non-empty |
| Middleware.PassThroughIff | frontend/middleware.ts:22-36 | the request passes through iff neither redirect condition holds |
| Middleware.NeutralPathPasses | frontend/middleware.ts:15-36 | a path that is neither protected nor an auth page passes whatever the cookie holds |
| Middleware.ChecksCommute | frontend/middleware.ts:22-34 | testing the auth-page rule first gives the same decision, so the order of the two checks does not matter |
| Middleware.NoRedirectLoop | frontend/middleware.ts:22-36 | the target of any redirect passes through under the same token |
| Middleware.StripWithoutBoundary | frontend/middleware.ts:13 | `/nbx/dashboard` strips to `x/dashboard` and is not protected |
| Middleware.StripOnce | frontend/middleware.ts:13 | only one prefix is stripped: `/en/en/dashboard` becomes `/en/dashboard` and is not protected |
| Middleware.PrefixWithoutBoundary | frontend/middleware.ts:15-18 | `/en/dashboardfoo` is protected and `/nb/login-help` is an auth page |
| Api.FindTokenRow | frontend/lib/api.ts:36 | the result is the first row starting with `auth_token=`; none when no row does |
| Api.ExtractToken | frontend/lib/api.ts:34-37 | no token when no row matches; otherwise the rest of the first matching row after `auth_token=`, cut before its next `=` |
| Api.Authorization | frontend/lib/api.ts:38-40 | a header is set iff the token is present and non-empty, and then it is exactly `Bearer <token>` |
| Api.AcceptLanguage | frontend/lib/api.ts:42-44 | the value is `en` or `nb`: the pathname's locale prefix, or `en` when it has none |
| Api.Intercept | frontend/lib/api.ts:32-47 | outside a browser the headers are unchanged; in one, `Authorization` is set when there is a token, then `Accept-Language`, and no other header changes; the same config is returned |
| Api.TokenFromJar | frontend/lib/api.ts:34-37 | from a well-formed cookie store the interceptor reads nothing iff no `auth_token` cookie is stored, and otherwise that cookie's value cut at its first `=` |
| Api.RowStartsWithTokenPrefix | frontend/lib/api.ts:36 | a stored cookie's row starts with `auth_token=` iff the cookie is named `auth_token` |
| Api.HandleApiError | frontend/lib/api.ts:49-58 | with a server response: the server's message or `An error occurred`, and its field errors as they came; otherwise exactly `Network error. Please try again.` with no field errors |
| Api.FieldErrorsOnlyFromServer | frontend/lib/api.ts:50-57 | field errors are only ever reported from a server response |
| Api.Unwrap | frontend/lib/api.ts:61-72 | success iff the call resolved, and then the envelope's `data`; otherwise the normalised error |
| Api.UnwrapPage | frontend/lib/api.ts:119-127 | success iff the call resolved, and then the page's items; otherwise the normalised error |
| Api.Settle | frontend/lib/api.ts:87-93 | success iff the call resolved; otherwise the normalised error |
| CookieJar.ParseSetCookie | frontend/hooks/useAuth.ts:14 | a parsed cookie always has a storable name and value |
| CookieJar.ParseNamed | frontend/hooks/useAuth.ts:14 | a string beginning `name=`, for a name without `;` or `=`, is read as a cookie of that name whatever follows |
| CookieJar.ParseFromPieces | frontend/hooks/useAuth.ts:14 | a cookie string whose first `;`-piece is `name=value` is read as that name, that value and the later pieces trimmed |
| CookieJar.StoreWellFormed | frontend/hooks/useAuth.ts:13-19 | assigning any string to `document.cookie` keeps the store well formed (storable cookies, one per name) |
| CookieJar.StoreLookup | frontend/hooks/useAuth.ts:13-19 | an assignment changes only its own cookie: the cookie is deleted when its Max-Age is zero or less, and given the new value otherwise |
| CookieJar.MaxAgeAttribute | frontend/hooks/useAuth.ts:14-18 | `name=value` counts as Max-Age iff the name is `max-age` in any case and the value is a valid delta |
| CookieJar.LastMaxAgeAppend | frontend/hooks/useAuth.ts:14-18 | the last valid Max-Age attribute is the one that counts |
| SessionCookie.ThirtyDaysDecimal | frontend/hooks/useAuth.ts:14 | `60 * 60 * 24 * 30` renders as `2592000` |
| SessionCookie.AuthCookie | frontend/hooks/useAuth.ts:13-15 | the string `setAuthCookie(t)` writes begins with `auth_token=` followed by the token |
| SessionCookie.AuthCookieNamed | frontend/hooks/useAuth.ts:13-15 | for every token, the string is read as a cookie named `auth_token` |
| SessionCookie.AuthCookieText | frontend/hooks/useAuth.ts:13-15 | `setAuthCookie(t)` writes exactly `auth_token=<t>; path=/; max-age=2592000; SameSite=Lax` |
| SessionCookie.AuthCookieJoined | frontend/hooks/useAuth.ts:14 | that string is its four `;`-pieces joined |
| SessionCookie.AuthCookieParses | frontend/hooks/useAuth.ts:13-15 | for a token with no `;`, the string is read as cookie `auth_token` with value `t` and the three attributes, and does not expire at once |
| SessionCookie.AuthCookieLifetime | frontend/hooks/useAuth.ts:14 | its Max-Age is `2592000`, which does not expire the cookie |
| SessionCookie.ZeroMaxAgeCookieParses | frontend/hooks/useAuth.ts:18 | an `auth_token` string with `path=/; max-age=0` is read as that cookie with the two attributes |
| SessionCookie.ExpiredAuthCookieLifetime | frontend/hooks/useAuth.ts:17-19 | the attributes `removeAuthCookie` writes expire the cookie at once |
| SessionCookie.ExpiredAuthCookieTrimmed | frontend/hooks/useAuth.ts:18 | those attributes are read without their leading spaces |
| UseAuth.ExpiredAuthCookieParses | frontend/hooks/useAuth.ts:17-19 | `removeAuthCookie()` is read as cookie `auth_token` with an empty value and `max-age=0` |
| UseAuth.StoreThenLookup | frontend/middleware.ts:20 | after any `auth_token` cookie string is assigned, the guard reads its value, whatever it holds, or nothing when it expires at once |
| UseAuth.StoreThenRead | frontend/lib/api.ts:34-37 | after the same assignment the interceptor reads nothing when it expires at once, otherwise the value cut at its first `=`, which is the whole value when it has no `=` |
| UseAuth.SetCookieThenRead | frontend/hooks/useAuth.ts:13-15 | after `setAuthCookie(t)` with no `;` in `t`, the guard reads exactly `t` and the interceptor `t` cut at its first `=`, so exactly `t` when it has no `=` |
| UseAuth.RemoveCookieThenRead | frontend/hooks/useAuth.ts:17-19 | after `removeAuthCookie()`, neither the guard nor the interceptor finds a token |
| UseAuth.RemoveCookieDeletes | frontend/hooks/useAuth.ts:17-19 | storing the expired cookie string deletes exactly the `auth_token` cookie and keeps the rest of the store in order |
| UseAuth.OtherCookiesKept | frontend/hooks/useAuth.ts:13-19 | both cookie writes, for every token, leave every other cookie as it was |
| UseAuth.LoginOpensDashboard | frontend/middleware.ts:20-22 | once a non-empty token without `;` is written, `=` included, every protected path passes the guard |
| UseAuth.LogoutClosesDashboard | frontend/middleware.ts:20-27 | once the cookie is removed, every protected path redirects to its locale's login page with itself as `redirect` |
| UseAuth.View | frontend/hooks/useAuth.ts:62-64 | `user` is the query's data, or none; `isAuthenticated` holds iff there is a user and no query error |
| UseAuth.Session.WriteDocumentCookie | frontend/hooks/useAuth.ts:14 | the store becomes the old store with the string assigned and stays well formed; the cache is unchanged; the write is recorded |
| UseAuth.Session.SetQuery | frontend/hooks/useAuth.ts:40 | only that cache key changes; the write is recorded |
| UseAuth.Session.Clear | frontend/hooks/useAuth.ts:56 | the whole cache is emptied, not only the auth key |
| UseAuth.Session.Push | frontend/hooks/useAuth.ts:57 | the navigation is recorded and nothing else changes |
| UseAuth.Session.OnAuthSuccess | frontend/hooks/useAuth.ts:38-41 | the token's cookie is written, then `['auth','user']` is set to the user, in that order; for a token without `;` the guard then reads it and the interceptor reads it cut at its first `=`, the whole of it when it has no `=` |
| UseAuth.Session.Login | frontend/hooks/useAuth.ts:36-42 | the result is the unwrapped reply; on success the two steps above run and the session reports as authenticated; on failure nothing changes |
| UseAuth.Session.Register | frontend/hooks/useAuth.ts:44-50 | the same as login, for the register reply |
| UseAuth.Session.RemoveAuthCookie | frontend/hooks/useAuth.ts:17-19 | the `auth_token` cookie is deleted, the cache is unchanged, the write is recorded, and neither reader finds a token afterwards |
| UseAuth.Session.OnLogoutSuccess | frontend/hooks/useAuth.ts:54-58 | cookie removed, whole cache cleared, navigation to `/`, in that order; afterwards no token, no cached user |
| UseAuth.Session.Logout | frontend/hooks/useAuth.ts:52-59 | on success: cookie removed, whole cache cleared, navigation to `/`, in that order, with no token, no user and not authenticated afterwards; on failure nothing changes |
| Sidebar.Links | frontend/components/dashboard/sidebar.tsx:31-77 | there are exactly nine links, the first is the overview, and every href starts with `/<locale>/dashboard` |
| Sidebar.IsActive | frontend/components/dashboard/sidebar.tsx:79-84 | a link is active on its own page, and only on pages that start with its href |
| Sidebar.LinksAreProtected | frontend/components/dashboard/sidebar.tsx:31-77 | every sidebar link is a path the route guard protects |
| Sidebar.OnlyFirstIsOverview | frontend/components/dashboard/sidebar.tsx:31-77 | no link but the first has the overview's href |
| Sidebar.OverviewActiveIff | frontend/components/dashboard/sidebar.tsx:79-82 | the overview link is active iff the pathname is exactly `/<locale>/dashboard` |
| Sidebar.SectionActiveIff | frontend/components/dashboard/sidebar.tsx:79-84 | any other link is active iff the pathname starts with its href, with no `/` boundary needed |
| Sidebar.AtMostOneActive | frontend/components/dashboard/sidebar.tsx:31-84 | no pathname makes two links active |
| Sidebar.NoneActiveOutside | frontend/components/dashboard/sidebar.tsx:79-84 | a pathname not under `/<locale>/dashboard` activates no link, including one under the other locale |
| Topbar.SplitWordStarts | frontend/components/dashboard/topbar.tsx:28-30 | mapping the space-split words to their first characters yields exactly the word-initial characters; empty words contribute nothing |
| Topbar.InitialsAreWordStarts | frontend/components/dashboard/topbar.tsx:27-32 | the initials are the first two word-initial characters of the name, upper-cased |
| Topbar.Initials | frontend/components/dashboard/topbar.tsx:27-32 | the initials are at most two characters long, and `U` when there is no user |
| Topbar.EmptyNameNoInitials | frontend/components/dashboard/topbar.tsx:27-32 | no user gives `U`; an empty name gives the empty string |
| Topbar.OneWordOneInitial | frontend/components/dashboard/topbar.tsx:28-31 | a name without spaces gives exactly its first character, upper-cased |
| Topbar.TwoWords | frontend/components/dashboard/topbar.tsx:27-32 | two words separated by any run of spaces give both first characters, upper-cased |
| LanguageSwitcher.SetSecond | frontend/components/storefront/language-switcher.tsx:22 | the second element becomes the new value, every other element is kept, and a one-element array grows to two |
| LanguageSwitcher.HandleChange | frontend/components/storefront/language-switcher.tsx:20-24 | the path pushed is the pathname's `/`-segments joined with the second one replaced |
| LanguageSwitcher.SwitchedSegments | frontend/components/storefront/language-switcher.tsx:21-23 | the switched path splits into the old segments with only the first path segment replaced; with at least two segments the count is kept |
| LanguageSwitcher.SwitchToCurrent | frontend/components/storefront/language-switcher.tsx:21-23 | choosing the locale already in the first segment returns the path unchanged |
| LanguageSwitcher.LastSwitchWins | frontend/components/storefront/language-switcher.tsx:22 | of two switches in a row only the second counts |
| LanguageSwitcher.SwitchIdempotent | frontend/components/storefront/language-switcher.tsx:22 | switching twice to the same locale equals switching once |
| LanguageSwitcher.SwitchAndBack | frontend/components/storefront/language-switcher.tsx:22 | switching an `en` path to `nb` and back restores it |
| LanguageSwitcher.SwitchRoot | frontend/components/storefront/language-switcher.tsx:21-23 | `/` becomes `/<locale>` |
| LanguageSwitcher.SwitchedLocale | frontend/components/storefront/language-switcher.tsx:20-24 | a switched absolute path starts with `/<code>`, so the route guard and the interceptor attribute it to the chosen locale |
| LanguageSwitcher.Menu | frontend/components/storefront/language-switcher.tsx:33-41 | the menu offers exactly `en` then `nb` and marks exactly the locale in use |

## Left out

- Network transport is left out: the axios instance, base URL, HTTP round trips and the request payloads. A call is given by how it settled (`Api.Reply`), and `router.push` is recorded as an effect rather than performed.
- react-query internals are left out: `staleTime`, `retry`, `isLoading`, `isPending` and refetching. The cache is a plain map, and the query's data and error are parameters of `UseAuth.View`.
- Next.js plumbing is left out: `NextResponse`, `URL` construction, percent-encoding of the `redirect` parameter, `intlMiddleware` and the `matcher`. A redirect is the raw target path and parameter, and passing to `intlMiddleware` is `PassThrough`.
- Concurrency is left out. Interleaved login and logout calls are async scheduling, not part of this sequential model.
- The cookie store keeps only names and values. Domain, path scoping, expiry by the clock, `SameSite` and the cookie-size limits are not modelled. Attribute names other than Max-Age are not interpreted.
- CookieJar.ValidDelta: accepts a `-` followed by digits as a non-positive Max-Age, as section 5.2.2 of RFC 6265 does. Leading spaces of an attribute are trimmed, but spaces around `=` are not.
- Text.Upper: only ASCII letters are upper-cased. JavaScript's full Unicode `toUpperCase` is not modelled, and characters stand for UTF-16 code units.
- UseAuth.SetCookieThenRead: the round trip is proved only for tokens without `;`, because a `;` ends the cookie value early. The cookie's name is `auth_token` for every token (`SessionCookie.AuthCookieNamed`).
- CookieJar.ParseSetCookie: whitespace around the name and the value is not trimmed as step 4 of section 5.2 of RFC 6265 requires, so a token with leading or trailing spaces is read back with them, where a browser drops them.
- UseAuth.Session.GuardToken: the route guard's `request.cookies.get('auth_token')?.value` is taken to be the stored value verbatim. The request-cookie parser of Next.js is not part of this model.
- The presentational parts of the sidebar, topbar and language switcher are left out: labels, icons, translations, the mobile toggle and styling.
- `frontend/types/api.ts` is borrowed only as records (`ApiTypes`); it has no behaviour.
