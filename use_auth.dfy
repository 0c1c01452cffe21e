/** The session lifecycle of frontend/hooks/useAuth.ts: the cookie
    strings `setAuthCookie` and `removeAuthCookie` write, how the
    `onSuccess` handlers of login, register and logout change the cookie
    store and the query cache, and how `user` and `isAuthenticated` are
    derived from the current-user query. */
module UseAuth {
  import opened Wrappers
  import opened Text
  import opened ApiTypes
  import opened CookieJar
  import opened Api
  import opened SessionCookie
  import Routing
  import Middleware

  /** `removeAuthCookie()` is read as the `auth_token` cookie with an empty
      value and a Max-Age of zero. */
  lemma ExpiredAuthCookieParses()
    ensures ParseSetCookie(ExpiredAuthCookie) == Some(SetCookie(AuthCookieName, "", ["path=/", "max-age=0"]))
  {
    ExpiredAuthCookieText();
    ZeroMaxAgeCookieParses("", ExpiredAuthCookie);
  }

  /** What the route guard reads after a cookie string naming
      `auth_token` is assigned to `document.cookie`: the value as
      stored, whatever it holds. */
  lemma StoreThenLookup(jar: seq<Cookie>, s: string)
    requires ParseSetCookie(s).Some? && ParseSetCookie(s).value.name == AuthCookieName
    ensures var c := ParseSetCookie(s).value;
      Lookup(Store(jar, s), AuthCookieName) == (if ExpiresAtOnce(c.attributes) then None else Some(c.value))
  {
    StoreLookup(jar, s, AuthCookieName);
  }

  /** What the interceptor reads after the same assignment: nothing when
      the cookie expires at once, otherwise the value cut at its first
      `=`, which is the whole value when it has no `=`. */
  lemma StoreThenRead(jar: seq<Cookie>, s: string)
    requires WellFormed(jar)
    requires ParseSetCookie(s).Some? && ParseSetCookie(s).value.name == AuthCookieName
    ensures var c := ParseSetCookie(s).value;
      ExpiresAtOnce(c.attributes) ==> ExtractToken(DocumentCookie(Store(jar, s))) == None
    ensures var c := ParseSetCookie(s).value;
      !ExpiresAtOnce(c.attributes) ==>
        ExtractToken(DocumentCookie(Store(jar, s))).Some? &&
        CutAtFirst(c.value, '=', ExtractToken(DocumentCookie(Store(jar, s))).value)
    ensures var c := ParseSetCookie(s).value;
      !ExpiresAtOnce(c.attributes) && '=' !in c.value ==> ExtractToken(DocumentCookie(Store(jar, s))) == Some(c.value)
  {
    var c := ParseSetCookie(s).value;
    StoreThenLookup(jar, s);
    StoreWellFormed(jar, s);
    var after := Store(jar, s);
    TokenFromJar(after);
    if !ExpiresAtOnce(c.attributes) && '=' !in c.value {
      var read := ExtractToken(DocumentCookie(after)).value;
      assert CutAtFirst(c.value, '=', read);
      assert |read| == |c.value|;
      assert read == c.value[..|read|] == c.value;
    }
  }

  /** After `setAuthCookie(token)`, for a token without `;`, the route
      guard reads exactly the token and the interceptor the token cut at
      its first `=`: the whole token when it has no `=`. */
  lemma SetCookieThenRead(jar: seq<Cookie>, token: string)
    requires WellFormed(jar) && ';' !in token
    ensures Lookup(Store(jar, AuthCookie(token)), AuthCookieName) == Some(token)
    ensures ExtractToken(DocumentCookie(Store(jar, AuthCookie(token)))).Some?
    ensures CutAtFirst(token, '=', ExtractToken(DocumentCookie(Store(jar, AuthCookie(token)))).value)
    ensures '=' !in token ==> ExtractToken(DocumentCookie(Store(jar, AuthCookie(token)))) == Some(token)
  {
    AuthCookieParses(token);
    StoreThenLookup(jar, AuthCookie(token));
    StoreThenRead(jar, AuthCookie(token));
  }

  /** After `removeAuthCookie()` neither the interceptor nor the route
      guard finds a token. */
  lemma RemoveCookieThenRead(jar: seq<Cookie>)
    requires WellFormed(jar)
    ensures Lookup(Store(jar, ExpiredAuthCookie), AuthCookieName) == None
    ensures ExtractToken(DocumentCookie(Store(jar, ExpiredAuthCookie))) == None
  {
    ExpiredAuthCookieParses();
    ExpiredAuthCookieLifetime();
    StoreThenLookup(jar, ExpiredAuthCookie);
    StoreThenRead(jar, ExpiredAuthCookie);
  }

  /** `removeAuthCookie()` deletes the `auth_token` cookie and nothing
      else. */
  lemma RemoveCookieDeletes(jar: seq<Cookie>)
    ensures Store(jar, ExpiredAuthCookie) == Remove(jar, AuthCookieName)
  {
    ExpiredAuthCookieParses();
    ExpiredAuthCookieLifetime();
  }

  /** Writing the session cookie, whatever the token holds, and removing
      it leave every other cookie as it was. */
  lemma OtherCookiesKept(jar: seq<Cookie>, token: string, name: string)
    requires name != AuthCookieName
    ensures Lookup(Store(jar, AuthCookie(token)), name) == Lookup(jar, name)
    ensures Lookup(Store(jar, ExpiredAuthCookie), name) == Lookup(jar, name)
  {
    AuthCookieNamed(token);
    StoreLookup(jar, AuthCookie(token), name);
    ExpiredAuthCookieParses();
    StoreLookup(jar, ExpiredAuthCookie, name);
  }

  /** A session cookie written at login lets the route guard through to
      every protected page, whenever the token is not empty and has no
      `;`, even when it holds an `=` the interceptor would cut at. */
  lemma LoginOpensDashboard(jar: seq<Cookie>, token: string, pathname: string)
    requires ';' !in token && token != []
    requires Middleware.IsProtectedRoute(pathname)
    ensures Middleware.Decide(pathname, Lookup(Store(jar, AuthCookie(token)), AuthCookieName)) == Middleware.PassThrough
  {
    AuthCookieParses(token);
    StoreThenLookup(jar, AuthCookie(token));
    Middleware.ProtectedExcludesAuthPage(pathname);
    Middleware.PassThroughIff(pathname, Some(token));
  }

  /** After logout every protected page redirects to the login page of
      its locale, carrying the page as `redirect`. */
  lemma LogoutClosesDashboard(jar: seq<Cookie>, pathname: string)
    requires Middleware.IsProtectedRoute(pathname)
    ensures Middleware.Decide(pathname, Lookup(Store(jar, ExpiredAuthCookie), AuthCookieName)) ==
      Middleware.Redirect(Middleware.LoginPath(Routing.LocaleOrDefault(pathname)), Some(pathname))
  {
    ExpiredAuthCookieParses();
    ExpiredAuthCookieLifetime();
    StoreThenLookup(jar, ExpiredAuthCookie);
    Middleware.LoginRedirectIff(pathname, None);
  }

  /** A react-query key. */
  type QueryKey = seq<string>

  /** `['auth', 'user']`, the key of the current-user query. */
  const AuthUserKey: QueryKey := ["auth", "user"]

  /** A cached query result: the current user, or the data of any other
      query of the application. */
  datatype CacheValue = CachedUser(user: User) | CachedData(key: QueryKey)

  /** What a session handler does to the outside world, in order. */
  datatype Effect =
    | WriteCookie(cookie: string)
    | SetQueryData(key: QueryKey, value: CacheValue)
    | ClearCache
    | Navigate(path: string)

  /** What `useAuth` reports: `user ?? null` and `!!user && !error`. */
  datatype AuthView = AuthView(user: Option<User>, isAuthenticated: bool)

  /** `user` and `isAuthenticated` from the current-user query's data and
      error. */
  function View(data: Option<User>, error: Option<ApiError>): (v: AuthView)
    ensures v.user == data
    ensures v.isAuthenticated <==> data.Some? && error.None?
  {
    AuthView(data, data.Some? && error.None?)
  }

  /** The state `useAuth`'s handlers act on: the browser's cookie store,
      the react-query cache, and the record of effects in the order they
      happened. */
  class Session {
    var jar: seq<Cookie>
    var cache: map<QueryKey, CacheValue>
    var effects: seq<Effect>

    /** The cookie store holds only cookies a browser can keep, one per
        name. */
    ghost predicate Valid()
      reads this`jar
    {
      WellFormed(jar)
    }

    /** The token the request interceptor would send. */
    function Token(): Option<string>
      reads this`jar
    {
      ExtractToken(DocumentCookie(jar))
    }

    /** The token the route guard would see. */
    function GuardToken(): Option<string>
      reads this`jar
    {
      Lookup(jar, AuthCookieName)
    }

    /** The current-user query's cached data. */
    function CachedCurrentUser(): Option<User>
      reads this`cache
    {
      if AuthUserKey in cache && cache[AuthUserKey].CachedUser? then Some(cache[AuthUserKey].user) else None
    }

    /** What `useAuth` reports for this session, given the current-user
        query's error. */
    function Report(error: Option<ApiError>): AuthView
      reads this`cache
    {
      View(CachedCurrentUser(), error)
    }

    constructor(jar: seq<Cookie>, cache: map<QueryKey, CacheValue>)
      requires WellFormed(jar)
      ensures Valid()
      ensures this.jar == jar && this.cache == cache && effects == []
    {
      this.jar := jar;
      this.cache := cache;
      effects := [];
    }

    /** `document.cookie = cookie` */
    method WriteDocumentCookie(cookie: string)
      requires Valid()
      modifies this
      ensures Valid()
      ensures jar == Store(old(jar), cookie) && cache == old(cache)
      ensures effects == old(effects) + [WriteCookie(cookie)]
    {
      StoreWellFormed(jar, cookie);
      jar := Store(jar, cookie);
      effects := effects + [WriteCookie(cookie)];
    }

    /** `queryClient.setQueryData(key, value)` */
    method SetQuery(key: QueryKey, value: CacheValue)
      modifies this
      ensures jar == old(jar) && cache == old(cache)[key := value]
      ensures effects == old(effects) + [SetQueryData(key, value)]
    {
      cache := cache[key := value];
      effects := effects + [SetQueryData(key, value)];
    }

    /** `queryClient.clear()`: every query, not only the current user's. */
    method Clear()
      modifies this
      ensures jar == old(jar) && cache == map[]
      ensures effects == old(effects) + [ClearCache]
    {
      cache := map[];
      effects := effects + [ClearCache];
    }

    /** `router.push(path)` */
    method Push(path: string)
      modifies this
      ensures jar == old(jar) && cache == old(cache)
      ensures effects == old(effects) + [Navigate(path)]
    {
      effects := effects + [Navigate(path)];
    }

    /** The `onSuccess` handler shared by the login and register
        mutations: store the token, then cache the user. */
    method OnAuthSuccess(data: AuthPayload)
      requires Valid()
      modifies this
      ensures Valid()
      ensures jar == Store(old(jar), AuthCookie(data.token))
      ensures cache == old(cache)[AuthUserKey := CachedUser(data.user)]
      ensures effects == old(effects) + [WriteCookie(AuthCookie(data.token)), SetQueryData(AuthUserKey, CachedUser(data.user))]
      ensures ';' !in data.token ==> GuardToken() == Some(data.token)
      ensures ';' !in data.token ==> Token().Some? && CutAtFirst(data.token, '=', Token().value)
      ensures PlainToken(data.token) ==> Token() == Some(data.token)
      ensures CachedCurrentUser() == Some(data.user)
    {
      WriteDocumentCookie(AuthCookie(data.token));
      SetQuery(AuthUserKey, CachedUser(data.user));
      if ';' !in data.token {
        SetCookieThenRead(old(jar), data.token);
      }
    }

    /** `login(payload)` as the mutation runs it: the call's reply, then
        `onSuccess` only when it resolved; a failure is rethrown and
        changes nothing. */
    method Login(reply: Reply<Envelope<AuthPayload>>) returns (r: Result<AuthPayload, ApiError>)
      requires Valid()
      modifies this
      ensures Valid()
      ensures r == Unwrap(reply)
      ensures r.Ok? ==> jar == Store(old(jar), AuthCookie(r.value.token))
      ensures r.Ok? ==> cache == old(cache)[AuthUserKey := CachedUser(r.value.user)]
      ensures r.Ok? ==> effects == old(effects) + [WriteCookie(AuthCookie(r.value.token)), SetQueryData(AuthUserKey, CachedUser(r.value.user))]
      ensures r.Ok? && ';' !in r.value.token ==> GuardToken() == Some(r.value.token)
      ensures r.Ok? && PlainToken(r.value.token) ==> Token() == Some(r.value.token)
      ensures r.Ok? ==> CachedCurrentUser() == Some(r.value.user) && Report(None).isAuthenticated
      ensures r.Err? ==> jar == old(jar) && cache == old(cache) && effects == old(effects)
    {
      r := Unwrap(reply);
      if r.Ok? {
        OnAuthSuccess(r.value);
      }
    }

    /** `register(payload)`: the same two steps as login on success. */
    method Register(reply: Reply<Envelope<AuthPayload>>) returns (r: Result<AuthPayload, ApiError>)
      requires Valid()
      modifies this
      ensures Valid()
      ensures r == Unwrap(reply)
      ensures r.Ok? ==> jar == Store(old(jar), AuthCookie(r.value.token))
      ensures r.Ok? ==> cache == old(cache)[AuthUserKey := CachedUser(r.value.user)]
      ensures r.Ok? ==> effects == old(effects) + [WriteCookie(AuthCookie(r.value.token)), SetQueryData(AuthUserKey, CachedUser(r.value.user))]
      ensures r.Ok? && ';' !in r.value.token ==> GuardToken() == Some(r.value.token)
      ensures r.Ok? && PlainToken(r.value.token) ==> Token() == Some(r.value.token)
      ensures r.Ok? ==> CachedCurrentUser() == Some(r.value.user) && Report(None).isAuthenticated
      ensures r.Err? ==> jar == old(jar) && cache == old(cache) && effects == old(effects)
    {
      r := Unwrap(reply);
      if r.Ok? {
        OnAuthSuccess(r.value);
      }
    }

    /** `removeAuthCookie()`: afterwards neither the interceptor nor the
        route guard finds a token. */
    method RemoveAuthCookie()
      requires Valid()
      modifies this
      ensures Valid()
      ensures jar == Remove(old(jar), AuthCookieName) && cache == old(cache)
      ensures effects == old(effects) + [WriteCookie(ExpiredAuthCookie)]
      ensures Token() == None && GuardToken() == None
    {
      RemoveCookieThenRead(jar);
      RemoveCookieDeletes(jar);
      WriteDocumentCookie(ExpiredAuthCookie);
    }

    /** The `onSuccess` handler of the logout mutation: remove the cookie,
        clear the whole cache, go to `/`. */
    method OnLogoutSuccess()
      requires Valid()
      modifies this
      ensures Valid()
      ensures jar == Remove(old(jar), AuthCookieName) && cache == map[]
      ensures effects == old(effects) + [WriteCookie(ExpiredAuthCookie), ClearCache, Navigate("/")]
      ensures Token() == None && GuardToken() == None && CachedCurrentUser() == None
    {
      RemoveAuthCookie();
      Clear();
      Push("/");
    }

    /** `logout()` as the mutation runs it: on success the cookie is
        removed, the whole cache cleared and the browser sent to `/`; a
        failure is rethrown and changes nothing. */
    method Logout<B>(reply: Reply<B>) returns (r: Result<(), ApiError>)
      requires Valid()
      modifies this
      ensures Valid()
      ensures r == Settle(reply)
      ensures r.Ok? ==> jar == Remove(old(jar), AuthCookieName) && cache == map[]
      ensures r.Ok? ==> effects == old(effects) + [WriteCookie(ExpiredAuthCookie), ClearCache, Navigate("/")]
      ensures r.Ok? ==> Token() == None && GuardToken() == None && !Report(None).isAuthenticated
      ensures r.Err? ==> jar == old(jar) && cache == old(cache) && effects == old(effects)
    {
      r := Settle(reply);
      if r.Ok? {
        OnLogoutSuccess();
      }
    }
  }
}
