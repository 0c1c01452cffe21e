/** The route guard of frontend/middleware.ts: for each navigation it
    decides, from the pathname and the `auth_token` cookie, whether to
    redirect to the login page, to the dashboard, or to let the request
    through to locale routing. */
module Middleware {
  import opened Wrappers
  import opened Routing

  /** `AUTH_PAGES` */
  const AuthPages: seq<string> := ["/login", "/register", "/forgot-password"]

  /** `PROTECTED_PREFIX` */
  const ProtectedPrefix: string := "/dashboard"

  /** What the guard does with a request. A redirect carries the target
      path and the value of its `redirect` query parameter, if any. */
  datatype Decision =
    | Redirect(location: string, redirectParam: Option<string>)
    | PassThrough

  /** `pathname.replace(/^\/(en|nb)/, '')`: a leading `/en` or `/nb` is
      removed once, whatever follows it. */
  function StripLocale(pathname: string): (rest: string)
    ensures LocaleOf(pathname).Some? ==> "/" + Code(LocaleOf(pathname).value) + rest == pathname
    ensures LocaleOf(pathname).None? ==> rest == pathname
  {
    if LocaleOf(pathname).Some? then pathname[3..] else pathname
  }

  /** A page path that does not itself begin like a locale code starts the
      stripped pathname exactly when it starts the pathname, directly or
      after `/en` or `/nb`. */
  lemma StrippedStartsWith(pathname: string, page: string)
    requires |page| >= 2 && page[0] == '/' && page[1] != 'e' && page[1] != 'n'
    ensures page <= StripLocale(pathname) <==>
      page <= pathname || "/" + Code(En) + page <= pathname || "/" + Code(Nb) + page <= pathname
  {
    var en := "/" + Code(En);
    var nb := "/" + Code(Nb);
    assert (en + page)[..3] == en && (nb + page)[..3] == nb;
    if LocaleOf(pathname).Some? {
      var l := LocaleOf(pathname).value;
      var other := if l == En then nb else en;
      assert pathname[1] == Code(l)[0];
      assert other[1] != Code(l)[0];
      assert ("/" + Code(l) + page)[3..] == page;
    }
  }

  /** `pathnameWithoutLocale.startsWith(PROTECTED_PREFIX)`: the pathname
      starts with `/dashboard`, `/en/dashboard` or `/nb/dashboard`. */
  function IsProtectedRoute(pathname: string): (b: bool)
    ensures b <==> ProtectedPrefix <= pathname || DashboardPath(En) <= pathname || DashboardPath(Nb) <= pathname
  {
    StrippedStartsWith(pathname, ProtectedPrefix);
    ProtectedPrefix <= StripLocale(pathname)
  }

  /** `AUTH_PAGES.some((page) => pathnameWithoutLocale.startsWith(page))`:
      some auth page starts the pathname, directly or after `/en` or
      `/nb`. */
  function IsAuthPage(pathname: string): (b: bool)
    ensures b <==>
      exists i :: 0 <= i < |AuthPages| &&
        (AuthPages[i] <= pathname || "/" + Code(En) + AuthPages[i] <= pathname || "/" + Code(Nb) + AuthPages[i] <= pathname)
  {
    StrippedStartsWith(pathname, AuthPages[0]);
    StrippedStartsWith(pathname, AuthPages[1]);
    StrippedStartsWith(pathname, AuthPages[2]);
    exists i :: 0 <= i < |AuthPages| && AuthPages[i] <= StripLocale(pathname)
  }

  /** `token` is truthy: the cookie is present and not empty. */
  predicate HasToken(token: Option<string>)
  {
    token.Some? && token.value != []
  }

  /** `/<locale>/login` */
  function LoginPath(l: Locale): string
  {
    "/" + Code(l) + "/login"
  }

  /** `/<locale>/dashboard` */
  function DashboardPath(l: Locale): string
  {
    "/" + Code(l) + ProtectedPrefix
  }

  /** `middleware(request)`, for the request's pathname and the value of
      its `auth_token` cookie. */
  function Decide(pathname: string, token: Option<string>): (d: Decision)
    ensures d.Redirect? ==> LocaleOf(d.location) == Some(LocaleOrDefault(pathname))
    ensures d.Redirect? && LocaleOf(pathname).None? ==> LocaleOf(d.location) == Some(En)
  {
    var locale := LocaleOrDefault(pathname);
    if IsProtectedRoute(pathname) && !HasToken(token) then
      LocaleOfCodePrefix(locale, "/login");
      Redirect(LoginPath(locale), Some(pathname))
    else if IsAuthPage(pathname) && HasToken(token) then
      LocaleOfCodePrefix(locale, ProtectedPrefix);
      Redirect(DashboardPath(locale), None)
    else
      PassThrough
  }

  /** No path is both protected and an auth page. */
  lemma ProtectedExcludesAuthPage(pathname: string)
    ensures !(IsProtectedRoute(pathname) && IsAuthPage(pathname))
  {
    var rest := StripLocale(pathname);
    if IsProtectedRoute(pathname) {
      forall i | 0 <= i < |AuthPages| ensures !(AuthPages[i] <= rest) {
        assert rest[1] == 'd';
        assert AuthPages[i][1] != 'd';
      }
    }
  }

  /** A protected path without a usable token is sent to the login page of
      its locale, with the full original pathname as `redirect`; and that
      is the only way to reach that redirect. */
  lemma LoginRedirectIff(pathname: string, token: Option<string>)
    ensures Decide(pathname, token) == Redirect(LoginPath(LocaleOrDefault(pathname)), Some(pathname))
        <==> IsProtectedRoute(pathname) && !HasToken(token)
  {
  }

  /** An auth page requested with a token is sent to the dashboard of its
      locale; and that is the only way to reach that redirect. */
  lemma DashboardRedirectIff(pathname: string, token: Option<string>)
    ensures Decide(pathname, token) == Redirect(DashboardPath(LocaleOrDefault(pathname)), None)
        <==> IsAuthPage(pathname) && HasToken(token)
  {
    ProtectedExcludesAuthPage(pathname);
  }

  /** Every other request passes through unchanged. */
  lemma PassThroughIff(pathname: string, token: Option<string>)
    ensures Decide(pathname, token) == PassThrough
        <==> !(IsProtectedRoute(pathname) && !HasToken(token)) && !(IsAuthPage(pathname) && HasToken(token))
  {
  }

  /** A path that is neither protected nor an auth page passes through
      whatever the cookie holds. */
  lemma NeutralPathPasses(pathname: string, token: Option<string>)
    requires !IsProtectedRoute(pathname) && !IsAuthPage(pathname)
    ensures Decide(pathname, token) == PassThrough
  {
  }

  /** The guard with its two checks in the opposite order. */
  function DecideAuthPageFirst(pathname: string, token: Option<string>): Decision
  {
    var locale := LocaleOrDefault(pathname);
    if IsAuthPage(pathname) && HasToken(token) then
      Redirect(DashboardPath(locale), None)
    else if IsProtectedRoute(pathname) && !HasToken(token) then
      Redirect(LoginPath(locale), Some(pathname))
    else
      PassThrough
  }

  /** The order of the two checks does not matter: their conditions never
      hold together. */
  lemma ChecksCommute(pathname: string, token: Option<string>)
    ensures Decide(pathname, token) == DecideAuthPageFirst(pathname, token)
  {
    ProtectedExcludesAuthPage(pathname);
  }

  /** Following a redirect with the same cookie never redirects again. */
  lemma NoRedirectLoop(pathname: string, token: Option<string>)
    ensures Decide(pathname, token).Redirect? ==> Decide(Decide(pathname, token).location, token) == PassThrough
  {
    var d := Decide(pathname, token);
    if d.Redirect? {
      var l := LocaleOrDefault(pathname);
      var loc := d.location;
      var rest := StripLocale(loc);
      assert LocaleOf(loc) == Some(l);
      assert "/" + Code(l) + rest == loc;
      assert |Code(l)| == 2;
      if IsProtectedRoute(pathname) && !HasToken(token) {
        assert loc == "/" + Code(l) + "/login";
        assert rest == "/login";
        assert !IsProtectedRoute(loc);
      } else {
        assert loc == "/" + Code(l) + "/dashboard";
        assert rest == "/dashboard";
        ProtectedExcludesAuthPage(loc);
      }
    }
  }

  /** The locale code is matched without a segment boundary: `/nbx/...` is
      read as locale `nb` and stripped to `x/...`. */
  lemma StripWithoutBoundary()
    ensures StripLocale("/nbx/dashboard") == "x/dashboard"
    ensures !IsProtectedRoute("/nbx/dashboard")
  {
    assert "/nbx/dashboard" == "/" + Code(Nb) + "x/dashboard";
    LocaleOfCodePrefix(Nb, "x/dashboard");
    assert StripLocale("/nbx/dashboard")[0] == 'x';
  }

  /** The locale is stripped once only: `/en/en/dashboard` is not protected. */
  lemma StripOnce()
    ensures StripLocale("/en/en/dashboard") == "/en/dashboard"
    ensures !IsProtectedRoute("/en/en/dashboard")
  {
    assert "/en/en/dashboard" == "/" + Code(En) + "/en/dashboard";
    LocaleOfCodePrefix(En, "/en/dashboard");
    assert StripLocale("/en/en/dashboard")[1] == 'e';
  }

  /** Prefixes match without a segment boundary: `/en/dashboardfoo` is
      protected and `/nb/login-help` is an auth page. */
  lemma PrefixWithoutBoundary()
    ensures IsProtectedRoute("/en/dashboardfoo")
    ensures IsAuthPage("/nb/login-help")
  {
    assert DashboardPath(En) == "/en/dashboard";
    assert DashboardPath(En) <= "/en/dashboardfoo";
    assert "/" + Code(Nb) + AuthPages[0] == "/nb/login";
    assert "/" + Code(Nb) + AuthPages[0] <= "/nb/login-help";
  }
}
