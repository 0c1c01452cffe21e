/** The HTTP client wrapper of frontend/lib/api.ts: the request
    interceptor that attaches the bearer token (section 2.1 of RFC 6750)
    and the locale, the normalisation of every failure into an
    `ApiError`, and the unwrapping of the `{data: ...}` envelope. The
    network itself is not modelled: a call is given by how it settled. */
module Api {
  import opened Wrappers
  import opened Text
  import opened Routing
  import opened ApiTypes
  import opened CookieJar

  /** The row of `document.cookie` that carries the session token starts so. */
  const TokenRowPrefix: string := "auth_token="

  /** `document.cookie.split('; ')` */
  function CookieRows(cookie: string): seq<string>
  {
    Split(cookie, "; ")
  }

  /** `.find((row) => row.startsWith('auth_token='))`, as the row's position. */
  function FindTokenRow(rows: seq<string>): (r: Option<nat>)
    ensures r.Some? ==> r.value < |rows| && TokenRowPrefix <= rows[r.value]
    ensures r.Some? ==> forall j :: 0 <= j < r.value ==> !(TokenRowPrefix <= rows[j])
    ensures r.None? ==> forall j :: 0 <= j < |rows| ==> !(TokenRowPrefix <= rows[j])
    decreases |rows|
  {
    if rows == [] then None
    else if TokenRowPrefix <= rows[0] then Some(0)
    else match FindTokenRow(rows[1..])
      case None => None
      case Some(k) => Some(k + 1)
  }

  /** The interceptor's `token`: `?.split('=')[1]` of the first row that
      starts with `auth_token=`. It is the rest of that row cut at its
      next `=`. */
  function ExtractToken(cookie: string): (token: Option<string>)
    ensures FindTokenRow(CookieRows(cookie)).None? ==> token.None?
    ensures FindTokenRow(CookieRows(cookie)).Some? ==>
      var row := CookieRows(cookie)[FindTokenRow(CookieRows(cookie)).value];
      token.Some? && CutAtFirst(row[|TokenRowPrefix|..], '=', token.value)
  {
    var rows := CookieRows(cookie);
    match FindTokenRow(rows)
    case None => None
    case Some(i) =>
      var row := rows[i];
      var rest := row[|TokenRowPrefix|..];
      assert row == "auth_token" + "=" + rest;
      SplitAfter("auth_token", "=", rest);
      FirstPiece(rest, '=');
      Some(Split(row, "=")[1])
  }

  /** The `Authorization` header the interceptor sets, if any: only for a
      non-empty token, and then exactly `Bearer <token>`. */
  function Authorization(cookie: string): (header: Option<string>)
    ensures header.Some? <==> ExtractToken(cookie).Some? && ExtractToken(cookie).value != []
    ensures header.Some? ==> header.value == "Bearer " + ExtractToken(cookie).value
  {
    var token := ExtractToken(cookie);
    if token.Some? && token.value != [] then Some("Bearer " + token.value) else None
  }

  /** The `Accept-Language` header: the locale the pathname starts with,
      else `en`. */
  function AcceptLanguage(pathname: string): (lang: string)
    ensures lang == "en" || lang == "nb"
    ensures LocaleOf(pathname).None? ==> lang == "en"
    ensures LocaleOf(pathname).Some? ==> "/" + lang <= pathname
  {
    Code(LocaleOrDefault(pathname))
  }

  /** The browser globals the interceptor reads: `document.cookie` and
      `window.location.pathname`. */
  datatype Window = Window(cookie: string, pathname: string)

  /** The request configuration axios hands to the interceptor. */
  class RequestConfig {
    var headers: map<string, string>

    constructor (headers: map<string, string>)
      ensures this.headers == headers
    {
      this.headers := headers;
    }
  }

  /** The request interceptor. Outside a browser (`window` undefined) the
      configuration is returned untouched; in a browser the token and the
      locale are written into its headers. */
  method Intercept(config: RequestConfig, window: Option<Window>) returns (r: RequestConfig)
    modifies config
    ensures r == config
    ensures window.None? ==> config.headers == old(config.headers)
    ensures window.Some? ==>
      var auth := Authorization(window.value.cookie);
      var withAuth := if auth.Some? then old(config.headers)["Authorization" := auth.value]
                      else old(config.headers);
      config.headers == withAuth["Accept-Language" := AcceptLanguage(window.value.pathname)]
  {
    if window.Some? {
      var auth := Authorization(window.value.cookie);
      if auth.Some? {
        config.headers := config.headers["Authorization" := auth.value];
      }
      config.headers := config.headers["Accept-Language" := AcceptLanguage(window.value.pathname)];
    }
    r := config;
  }

  /** The session token as the interceptor reads it from a well-formed
      cookie store: the stored `auth_token` value cut at its first `=`. */
  lemma TokenFromJar(jar: seq<Cookie>)
    requires WellFormed(jar)
    ensures Lookup(jar, "auth_token").None? ==> ExtractToken(DocumentCookie(jar)) == None
    ensures Lookup(jar, "auth_token").Some? ==>
      ExtractToken(DocumentCookie(jar)).Some? &&
      CutAtFirst(Lookup(jar, "auth_token").value, '=', ExtractToken(DocumentCookie(jar)).value)
  {
    var rows := Rows(jar);
    if jar == [] {
      assert DocumentCookie(jar) == [];
      assert CookieRows(DocumentCookie(jar)) == [[]];
    } else {
      forall i | 0 <= i < |rows| ensures ';' !in rows[i] {
        assert rows[i] == jar[i].name + "=" + jar[i].value;
      }
      JoinThenSplit(rows, "; ");
      assert CookieRows(DocumentCookie(jar)) == rows;
      forall i | 0 <= i < |rows| ensures TokenRowPrefix <= rows[i] <==> jar[i].name == "auth_token" {
        RowStartsWithTokenPrefix(jar[i]);
      }
      match IndexOf(jar, "auth_token")
      case None =>
      case Some(i) =>
        assert FindTokenRow(rows) == Some(i);
        assert rows[i][|TokenRowPrefix|..] == jar[i].value;
    }
  }

  /** A stored cookie's row starts with `auth_token=` exactly when the
      cookie is the `auth_token` cookie, because names hold no `=`. */
  lemma RowStartsWithTokenPrefix(c: Cookie)
    requires Storable(c)
    ensures TokenRowPrefix <= Row(c) <==> c.name == "auth_token"
  {
    var row := Row(c);
    if TokenRowPrefix <= row {
      var k := |c.name|;
      assert row[k] == '=' && row[10] == '=';
      assert c.name == row[..10] == TokenRowPrefix[..10];
    }
  }

  /** The body of an error response, `error.response.data`; either of its
      fields may be missing. */
  datatype ErrorBody = ErrorBody(message: Option<string>, errors: Option<FieldErrors>)

  /** The response attached to an axios error; its body may be missing. */
  datatype Response = Response(data: Option<ErrorBody>)

  /** What a failed call throws: an axios error, with the server's response
      when one arrived, or anything else. */
  datatype Thrown = AxiosFailure(response: Option<Response>) | OtherFailure

  const DefaultErrorMessage: string := "An error occurred"
  const NetworkErrorMessage: string := "Network error. Please try again."

  /** `handleApiError`: the `ApiError` it throws for what the call threw. */
  function HandleApiError(e: Thrown): (r: ApiError)
    ensures e.AxiosFailure? && e.response.Some? ==>
      && r.message == (if e.response.value.data.Some? && e.response.value.data.value.message.Some?
                       then e.response.value.data.value.message.value else DefaultErrorMessage)
      && r.errors == (if e.response.value.data.Some? then e.response.value.data.value.errors else None)
    ensures !(e.AxiosFailure? && e.response.Some?) ==> r == ApiError(NetworkErrorMessage, None)
  {
    match e
    case AxiosFailure(Some(response)) =>
      var body := response.data;
      ApiError(
        if body.Some? then body.value.message.GetOr(DefaultErrorMessage) else DefaultErrorMessage,
        if body.Some? then body.value.errors else None)
    case _ =>
      ApiError(NetworkErrorMessage, None)
  }

  /** Field errors reach the caller only from a server response. */
  lemma FieldErrorsOnlyFromServer(e: Thrown)
    ensures HandleApiError(e).errors.Some? ==> e.AxiosFailure? && e.response.Some?
  {
  }

  /** An axios request as it settled: the body of a 2xx response, or what
      was thrown. */
  datatype Reply<B> = Resolved(body: B) | Rejected(thrown: Thrown)

  /** `ApiResponse<T>` */
  datatype Envelope<T> = Envelope(data: T)

  /** The `meta` of a `PaginatedResponse<T>`. */
  datatype PageMeta = PageMeta(currentPage: int, lastPage: int, perPage: int, total: int)

  /** `PaginatedResponse<T>` */
  datatype Page<T> = Page(data: seq<T>, meta: PageMeta)

  /** An endpoint function returning `data.data` of an `ApiResponse<T>`
      (`login`, `register`, `forgotPassword`, `fetchCurrentUser`,
      `fetchProduct`, `fetchPricingPlans`, `fetchBusiness`,
      `createBusiness`, `updateBusiness`, `fetchAnalyticsOverview`,
      `fetchLandingPage`, `fetchOrder`). */
  function Unwrap<T>(reply: Reply<Envelope<T>>): (r: Result<T, ApiError>)
    ensures r.Ok? <==> reply.Resolved?
    ensures reply.Resolved? ==> r.value == reply.body.data
    ensures reply.Rejected? ==> r.error == HandleApiError(reply.thrown)
  {
    match reply
    case Resolved(body) => Ok(body.data)
    case Rejected(e) => Err(HandleApiError(e))
  }

  /** An endpoint function returning the items of a page (`fetchProducts`,
      `fetchBusinesses`, `fetchLocations`, `fetchPlatforms`,
      `fetchDevices`, `fetchOrders`); the page's `meta` is dropped. */
  function UnwrapPage<T>(reply: Reply<Page<T>>): (r: Result<seq<T>, ApiError>)
    ensures r.Ok? <==> reply.Resolved?
    ensures reply.Resolved? ==> r.value == reply.body.data
    ensures reply.Rejected? ==> r.error == HandleApiError(reply.thrown)
  {
    match reply
    case Resolved(page) => Ok(page.data)
    case Rejected(e) => Err(HandleApiError(e))
  }

  /** An endpoint function that returns nothing (`logout`,
      `deleteBusiness`): whatever body came back is ignored. */
  function Settle<B>(reply: Reply<B>): (r: Result<(), ApiError>)
    ensures r.Ok? <==> reply.Resolved?
    ensures reply.Rejected? ==> r.error == HandleApiError(reply.thrown)
  {
    match reply
    case Resolved(_) => Ok(())
    case Rejected(e) => Err(HandleApiError(e))
  }
}
