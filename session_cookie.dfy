/** The two strings frontend/hooks/useAuth.ts assigns to
    `document.cookie`: `setAuthCookie(token)` and `removeAuthCookie()`. */
module SessionCookie {
  import opened Wrappers
  import opened Text
  import opened CookieJar

  /** The cookie that carries the session token. */
  const AuthCookieName: string := "auth_token"

  /** `60 * 60 * 24 * 30`: thirty days, in seconds. */
  const ThirtyDays: nat := 60 * 60 * 24 * 30

  /** What `setAuthCookie(token)` assigns to `document.cookie`. */
  function AuthCookie(token: string): (s: string)
    ensures AuthCookieName + "=" + token <= s
  {
    "auth_token=" + token + "; path=/; max-age=" + Decimal(ThirtyDays) + "; SameSite=Lax"
  }

  /** What `removeAuthCookie()` assigns to `document.cookie`: an empty
      value that expires at once. */
  const ExpiredAuthCookie: string := "auth_token=; path=/; max-age=0"

  /** A token that survives the trip through the cookie unchanged: no `;`
      ends the cookie early and no `=` cuts the interceptor's reading. */
  predicate PlainToken(token: string)
  {
    ';' !in token && '=' !in token
  }

  /** The template literal renders the lifetime as `2592000`. */
  lemma ThirtyDaysDecimal()
    ensures Decimal(ThirtyDays) == "2592000"
  {
    assert Decimal(2) == "2";
    assert Decimal(25) == "25";
    assert Decimal(259) == "259";
    assert Decimal(2592) == "2592";
    assert Decimal(25920) == "25920";
    assert Decimal(259200) == "259200";
  }

  /** Whatever the token holds, `setAuthCookie(token)` writes a cookie
      named `auth_token` and no other. */
  lemma AuthCookieNamed(token: string)
    ensures ParseSetCookie(AuthCookie(token)).Some?
    ensures ParseSetCookie(AuthCookie(token)).value.name == AuthCookieName
  {
    ParseNamed(AuthCookie(token), AuthCookieName);
  }

  /** The string `setAuthCookie(token)` writes, as its `;`-pieces. */
  lemma AuthCookieJoined(token: string)
    ensures AuthCookie(token) == Join(["auth_token=" + token, " path=/", " max-age=2592000", " SameSite=Lax"], ";")
  {
    AuthCookieText(token);
    var parts := ["auth_token=" + token, " path=/", " max-age=2592000", " SameSite=Lax"];
    assert Join(parts[3..], ";") == parts[3];
    assert Join(parts[2..], ";") == parts[2] + ";" + parts[3];
    assert Join(parts[1..], ";") == parts[1] + ";" + (parts[2] + ";" + parts[3]);
    assert Join(parts, ";") == parts[0] + ";" + (parts[1] + ";" + (parts[2] + ";" + parts[3]));
  }

  /** The text `setAuthCookie(token)` writes. */
  lemma AuthCookieText(token: string)
    ensures AuthCookie(token) == "auth_token=" + token + "; path=/; max-age=2592000; SameSite=Lax"
  {
    ThirtyDaysDecimal();
  }

  /** The attributes `setAuthCookie` writes, with their leading spaces
      removed. */
  lemma AuthCookieAttributesTrimmed()
    ensures TrimEach([" path=/", " max-age=2592000", " SameSite=Lax"]) == ["path=/", "max-age=2592000", "SameSite=Lax"]
  {
    TrimOneSpace("path=/");
    TrimOneSpace("max-age=2592000");
    TrimOneSpace("SameSite=Lax");
    var pieces := [" path=/", " max-age=2592000", " SameSite=Lax"];
    assert TrimEach(pieces[2..]) == ["SameSite=Lax"];
    assert TrimEach(pieces[1..]) == ["max-age=2592000", "SameSite=Lax"];
  }

  /** `max-age` is already lower case. */
  lemma MaxAgeLower()
    ensures Lower("max-age") == "max-age"
  {
  }

  /** The attribute names the cookie strings use besides Max-Age. */
  lemma OtherAttributes()
    ensures MaxAgeValue("path=/") == None
    ensures MaxAgeValue("SameSite=Lax") == None
  {
    MaxAgeAttribute("path", "/");
    assert "path=/" == "path" + "=" + "/";
    MaxAgeAttribute("SameSite", "Lax");
    assert "SameSite=Lax" == "SameSite" + "=" + "Lax";
  }

  /** `max-age=<digits>` is read as that Max-Age. */
  lemma MaxAgeDigits(value: string)
    requires value != [] && AllDigits(value)
    ensures MaxAgeValue("max-age=" + value) == Some(value)
  {
    MaxAgeLower();
    MaxAgeAttribute("max-age", value);
    assert "max-age=" + value == "max-age" + "=" + value;
    assert '0' <= value[0] <= '9';
  }

  /** Of a path, a Max-Age and another attribute, the Max-Age counts. */
  lemma MiddleMaxAge(before: string, maxAge: string, after: string)
    requires MaxAgeValue(before) == None && MaxAgeValue(maxAge).Some? && MaxAgeValue(after) == None
    ensures LastMaxAge([before, maxAge, after]) == MaxAgeValue(maxAge)
  {
    LastMaxAgeAppend([before, maxAge], after);
    assert [before, maxAge] + [after] == [before, maxAge, after];
    LastMaxAgeAppend([before], maxAge);
    assert [before] + [maxAge] == [before, maxAge];
  }

  /** The thirty-day Max-Age attribute is read as such. */
  lemma ThirtyDayMaxAge()
    ensures MaxAgeValue("max-age=2592000") == Some("2592000")
    ensures !NonPositive("2592000")
  {
    MaxAgeDigits("2592000");
    assert "max-age=2592000" == "max-age=" + "2592000";
    assert "2592000"[0] == '2';
  }

  /** The attributes `setAuthCookie` writes keep the cookie for thirty days. */
  lemma AuthCookieLifetime()
    ensures LastMaxAge(["path=/", "max-age=2592000", "SameSite=Lax"]) == Some("2592000")
    ensures !ExpiresAtOnce(["path=/", "max-age=2592000", "SameSite=Lax"])
  {
    ThirtyDayMaxAge();
    OtherAttributes();
    MiddleMaxAge("path=/", "max-age=2592000", "SameSite=Lax");
  }

  /** `setAuthCookie(token)` writes exactly
      `auth_token=<token>; path=/; max-age=2592000; SameSite=Lax`, which
      the browser reads as the `auth_token` cookie with value `token`, kept
      for thirty days. */
  lemma AuthCookieParses(token: string)
    requires ';' !in token
    ensures AuthCookie(token) == "auth_token=" + token + "; path=/; max-age=2592000; SameSite=Lax"
    ensures ParseSetCookie(AuthCookie(token)) ==
      Some(SetCookie(AuthCookieName, token, ["path=/", "max-age=2592000", "SameSite=Lax"]))
    ensures !ExpiresAtOnce(["path=/", "max-age=2592000", "SameSite=Lax"])
  {
    var pieces := ["auth_token=" + token, " path=/", " max-age=2592000", " SameSite=Lax"];
    AuthCookieText(token);
    AuthCookieJoined(token);
    JoinThenSplit(pieces, ";");
    assert pieces[0] == "auth_token" + "=" + token;
    ParseFromPieces(AuthCookie(token), "auth_token", token, pieces[1..]);
    AuthCookieAttributesTrimmed();
    AuthCookieLifetime();
  }

  /** An `auth_token` cookie string with a Max-Age of zero is read as that
      name and value with the two attributes. */
  lemma ZeroMaxAgeCookieParses(value: string, s: string)
    requires ';' !in value
    requires s == "auth_token=" + value + "; path=/; max-age=0"
    ensures ParseSetCookie(s) == Some(SetCookie(AuthCookieName, value, ["path=/", "max-age=0"]))
  {
    var pieces := ["auth_token=" + value, " path=/", " max-age=0"];
    assert Join(pieces[2..], ";") == pieces[2];
    assert Join(pieces[1..], ";") == pieces[1] + ";" + pieces[2];
    assert Join(pieces, ";") == "auth_token=" + value + "; path=/; max-age=0";
    JoinThenSplit(pieces, ";");
    assert pieces[0] == "auth_token" + "=" + value;
    ParseFromPieces(s, "auth_token", value, pieces[1..]);
    ExpiredAuthCookieTrimmed();
  }

  /** The text `removeAuthCookie()` writes, with its empty value made
      explicit. */
  lemma ExpiredAuthCookieText()
    ensures ExpiredAuthCookie == "auth_token=" + "" + "; path=/; max-age=0"
  {
  }

  /** The zero Max-Age attribute is read as such. */
  lemma ZeroMaxAge()
    ensures MaxAgeValue("max-age=0") == Some("0")
    ensures NonPositive("0")
  {
    assert AllDigits("0");
    MaxAgeDigits("0");
    assert "max-age=0" == "max-age=" + "0";
  }

  /** Of a path and a Max-Age, the Max-Age counts. */
  lemma LastIsMaxAge(before: string, maxAge: string)
    requires MaxAgeValue(before) == None && MaxAgeValue(maxAge).Some?
    ensures LastMaxAge([before, maxAge]) == MaxAgeValue(maxAge)
  {
    LastMaxAgeAppend([before], maxAge);
    assert [before] + [maxAge] == [before, maxAge];
  }

  /** The attributes `removeAuthCookie` writes expire the cookie at once. */
  lemma ExpiredAuthCookieLifetime()
    ensures ExpiresAtOnce(["path=/", "max-age=0"])
  {
    ZeroMaxAge();
    OtherAttributes();
    LastIsMaxAge("path=/", "max-age=0");
  }

  /** The attributes `removeAuthCookie` writes, with their leading spaces
      removed. */
  lemma ExpiredAuthCookieTrimmed()
    ensures TrimEach([" path=/", " max-age=0"]) == ["path=/", "max-age=0"]
  {
    TrimOneSpace("path=/");
    TrimOneSpace("max-age=0");
    assert TrimEach([" path=/", " max-age=0"][1..]) == ["max-age=0"];
  }
}
