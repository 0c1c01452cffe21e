/** The browser's cookie store, as far as the session logic depends on it:
    an assignment to `document.cookie` stores, replaces or deletes one
    cookie (after sections 5.2 and 5.3 of RFC 6265, except that whitespace
    around the name and the value is kept), and reading `document.cookie`
    gives the stored `name=value` pairs joined by `"; "`. Domain, path,
    expiry by the clock and the other attributes are not modelled. */
module CookieJar {
  import opened Wrappers
  import opened Text

  datatype Cookie = Cookie(name: string, value: string)

  /** A stored cookie: a non-empty name with no `=` or `;`, a value with no `;`. */
  predicate Storable(c: Cookie)
  {
    c.name != [] && ';' !in c.name && '=' !in c.name && ';' !in c.value
  }

  /** A cookie store: storable cookies, at most one per name. */
  ghost predicate WellFormed(jar: seq<Cookie>)
  {
    && (forall i :: 0 <= i < |jar| ==> Storable(jar[i]))
    && (forall i, j :: 0 <= i < j < |jar| ==> jar[i].name != jar[j].name)
  }

  /** The position of the first cookie called `name`. */
  function IndexOf(jar: seq<Cookie>, name: string): (r: Option<nat>)
    ensures r.Some? ==> r.value < |jar| && jar[r.value].name == name
    ensures r.Some? ==> forall j :: 0 <= j < r.value ==> jar[j].name != name
    ensures r.None? ==> forall j :: 0 <= j < |jar| ==> jar[j].name != name
    decreases |jar|
  {
    if jar == [] then None
    else if jar[0].name == name then Some(0)
    else match IndexOf(jar[1..], name)
      case None => None
      case Some(k) => Some(k + 1)
  }

  /** The value of the cookie called `name`, if one is stored. */
  function Lookup(jar: seq<Cookie>, name: string): Option<string>
  {
    match IndexOf(jar, name)
    case None => None
    case Some(i) => Some(jar[i].value)
  }

  /** `c` stored in place of the cookie of the same name, or added last. */
  function Put(jar: seq<Cookie>, c: Cookie): seq<Cookie>
    decreases |jar|
  {
    if jar == [] then [c]
    else if jar[0].name == c.name then [c] + jar[1..]
    else [jar[0]] + Put(jar[1..], c)
  }

  /** The store without the cookies called `name`. */
  function Remove(jar: seq<Cookie>, name: string): seq<Cookie>
    decreases |jar|
  {
    if jar == [] then []
    else if jar[0].name == name then Remove(jar[1..], name)
    else [jar[0]] + Remove(jar[1..], name)
  }

  /** The names in the store. */
  ghost function Names(jar: seq<Cookie>): set<string>
  {
    set i | 0 <= i < |jar| :: jar[i].name
  }

  /** One `name=value` pair as `document.cookie` shows it. */
  function Row(c: Cookie): string
  {
    c.name + "=" + c.value
  }

  function Rows(jar: seq<Cookie>): seq<string>
  {
    seq(|jar|, i requires 0 <= i < |jar| => Row(jar[i]))
  }

  /** Reading `document.cookie`. */
  function DocumentCookie(jar: seq<Cookie>): string
  {
    Join(Rows(jar), "; ")
  }

  /** A set-cookie-string taken apart after section 5.2 of RFC 6265. */
  datatype SetCookie = SetCookie(name: string, value: string, attributes: seq<string>)

  /** The name-value pair is everything before the first `;`; the name is
      what precedes its first `=` and must not be empty, the value what
      follows, neither of them trimmed; each attribute is a later
      `;`-separated piece with its leading spaces removed. */
  function ParseSetCookie(s: string): (r: Option<SetCookie>)
    ensures r.Some? ==> Storable(Cookie(r.value.name, r.value.value))
  {
    var pieces := Split(s, ";");
    var pair := pieces[0];
    SplitPiecesAvoid(s, ';');
    if '=' !in pair then None
    else
      var name := Split(pair, "=")[0];
      FirstPiece(pair, '=');
      if name == [] then None
      else
        Some(SetCookie(name, pair[|name| + 1..], TrimEach(pieces[1..])))
  }

  /** Each attribute with its leading spaces removed. */
  function TrimEach(pieces: seq<string>): seq<string>
    decreases |pieces|
  {
    if pieces == [] then [] else [TrimStart(pieces[0])] + TrimEach(pieces[1..])
  }

  /** How a set-cookie-string whose first `;`-piece is `name=value` is read. */
  lemma ParseFromPieces(s: string, name: string, value: string, attributes: seq<string>)
    requires name != [] && '=' !in name
    requires Split(s, ";") == [name + "=" + value] + attributes
    ensures ParseSetCookie(s) == Some(SetCookie(name, value, TrimEach(attributes)))
  {
    var pair := name + "=" + value;
    assert pair[|name|] == '=';
    SplitAfter(name, "=", value);
    assert pair[|name| + 1..] == value;
    assert Split(s, ";")[1..] == attributes;
  }

  /** A string that begins with `name=`, for a name without `;` or `=`,
      is read as a cookie of that name, whatever follows. */
  lemma ParseNamed(s: string, name: string)
    requires name != [] && ';' !in name && '=' !in name && name + "=" <= s
    ensures ParseSetCookie(s).Some? && ParseSetCookie(s).value.name == name
  {
    var head := name + "=";
    assert ";" == [';'] && "=" == ['='];
    FirstPiece(s, ';');
    var pair := Split(s, ";")[0];
    assert forall i :: 0 <= i < |head| ==> s[i] == head[i] && s[i] != ';';
    assert |pair| >= |head|;
    assert pair[|name|] == '=';
    FirstPiece(pair, '=');
    var n := Split(pair, "=")[0];
    assert |n| == |name|;
    assert n == pair[..|name|] == name;
  }

  /** A Max-Age value that section 5.2.2 of RFC 6265 accepts: digits,
      possibly after a `-`. */
  predicate ValidDelta(v: string)
  {
    && v != []
    && (('0' <= v[0] <= '9' && AllDigits(v)) || (v[0] == '-' && |v| > 1 && AllDigits(v[1..])))
  }

  /** A valid Max-Age value that denotes zero or less seconds. */
  predicate NonPositive(v: string)
  {
    v != [] && (v[0] == '-' || forall i :: 0 <= i < |v| ==> v[i] == '0')
  }

  /** The value of an attribute `Max-Age=<v>`, the name compared without
      regard to case, when `v` is valid. */
  function MaxAgeValue(attr: string): Option<string>
  {
    if '=' !in attr then None
    else
      var name := Split(attr, "=")[0];
      FirstPiece(attr, '=');
      var value := attr[|name| + 1..];
      if Lower(name) == "max-age" && ValidDelta(value) then Some(value) else None
  }

  /** The last valid Max-Age attribute's value: the one that counts. */
  function LastMaxAge(attributes: seq<string>): Option<string>
    decreases |attributes|
  {
    if attributes == [] then None
    else match MaxAgeValue(attributes[|attributes| - 1])
      case Some(v) => Some(v)
      case None => LastMaxAge(attributes[..|attributes| - 1])
  }

  /** The cookie expires at once: its Max-Age is zero or negative. */
  predicate ExpiresAtOnce(attributes: seq<string>)
  {
    LastMaxAge(attributes).Some? && NonPositive(LastMaxAge(attributes).value)
  }

  /** `document.cookie = s`: an unparsable string is ignored; a cookie that
      expires at once deletes the stored one of its name; any other is
      stored in its place. */
  function Store(jar: seq<Cookie>, s: string): seq<Cookie>
  {
    match ParseSetCookie(s)
    case None => jar
    case Some(c) =>
      if ExpiresAtOnce(c.attributes) then Remove(jar, c.name)
      else Put(jar, Cookie(c.name, c.value))
  }

  lemma NamesCons(c: Cookie, rest: seq<Cookie>)
    ensures Names([c] + rest) == {c.name} + Names(rest)
  {
    var s := [c] + rest;
    forall n | n in Names(s) ensures n in {c.name} + Names(rest) {
      var i :| 0 <= i < |s| && s[i].name == n;
      if i > 0 { assert rest[i - 1].name == n; }
    }
    forall n | n in Names(rest) ensures n in Names(s) {
      var i :| 0 <= i < |rest| && rest[i].name == n;
      assert s[i + 1].name == n;
    }
    assert s[0].name == c.name;
  }

  lemma {:induction false} PutNames(jar: seq<Cookie>, c: Cookie)
    ensures Names(Put(jar, c)) == Names(jar) + {c.name}
    decreases |jar|
  {
    if jar != [] {
      assert jar == [jar[0]] + jar[1..];
      NamesCons(jar[0], jar[1..]);
      if jar[0].name != c.name {
        PutNames(jar[1..], c);
        assert Put(jar, c) == [jar[0]] + Put(jar[1..], c);
        NamesCons(jar[0], Put(jar[1..], c));
      } else {
        assert Put(jar, c) == [c] + jar[1..];
        NamesCons(c, jar[1..]);
      }
    } else {
      assert Put(jar, c) == [c] + jar;
      NamesCons(c, jar);
    }
  }

  lemma {:induction false} RemoveNames(jar: seq<Cookie>, name: string)
    ensures Names(Remove(jar, name)) == Names(jar) - {name}
    decreases |jar|
  {
    if jar != [] {
      RemoveNames(jar[1..], name);
      assert jar == [jar[0]] + jar[1..];
      NamesCons(jar[0], jar[1..]);
      if jar[0].name != name {
        NamesCons(jar[0], Remove(jar[1..], name));
      }
    }
  }

  /** A storable cookie whose name is new may go in front of a well-formed
      store. */
  lemma ConsWellFormed(c: Cookie, rest: seq<Cookie>)
    requires Storable(c) && WellFormed(rest) && c.name !in Names(rest)
    ensures WellFormed([c] + rest)
  {
    var s := [c] + rest;
    forall i | 0 <= i < |s|
      ensures Storable(s[i])
    {
      if i > 0 {
        assert s[i] == rest[i - 1];
      }
    }
    forall i, j | 0 <= i < j < |s|
      ensures s[i].name != s[j].name
    {
      assert s[j] == rest[j - 1];
      if i == 0 {
        assert rest[j - 1].name in Names(rest);
      } else {
        assert s[i] == rest[i - 1];
      }
    }
  }

  /** The cookies after the first of a well-formed store form one too, and
      do not repeat the first one's name. */
  lemma TailWellFormed(jar: seq<Cookie>)
    requires WellFormed(jar) && jar != []
    ensures WellFormed(jar[1..]) && Storable(jar[0])
    ensures jar[0].name !in Names(jar[1..])
  {
    forall k | 0 <= k < |jar[1..]|
      ensures jar[1..][k].name != jar[0].name
    {
      assert jar[1..][k] == jar[k + 1];
    }
  }

  /** Storing a storable cookie keeps the store well formed. */
  lemma {:induction false} PutWellFormed(jar: seq<Cookie>, c: Cookie)
    requires WellFormed(jar) && Storable(c)
    ensures WellFormed(Put(jar, c))
    decreases |jar|
  {
    if jar == [] {
      assert Put(jar, c) == [c] + jar;
      ConsWellFormed(c, jar);
    } else {
      TailWellFormed(jar);
      if jar[0].name == c.name {
        assert Put(jar, c) == [c] + jar[1..];
        ConsWellFormed(c, jar[1..]);
      } else {
        PutWellFormed(jar[1..], c);
        PutNames(jar[1..], c);
        assert Put(jar, c) == [jar[0]] + Put(jar[1..], c);
        ConsWellFormed(jar[0], Put(jar[1..], c));
      }
    }
  }

  /** Deleting a cookie keeps the store well formed. */
  lemma {:induction false} RemoveWellFormed(jar: seq<Cookie>, name: string)
    requires WellFormed(jar)
    ensures WellFormed(Remove(jar, name))
    decreases |jar|
  {
    if jar != [] {
      TailWellFormed(jar);
      RemoveWellFormed(jar[1..], name);
      if jar[0].name != name {
        RemoveNames(jar[1..], name);
        assert Remove(jar, name) == [jar[0]] + Remove(jar[1..], name);
        ConsWellFormed(jar[0], Remove(jar[1..], name));
      }
    }
  }

  /** Assigning to `document.cookie` keeps the store well formed. */
  lemma StoreWellFormed(jar: seq<Cookie>, s: string)
    requires WellFormed(jar)
    ensures WellFormed(Store(jar, s))
  {
    match ParseSetCookie(s)
    case None =>
    case Some(c) =>
      if ExpiresAtOnce(c.attributes) {
        RemoveWellFormed(jar, c.name);
      } else {
        PutWellFormed(jar, Cookie(c.name, c.value));
      }
  }

  /** After `Put`, the cookie's name reads its new value and every other
      name reads what it read before. */
  lemma {:induction false} LookupPut(jar: seq<Cookie>, c: Cookie, name: string)
    ensures Lookup(Put(jar, c), name) == if name == c.name then Some(c.value) else Lookup(jar, name)
    decreases |jar|
  {
    if jar != [] && jar[0].name != c.name {
      LookupPut(jar[1..], c, name);
    }
  }

  /** After `Remove`, the name reads nothing and every other name reads
      what it read before. */
  lemma {:induction false} LookupRemove(jar: seq<Cookie>, removed: string, name: string)
    ensures Lookup(Remove(jar, removed), name) == if name == removed then None else Lookup(jar, name)
    decreases |jar|
  {
    if jar != [] {
      LookupRemove(jar[1..], removed, name);
    }
  }

  /** What an assignment to `document.cookie` does to the value each name
      reads. */
  lemma StoreLookup(jar: seq<Cookie>, s: string, name: string)
    requires ParseSetCookie(s).Some?
    ensures var c := ParseSetCookie(s).value;
      Lookup(Store(jar, s), name) ==
        if name != c.name then Lookup(jar, name)
        else if ExpiresAtOnce(c.attributes) then None
        else Some(c.value)
  {
    var c := ParseSetCookie(s).value;
    if ExpiresAtOnce(c.attributes) {
      LookupRemove(jar, c.name, name);
    } else {
      LookupPut(jar, Cookie(c.name, c.value), name);
    }
  }

  /** An attribute `<name>=<value>` is read as Max-Age exactly when its
      name is `max-age` in any case and its value is valid. */
  lemma MaxAgeAttribute(name: string, value: string)
    requires '=' !in name
    ensures MaxAgeValue(name + "=" + value) ==
      if Lower(name) == "max-age" && ValidDelta(value) then Some(value) else None
  {
    var attr := name + "=" + value;
    assert attr[|name|] == '=';
    SplitAfter(name, "=", value);
    assert attr[|name| + 1..] == value;
  }

  /** Appending an attribute: it counts when it is a valid Max-Age, and
      otherwise the earlier ones decide. */
  lemma LastMaxAgeAppend(attributes: seq<string>, attr: string)
    ensures LastMaxAge(attributes + [attr]) ==
      if MaxAgeValue(attr).Some? then MaxAgeValue(attr) else LastMaxAge(attributes)
  {
    assert (attributes + [attr])[..|attributes|] == attributes;
  }

  /** Leading spaces are dropped from an attribute. */
  lemma TrimOneSpace(s: string)
    requires s == [] || s[0] != ' '
    ensures TrimStart(" " + s) == s
  {
    assert (" " + s)[1..] == s;
  }
}
