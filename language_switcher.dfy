/** The language menu of frontend/components/storefront/language-switcher.tsx:
    the locales it offers and `handleChange`, which rewrites the first path
    segment to the chosen locale. */
module LanguageSwitcher {
  import opened Wrappers
  import opened Text
  import opened Routing

  /** `segments[1] = x` on a JavaScript array: a one-element array grows
      to two elements. */
  function SetSecond(segments: seq<string>, x: string): (r: seq<string>)
    requires |segments| >= 1
    ensures |r| == if |segments| < 2 then 2 else |segments|
    ensures r[1] == x
    ensures forall i :: 0 <= i < |r| && i != 1 ==> r[i] == segments[i]
  {
    if |segments| < 2 then segments + [x] else segments[1 := x]
  }

  /** The path `handleChange(newLocale)` navigates to. */
  function Switched(pathname: string, newLocale: string): string
  {
    Join(SetSecond(Split(pathname, "/"), newLocale), "/")
  }

  /** `handleChange(newLocale)`: split the pathname on `/` into an array,
      overwrite its second element, join it back; the result is the path
      handed to `router.push`. */
  method HandleChange(pathname: string, newLocale: string) returns (target: string)
    ensures target == Switched(pathname, newLocale)
  {
    var pieces := Split(pathname, "/");
    var segments := new string[if |pieces| < 2 then 2 else |pieces|](i => if 0 <= i < |pieces| then pieces[i] else []);
    segments[1] := newLocale;
    assert segments[..] == SetSecond(pieces, newLocale);
    target := Join(segments[..], "/");
  }

  /** The switched path splits into the old segments with the second one
      replaced: segments after it are kept, and their count is kept when
      there were at least two. */
  lemma SwitchedSegments(pathname: string, newLocale: string)
    requires '/' !in newLocale
    ensures Split(Switched(pathname, newLocale), "/") == SetSecond(Split(pathname, "/"), newLocale)
  {
    var segments := SetSecond(Split(pathname, "/"), newLocale);
    SplitPiecesAvoid(pathname, '/');
    assert forall i :: 0 <= i < |segments| ==> '/' !in segments[i];
    JoinThenSplit(segments, "/");
  }

  /** Choosing the locale the path already carries changes nothing. */
  lemma SwitchToCurrent(pathname: string, newLocale: string)
    requires |Split(pathname, "/")| >= 2 && Split(pathname, "/")[1] == newLocale
    ensures Switched(pathname, newLocale) == pathname
  {
    var segments := Split(pathname, "/");
    assert SetSecond(segments, newLocale) == segments;
    SplitThenJoin(pathname, "/");
  }

  /** Of two switches in a row, only the second one counts. */
  lemma LastSwitchWins(pathname: string, first: string, second: string)
    requires '/' !in first
    ensures Switched(Switched(pathname, first), second) == Switched(pathname, second)
  {
    SwitchedSegments(pathname, first);
    var segments := Split(pathname, "/");
    assert SetSecond(SetSecond(segments, first), second) == SetSecond(segments, second);
  }

  /** Switching twice to the same locale is switching once. */
  lemma SwitchIdempotent(pathname: string, newLocale: string)
    requires '/' !in newLocale
    ensures Switched(Switched(pathname, newLocale), newLocale) == Switched(pathname, newLocale)
  {
    LastSwitchWins(pathname, newLocale, newLocale);
  }

  /** Switching a path whose first segment is `en` to `nb` and back gives
      the path back. */
  lemma SwitchAndBack(pathname: string)
    requires |Split(pathname, "/")| >= 2 && Split(pathname, "/")[1] == Code(En)
    ensures Switched(Switched(pathname, Code(Nb)), Code(En)) == pathname
  {
    LastSwitchWins(pathname, Code(Nb), Code(En));
    SwitchToCurrent(pathname, Code(En));
  }

  /** The root path gains the locale as its only segment. */
  lemma SwitchRoot(newLocale: string)
    ensures Switched("/", newLocale) == "/" + newLocale
  {
    assert "/" <= "/" && "/"[1..] == [];
    assert Split("/", "/") == [[], []];
    assert SetSecond(Split("/", "/"), newLocale) == [[], newLocale];
    assert Join([[], newLocale], "/") == [] + "/" + Join([newLocale], "/");
  }

  /** A join begins with its first part. */
  lemma {:induction false} JoinStartsWithFirst(parts: seq<string>, sep: string)
    requires |parts| >= 1
    ensures parts[0] <= Join(parts, sep)
  {
  }

  /** A switched absolute path starts with `/` and the chosen locale, so
      the route guard and the request interceptor attribute it to that
      locale. */
  lemma SwitchedLocale(pathname: string, l: Locale)
    requires pathname != [] && pathname[0] == '/'
    ensures "/" + Code(l) <= Switched(pathname, Code(l))
    ensures LocaleOf(Switched(pathname, Code(l))) == Some(l)
  {
    assert "/" <= pathname;
    var segments := SetSecond(Split(pathname, "/"), Code(l));
    assert segments[0] == [];
    assert Join(segments, "/") == segments[0] + "/" + Join(segments[1..], "/");
    JoinStartsWithFirst(segments[1..], "/");
  }

  /** A menu entry: a locale, marked when it is the one in use. */
  datatype MenuItem = MenuItem(locale: Locale, isCurrent: bool)

  /** `locales.map(...)`: one entry per configured locale, in order, `en`
      then `nb`, with exactly the locale in use marked. */
  function Menu(current: Locale): (items: seq<MenuItem>)
    ensures |items| == 2 && items[0].locale == En && items[1].locale == Nb
    ensures forall i :: 0 <= i < |items| ==> (items[i].isCurrent <==> items[i].locale == current)
    ensures exists i :: 0 <= i < |items| && items[i].isCurrent
  {
    var items := seq(|Locales|, i requires 0 <= i < |Locales| => MenuItem(Locales[i], Locales[i] == current));
    assert items[if current == En then 0 else 1].isCurrent;
    items
  }
}
