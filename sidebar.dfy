/** The dashboard sidebar of frontend/components/dashboard/sidebar.tsx:
    its nine links under `/<locale>/dashboard` and the rule that marks a
    link active for the current pathname. */
module Sidebar {
  import opened Routing
  import Middleware

  /** A sidebar entry: where it leads and the translation key of its label. */
  datatype Link = Link(href: string, labelKey: string)

  /** The path after `/<locale>/dashboard` of each entry, in display order. */
  const Sections: seq<string> :=
    ["", "/analytics", "/devices", "/locations", "/platforms", "/landing-page", "/orders", "/subscription", "/settings"]

  /** The translation keys of the labels, in the same order. */
  const Labels: seq<string> :=
    ["overview", "analytics", "devices", "locations", "platforms", "landingPage", "orders", "subscription", "settings"]

  /** `/${locale}/dashboard`, the overview page. */
  function Overview(l: Locale): string
  {
    "/" + Code(l) + "/dashboard"
  }

  /** `links` for the active locale: nine entries, the overview first,
      every one under `/<locale>/dashboard`. */
  function Links(l: Locale): (links: seq<Link>)
    ensures |links| == 9
    ensures links[0] == Link(Overview(l), "overview")
    ensures forall i :: 0 <= i < |links| ==> Overview(l) <= links[i].href
  {
    var links := seq(|Sections|, i requires 0 <= i < |Sections| => Link(Overview(l) + Sections[i], Labels[i]));
    assert forall i :: 0 <= i < |links| ==> links[i].href == Overview(l) + Sections[i];
    links
  }

  /** `isActive(href)`: the overview only on its own page, any other link on
      every path that starts with its href. Either way a link is active on
      its own page and only on pages that start with its href. */
  function IsActive(pathname: string, l: Locale, href: string): (active: bool)
    ensures pathname == href ==> active
    ensures active ==> href <= pathname
  {
    if href == Overview(l) then pathname == href else href <= pathname
  }

  /** Every sidebar link leads to a page the route guard protects. */
  lemma LinksAreProtected(l: Locale, i: int)
    requires 0 <= i < |Links(l)|
    ensures Middleware.IsProtectedRoute(Links(l)[i].href)
  {
    var rest := "/dashboard" + Sections[i];
    assert Links(l)[i].href == Overview(l) + Sections[i];
    assert Links(l)[i].href == ("/" + Code(l) + "/dashboard") + Sections[i];
    assert Links(l)[i].href == "/" + Code(l) + rest;
    LocaleOfCodePrefix(l, rest);
    assert Middleware.StripLocale(Links(l)[i].href) == rest;
  }

  /** Only the first entry's href is the overview page. */
  lemma OnlyFirstIsOverview(l: Locale, i: int)
    requires 0 < i < |Links(l)|
    ensures Links(l)[i].href != Overview(l)
    ensures |Links(l)[i].href| > |Overview(l)|
  {
    assert |Sections[i]| > 0;
    assert |Links(l)[i].href| == |Overview(l)| + |Sections[i]|;
  }

  /** The overview link is active exactly on `/<locale>/dashboard`. */
  lemma OverviewActiveIff(pathname: string, l: Locale)
    ensures IsActive(pathname, l, Links(l)[0].href) <==> pathname == Overview(l)
  {
  }

  /** Any other link is active on every path its href starts, with no `/`
      boundary after it. */
  lemma SectionActiveIff(pathname: string, l: Locale, i: int)
    requires 0 < i < |Links(l)|
    ensures IsActive(pathname, l, Links(l)[i].href) <==> Overview(l) + Sections[i] <= pathname
  {
    OnlyFirstIsOverview(l, i);
  }

  /** The two characters after the `/` of each section tell the sections
      apart. */
  lemma SectionKeysDistinct(i: int, j: int)
    requires 0 < i < |Sections| && 0 < j < |Sections| && i != j
    ensures |Sections[i]| >= 3 && |Sections[j]| >= 3
    ensures Sections[i][1..3] != Sections[j][1..3]
  {
    var keys := ["", "an", "de", "lo", "pl", "la", "or", "su", "se"];
    forall k | 0 < k < |Sections|
      ensures |Sections[k]| >= 3 && Sections[k][1..3] == keys[k]
    {
    }
    assert keys[i] != keys[j];
  }

  /** Two paths that both start a pathname after the same prefix agree on
      the characters they both have. */
  lemma SharedPrefixAgrees(pathname: string, home: string, a: string, b: string)
    requires home + a <= pathname && home + b <= pathname
    requires |a| >= 3 && |b| >= 3
    ensures a[1..3] == b[1..3]
  {
    var n := |home|;
    assert (home + a)[n + 1..n + 3] == a[1..3];
    assert (home + b)[n + 1..n + 3] == b[1..3];
  }

  /** No pathname activates two links. */
  lemma AtMostOneActive(pathname: string, l: Locale, i: int, j: int)
    requires 0 <= i < |Links(l)| && 0 <= j < |Links(l)|
    requires IsActive(pathname, l, Links(l)[i].href) && IsActive(pathname, l, Links(l)[j].href)
    ensures i == j
  {
    if i != j {
      if i == 0 || j == 0 {
        OnlyFirstIsOverview(l, if i == 0 then j else i);
      } else {
        OnlyFirstIsOverview(l, i);
        OnlyFirstIsOverview(l, j);
        assert Links(l)[i].href == Overview(l) + Sections[i];
        assert Links(l)[j].href == Overview(l) + Sections[j];
        SharedPrefixAgrees(pathname, Overview(l), Sections[i], Sections[j]);
        SectionKeysDistinct(i, j);
      }
    }
  }

  /** A pathname outside `/<locale>/dashboard` (another locale's dashboard
      included) activates no link. */
  lemma NoneActiveOutside(pathname: string, l: Locale, i: int)
    requires 0 <= i < |Links(l)| && !(Overview(l) <= pathname)
    ensures !IsActive(pathname, l, Links(l)[i].href)
  {
  }
}
