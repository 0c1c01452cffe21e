/** The locale configuration of frontend/i18n/routing.ts and the locale
    match `^\/(en|nb)` that the route guard and the request interceptor
    both apply to a pathname. */
module Routing {
  import opened Wrappers

  /** The supported locales. */
  datatype Locale = En | Nb

  /** `locales`, in the order the configuration lists them. */
  const Locales: seq<Locale> := [En, Nb]

  /** `defaultLocale` */
  const DefaultLocale: Locale := En

  /** The locale's code as it appears in a path. */
  function Code(l: Locale): string
  {
    match l
    case En => "en"
    case Nb => "nb"
  }

  /** `pathname.match(/^\/(en|nb)/)?.[1]`: the locale a pathname starts
      with. No segment boundary is required after the code. */
  function LocaleOf(pathname: string): (r: Option<Locale>)
    ensures forall l :: r == Some(l) <==> "/" + Code(l) <= pathname
  {
    if "/en" <= pathname then
      assert pathname[1] == 'e' && ("/" + Code(Nb))[1] == 'n';
      Some(En)
    else if "/nb" <= pathname then Some(Nb)
    else None
  }

  /** `pathname.match(/^\/(en|nb)/)?.[1] ?? 'en'` */
  function LocaleOrDefault(pathname: string): (l: Locale)
    ensures LocaleOf(pathname).None? ==> l == DefaultLocale
    ensures LocaleOf(pathname).Some? ==> "/" + Code(l) <= pathname
  {
    LocaleOf(pathname).GetOr(DefaultLocale)
  }

  /** A path that starts with a locale's code is attributed to that locale. */
  lemma LocaleOfCodePrefix(l: Locale, rest: string)
    ensures LocaleOf("/" + Code(l) + rest) == Some(l)
  {
    assert "/" + Code(l) <= "/" + Code(l) + rest;
  }
}
