/**
 * The initial locale (src/i18n/index.ts): the stored locale if it names a
 * `WebLocale` member, else the primary subtag of the browser's language tag
 * if it names one, else English.
 */
module I18n {
  import opened Optional
  import opened CardData
  import opened WebStorage

  /** `tag.split('-')[0]`: the text before the first `-`, or the whole tag when it has none. */
  function PrimarySubtag(tag: string): (r: string)
    ensures r <= tag
    ensures forall i :: 0 <= i < |r| ==> r[i] != '-'
    ensures |r| < |tag| ==> tag[|r|] == '-'
  {
    if tag == [] || tag[0] == '-' then []
    else [tag[0]] + PrimarySubtag(tag[1..])
  }

  /** A locale that a string names, taking a falsy (empty) string as naming none. */
  function NamedLocale(s: string): (r: Option<WebLocale>)
    ensures r.Some? ==> LocaleCode(r.value) == s
    ensures r.None? ==> forall l: WebLocale :: LocaleCode(l) != s
  {
    if s != "" then ParseLocale(s) else None
  }

  /** `resolveInitialLocale`, given the stored value and `navigator.language`. */
  function ResolveInitialLocale(stored: Option<string>, language: string): (l: WebLocale)
    ensures stored.Some? && NamedLocale(stored.value).Some? ==> LocaleCode(l) == stored.value
    ensures (stored.None? || NamedLocale(stored.value).None?) && NamedLocale(PrimarySubtag(language)).Some?
            ==> LocaleCode(l) == PrimarySubtag(language)
    ensures (stored.None? || NamedLocale(stored.value).None?) && NamedLocale(PrimarySubtag(language)).None?
            ==> l == English
  {
    if stored.Some? && NamedLocale(stored.value).Some? then NamedLocale(stored.value).value
    else if NamedLocale(PrimarySubtag(language)).Some? then NamedLocale(PrimarySubtag(language)).value
    else English
  }

  /** `resolveInitialLocale()` itself: reads the `shinydex:locale` entry and resolves it with the browser language. */
  function InitialLocale(storage: LocalStorage, language: string): (l: WebLocale)
    reads storage
    ensures storage.locale.Some? && NamedLocale(storage.locale.value).Some? ==> LocaleCode(l) == storage.locale.value
    ensures (storage.locale.None? || NamedLocale(storage.locale.value).None?) ==> l == ResolveInitialLocale(None, language)
  {
    ResolveInitialLocale(storage.locale, language)
  }

  /** The locale always comes from the stored value, from the language tag's primary subtag, or is English. */
  lemma ResolvedLocaleSource(stored: Option<string>, language: string)
    ensures var l := ResolveInitialLocale(stored, language);
            (stored.Some? && LocaleCode(l) == stored.value) || LocaleCode(l) == PrimarySubtag(language) || l == English
  {
  }

  /** A browser language such as `"ja-JP"` selects its primary subtag when nothing valid is stored. */
  lemma RegionTagSelectsLanguage(stored: Option<string>)
    requires stored.None? || NamedLocale(stored.value).None?
    ensures ResolveInitialLocale(stored, "ja-JP") == Japanese
    ensures ResolveInitialLocale(stored, "") == English
  {
    assert PrimarySubtag("ja-JP") == "ja";
  }
}
