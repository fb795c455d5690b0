/**
 * Card keys and localized names (src/data/index.ts, shaped by the types of
 * src/data/types.ts). A card key is the persistence key of a card's owned
 * flag, so the model proves that it can be decoded again (and hence that
 * distinct (base, id) pairs get distinct keys) for non-negative ids. The
 * base is `subsetId ?? setId`, so two cards in different sets that share a
 * subset id and an id share a key.
 */
module CardData {
  import opened Optional

  /** The `WebLocale` enum: `English = 'en'`, `Japanese = 'ja'`. */
  datatype WebLocale = English | Japanese

  /** The string value of a `WebLocale` member. */
  function LocaleCode(l: WebLocale): string
  {
    match l
    case English => "en"
    case Japanese => "ja"
  }

  /** `Object.values(WebLocale).includes(s)`, answering with the member found. */
  function ParseLocale(s: string): (r: Option<WebLocale>)
    ensures r.Some? ==> LocaleCode(r.value) == s
    ensures r.None? ==> forall l: WebLocale :: LocaleCode(l) != s
  {
    if s == "en" then Some(English)
    else if s == "ja" then Some(Japanese)
    else None
  }

  /** `LocalizedText`: one display string per locale. */
  datatype LocalizedText = LocalizedText(en: string, ja: string)
  {
    /** `name[locale]` */
    function Get(l: WebLocale): string
    {
      match l
      case English => en
      case Japanese => ja
    }
  }

  /** `CardKeyParts`: the set id, the optional subset id and the card id. */
  datatype CardKeyParts = CardKeyParts(setId: string, subsetId: Option<string>, id: int)

  /** `parts.subsetId ?? parts.setId`: a present subset id wins, even when it is empty. */
  function KeyBase(parts: CardKeyParts): string
  {
    if parts.subsetId.Some? then parts.subsetId.value else parts.setId
  }

  /** The character of a decimal digit. */
  function DigitChar(d: nat): (c: char)
    requires d < 10
    ensures '0' <= c <= '9'
  {
    "0123456789"[d]
  }

  predicate IsDigit(c: char)
  {
    '0' <= c <= '9'
  }

  predicate AllDigits(s: string)
  {
    forall i :: 0 <= i < |s| ==> IsDigit(s[i])
  }

  /** The decimal digits of a natural number, most significant first, without leading zeros. */
  function NatToDecimal(n: nat): (s: string)
    decreases n
  {
    if n < 10 then [DigitChar(n)] else NatToDecimal(n / 10) + [DigitChar(n % 10)]
  }

  /** How a template literal renders an integer: a minus sign for negatives, then the digits. */
  function IntToDecimal(n: int): (r: string)
    ensures n >= 0 ==> r != [] && AllDigits(r) && DecimalValue(r) == n
    ensures n < 0 ==> r != [] && r[0] == '-' && AllDigits(r[1..]) && DecimalValue(r[1..]) == -n
  {
    DecimalRoundTrip(if n < 0 then -n else n);
    if n < 0 then "-" + NatToDecimal(-n) else NatToDecimal(n)
  }

  /** The number a string of decimal digits denotes (the reading side of `NatToDecimal`). */
  function DecimalValue(s: string): nat
    requires AllDigits(s)
  {
    if s == [] then 0
    else DecimalValue(s[..|s| - 1]) * 10 + ((s[|s| - 1] as int) - ('0' as int))
  }

  lemma {:induction false} DecimalRoundTrip(n: nat)
    ensures NatToDecimal(n) != [] && AllDigits(NatToDecimal(n))
    ensures DecimalValue(NatToDecimal(n)) == n
    decreases n
  {
    var s := NatToDecimal(n);
    if n < 10 {
      assert s == [DigitChar(n)];
      assert s[..|s| - 1] == [];
      assert "0123456789"[n] as int - '0' as int == n;
    } else {
      DecimalRoundTrip(n / 10);
      var d := n % 10;
      assert s == NatToDecimal(n / 10) + [DigitChar(d)];
      assert s[..|s| - 1] == NatToDecimal(n / 10);
      assert "0123456789"[d] as int - '0' as int == d;
    }
  }

  /**
   * `makeCardKey`: `${subsetId ?? setId}-${id}`. Every key has a `-` right
   * after its base.
   */
  function MakeCardKey(parts: CardKeyParts): (key: string)
    ensures parts.subsetId.Some? ==> key == parts.subsetId.value + "-" + IntToDecimal(parts.id)
    ensures parts.subsetId.None? ==> key == parts.setId + "-" + IntToDecimal(parts.id)
    ensures |key| > |KeyBase(parts)| + 1 && key[|KeyBase(parts)|] == '-'
  {
    KeyBase(parts) + "-" + IntToDecimal(parts.id)
  }

  /** The index of the last `-` in `s`, if there is one. */
  function LastDash(s: string): (i: Option<nat>)
    ensures i.Some? ==> i.value < |s| && s[i.value] == '-'
    ensures i.Some? ==> forall j :: i.value < j < |s| ==> s[j] != '-'
    ensures i.None? ==> forall j :: 0 <= j < |s| ==> s[j] != '-'
  {
    if s == [] then None
    else if s[|s| - 1] == '-' then Some(|s| - 1)
    else LastDash(s[..|s| - 1])
  }

  /** The last dash is the one with no dash after it. */
  lemma LastDashAt(s: string, i: nat)
    requires i < |s| && s[i] == '-'
    requires forall j :: i < j < |s| ==> s[j] != '-'
    ensures LastDash(s) == Some(i)
  {
  }

  /**
   * Decodes a card key: the text before the last `-` is the base, the text
   * after it must be a non-empty run of digits and is the card id.
   */
  function SplitCardKey(key: string): Option<(string, nat)>
  {
    match LastDash(key)
    case None => None
    case Some(i) =>
      var digits := key[i + 1..];
      if digits != [] && AllDigits(digits) then Some((key[..i], DecimalValue(digits))) else None
  }

  /** For a non-negative id, decoding a card key gives back its base and id. */
  lemma CardKeyRoundTrip(parts: CardKeyParts)
    requires parts.id >= 0
    ensures SplitCardKey(MakeCardKey(parts)) == Some((KeyBase(parts), parts.id))
  {
    var base, digits := KeyBase(parts), NatToDecimal(parts.id);
    var key := MakeCardKey(parts);
    DecimalRoundTrip(parts.id);
    assert key == base + "-" + digits;
    assert forall j :: |base| < j < |key| ==> key[j] == digits[j - |base| - 1];
    LastDashAt(key, |base|);
    assert key[|base| + 1..] == digits;
    assert key[..|base|] == base;
  }

  /** Distinct (base, id) pairs with non-negative ids give distinct card keys. */
  lemma CardKeyInjective(p: CardKeyParts, q: CardKeyParts)
    requires p.id >= 0 && q.id >= 0
    requires MakeCardKey(p) == MakeCardKey(q)
    ensures KeyBase(p) == KeyBase(q) && p.id == q.id
  {
    CardKeyRoundTrip(p);
    CardKeyRoundTrip(q);
  }

  /** A present subset id decides the base alone: the set id does not enter the key. */
  lemma SubsetIdOverridesSetId(p: CardKeyParts, otherSetId: string)
    requires p.subsetId.Some?
    ensures MakeCardKey(p.(setId := otherSetId)) == MakeCardKey(p)
    ensures MakeCardKey(p) == p.subsetId.value + "-" + IntToDecimal(p.id)
  {
  }

  /** The set id does not separate cards of equal subset id: `("A", "s", 1)` and `("B", "s", 1)` share `"s-1"`. */
  lemma SharedSubsetIdCollides()
    ensures MakeCardKey(CardKeyParts("A", Some("s"), 1)) == MakeCardKey(CardKeyParts("B", Some("s"), 1))
    ensures CardKeyParts("A", Some("s"), 1) != CardKeyParts("B", Some("s"), 1)
  {
  }

  /** With negative ids the keys are no longer injective: `"x-"` with id 1 and `"x"` with id -1 share `"x--1"`. */
  lemma NegativeIdCollides()
    ensures MakeCardKey(CardKeyParts("x-", None, 1)) == MakeCardKey(CardKeyParts("x", None, -1))
    ensures KeyBase(CardKeyParts("x-", None, 1)) != KeyBase(CardKeyParts("x", None, -1))
  {
    assert NatToDecimal(1) == "1";
  }

  /** `getLocalizedName`: `name[locale] || name.en`, where the empty string counts as missing. */
  function GetLocalizedName(name: LocalizedText, locale: WebLocale): (r: string)
    ensures name.Get(locale) != "" ==> r == name.Get(locale)
    ensures name.Get(locale) == "" ==> r == name.en
    ensures r == name.Get(locale) || r == name.en
  {
    if name.Get(locale) != "" then name.Get(locale) else name.en
  }
}
