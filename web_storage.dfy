/**
 * The browser's `window.localStorage`, reduced to the three entries the
 * application uses. Each entry is a field that the operations writing it
 * name in their `modifies` clauses, so every other entry is framed out.
 */
module WebStorage {
  import opened Optional

  /**
   * What `JSON.parse` makes of the text stored under `shinydex:owned`:
   * `getItem` returned null, the empty string, text that does not parse,
   * a JSON value that is not an array, or an array of card keys.
   */
  datatype Payload =
    | Absent
    | EmptyText
    | Malformed
    | NonArray
    | Array(keys: seq<string>)

  class LocalStorage {
    /** The entry under `shinydex:owned`. */
    var owned: Payload
    /** The entry under `shinydex:theme`; `None` when `getItem` returns null. */
    var theme: Option<string>
    /** The entry under `shinydex:locale`; `None` when `getItem` returns null. */
    var locale: Option<string>

    constructor (owned: Payload, theme: Option<string>, locale: Option<string>)
      ensures this.owned == owned && this.theme == theme && this.locale == locale
    {
      this.owned := owned;
      this.theme := theme;
      this.locale := locale;
    }
  }
}
