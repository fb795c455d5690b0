# Card collection tracker: a Dafny model of its persistence and preference logic

The application lets a user browse a static catalog of collectible cards and
mark each card as owned. This project models the logic under the user
interface, in four modules that follow the source files:

- `Collection` (src/stores/collection.ts): the owned-card store. Its state is
  a map from card key to owned flag. The map is loaded once from local
  storage, where it is kept as a list of owned keys. A toggle flips one key
  in place and writes the whole map back at once, and a failed write is
  swallowed. `LoadOwned` and `OwnedKeyList` keep the source's loops.
  `CollectionStore` is a class with the `ownedByKey` field, and its
  `ToggleOwnedByKey` updates that field in place.
- `CardData` (src/data/index.ts and the types of src/data/types.ts): card
  key derivation, `subsetId ?? setId` then `-` then the id. It also holds
  the localized-name fallback and the `WebLocale` enum. The key is paired
  with a decoder, `SplitCardKey`, which splits at the last `-`. Decoding a
  key gives back its base and its id, so distinct (base, id) pairs with
  non-negative ids get distinct keys. The base is `subsetId ?? setId`, so
  cards of different sets that share a subset id and an id share a key.
- `Theme` (src/theme.ts): reading the stored theme, the fallback chain
  (stored theme, then the dark-mode media signal, then light) and applying a
  theme to the root class list. The `Page` class holds the browser
  capabilities as constants and the root class list as a set of names.
- `I18n` (src/i18n/index.ts): the initial locale. The stored value wins if
  it names a locale. Otherwise the primary subtag of the browser language
  counts if it names one. Otherwise the locale is English.

`WebStorage` holds `window.localStorage` as a class with one field for each
entry the application uses. Every operation that writes an entry names only
that field in its `modifies` clause. `Optional` holds the `Option` type.

The browser is modelled as plain inputs and state:
- `window`, `document` and `matchMedia` being available are booleans.
- The media query result is a boolean.
- `navigator.language` is a string.
- The root's `classList` is a set of strings.
- A storage write that fails is a `writeSucceeds` parameter.

The source and its specification disagree in three places. The model follows
the source each time:
- The specification allows a persisted full key-to-boolean map. The code
  writes and reads only the list of owned keys.
- The specification mentions a third "system" theme. The code's `Theme` type
  has only `light` and `dark`.
- The specification describes a `getLocalizedSetName` lookup.
  src/data/index.ts has no such function, so it is not part of this model.

## Model

| member | source | states |
|---|---|---|
| `CardData.ParseLocale` | src/data/index.ts:8-11 | a string is accepted exactly when it is the value of a `WebLocale` member, and the member returned has that value |
| `CardData.MakeCardKey` | src/data/index.ts:18-21 | the key is the subset id when present, else the set id, then `-`, then the id in decimal, with the `-` right after the base; its properties are `CardKeyRoundTrip`, `CardKeyInjective` and `SubsetIdOverridesSetId` |
| `CardData.IntToDecimal` | src/data/index.ts:20 | the `${parts.id}` rendering: a non-negative id gives non-empty digits that read back as the id, and a negative id gives `-` followed by the digits of its magnitude |
| `CardData.DecimalRoundTrip` | src/data/index.ts:20 | the decimal rendering of a non-negative id is a non-empty run of digits that reads back as the same number |
| `CardData.CardKeyRoundTrip` | src/data/index.ts:18-21 | for a non-negative id, the text before the key's last `-` is `subsetId ?? setId` and the text after it is the id's decimal digits |
| `CardData.CardKeyInjective` | src/data/index.ts:18-21 | two cards with non-negative ids and the same key have the same base and the same id |
| `CardData.SubsetIdOverridesSetId` | src/data/index.ts:19 | when a subset id is present, the key is built from it and the set id does not affect the key |
| `CardData.SharedSubsetIdCollides` | src/data/index.ts:19-20 | two cards that differ only in their set id but share a subset id and an id get the same key |
| `CardData.NegativeIdCollides` | src/data/index.ts:20 | with negative ids, injectivity fails: base `x-` with id 1 and base `x` with id -1 share the key `x--1` |
| `CardData.GetLocalizedName` | src/data/index.ts:23-25 | the name in the requested locale when it is non-empty, otherwise the English name; the result is always one of the two |
| `Collection.IsOwned` | src/stores/collection.ts:47 | `m[key] ?? false`: an absent key is not owned, and a present key has its stored flag |
| `Collection.LoadedMap` | src/stores/collection.ts:13-23 | the loaded map's domain is exactly the set of listed keys, duplicates collapsed, all mapped to `true`; a payload that is absent, empty, unparsable or not an array gives the empty map |
| `Collection.LoadOwned` | src/stores/collection.ts:10-29 | the `forEach` loop builds exactly `LoadedMap` of the stored payload, and every payload gives a map, so nothing escapes as an error |
| `Collection.OwnedKeyList` | src/stores/collection.ts:33 | the filtered key list contains each key mapped to `true` exactly once and no key mapped to `false` |
| `Collection.SaveOwned` | src/stores/collection.ts:31-38 | a successful write stores a list without duplicates of exactly the owned keys; a failed write leaves the entry unchanged; no other storage entry changes |
| `Collection.Toggled` | src/stores/collection.ts:53-54 | the flipped key's ownership is negated (a missing key becomes owned), every other key keeps its entry, and the domain grows by at most that key |
| `Collection.SaveLoadRoundTrip` | src/stores/collection.ts:13-34 | loading the list that a save writes gives every key the ownership it had in the saved map |
| `Collection.ToggleTwice` | src/stores/collection.ts:52-54 | toggling a key twice restores every key's ownership; the map may now hold an explicit `false` for that key |
| `Collection.ToggledOwnedKeys` | src/stores/collection.ts:52-55 | a toggle removes the key from the owned set if it was owned and adds it otherwise, and leaves the rest of the set as it was |
| `Collection.CollectionStore.constructor` | src/stores/collection.ts:40-43 | the store's initial map is the one loaded from the storage entry |
| `Collection.CollectionStore.IsOwnedByKey` | src/stores/collection.ts:49-51 | a key is owned exactly when it is in the set of keys a save writes; a missing key is not owned |
| `Collection.CollectionStore.IsOwnedByParts` | src/stores/collection.ts:45-48 | ownership by parts equals ownership of the key derived from those parts |
| `Collection.CollectionStore.ToggleOwnedByKey` | src/stores/collection.ts:52-56 | the in-memory map becomes the toggled map; on a successful write the stored list is exactly the keys now owned, without duplicates; on a failed write the storage is unchanged |
| `Collection.ToggleSurvivesReload` | src/stores/collection.ts:40-56 | after a toggle whose write succeeds, the key's ownership is negated, a store created afresh on the same storage reports the same ownership, and the reloaded map agrees with the toggled map on every key |
| `Theme.ReadStoredTheme` | src/theme.ts:5-12 | a theme is read exactly when there is a window and the stored value is exactly `light` or `dark`, and it is the theme of that name |
| `Theme.ResolveTheme` | src/theme.ts:29-39 | a valid stored theme wins; otherwise, if `matchMedia` is available, the theme is dark exactly when dark is preferred; otherwise it is light |
| `Theme.AppliedClasses` | src/theme.ts:17-24 | after applying, `theme-light` is present exactly for the light theme and `theme-dark` exactly for the dark theme; all other classes are unchanged |
| `Theme.AppliedClassesIdempotent` | src/theme.ts:18-24 | applying the same theme twice gives the same class list as applying it once |
| `Theme.StoredThemeWins` | src/theme.ts:28-33 | a theme stored under its own name is read back and chosen, whatever the media signal says |
| `Theme.Page.ApplyTheme` | src/theme.ts:14-26 | with a document, the root classes become `AppliedClasses` of the old ones; without a document nothing changes |
| `Theme.Page.InitTheme` | src/theme.ts:28-43 | the returned theme is the resolution of the stored value and the media signal, and it is the theme that was applied |
| `Theme.Page.SetTheme` | src/theme.ts:45-50 | with a window the theme's name is stored, otherwise the storage is unchanged; the theme is then applied |
| `Theme.SetThenInit` | src/theme.ts:45-49 | with a window, `setTheme(t)` followed by `initTheme()` returns `t`, and the root holds exactly `t`'s theme class |
| `I18n.PrimarySubtag` | src/i18n/index.ts:15 | the subtag is a prefix of the tag and contains no `-`; it is the whole tag or is followed by a `-` |
| `I18n.NamedLocale` | src/i18n/index.ts:11 | a non-empty string names a locale exactly when it is a `WebLocale` value; the empty string names none |
| `I18n.ResolveInitialLocale` | src/i18n/index.ts:9-19 | a stored locale value wins; a stored value that is not one is ignored; next comes the primary subtag of the browser language if it is a locale; otherwise English |
| `I18n.InitialLocale` | src/i18n/index.ts:9-12 | the `shinydex:locale` entry decides the locale when it names one; otherwise the result is what the browser language alone gives |
| `I18n.ResolvedLocaleSource` | src/i18n/index.ts:9-19 | the resolved locale is always the stored value, the primary subtag or English |
| `I18n.RegionTagSelectsLanguage` | src/i18n/index.ts:15-18 | with nothing valid stored, `ja-JP` resolves to Japanese and an empty browser language to English |

## Left out

- The store's framework wiring (`defineStore` reactivity, src/stores/collection.ts:40-43) is not modelled. The store is a plain class.
- The `createI18n` call and its message bundles (src/i18n/index.ts:21-29) are not modelled. They are framework calls.
- JSON text is not modelled. The `shinydex:owned` entry holds what `JSON.parse` makes of it: absent, empty, unparsable, not an array, or an array of keys. A save stores the key list itself, on the assumption that parsing the text of a stringified string array gives the array back.
- `LoadOwned` assumes every array element is a string. The source does not check this.
- `OwnedKeyList` does not keep the order of `Object.keys`, because a Dafny map has no order. The keys are listed in any order. Only the set of keys and the absence of duplicates are stated.
- Keys that clash with property names of JavaScript's `Object.prototype` are not modelled. Keys built by `makeCardKey` can never clash, because each has a `-` right after its base and no such property name contains one. Only a key that reaches the map another way can clash: a list edited by hand under `shinydex:owned`, or a direct call such as `toggleOwnedByKey('__proto__')`. For such keys the model differs from the source: `out['__proto__'] = true` stores no own key, and `constructor` reads as a truthy value.
- `CardData.CardKeyInjective` is stated only for non-negative ids. With negative ids the key is not injective (see `CardData.NegativeIdCollides`).
- `IntToDecimal` renders every id as a plain integer. JavaScript switches to exponent notation from 10^21 up and prints fractions for non-integer numbers. Catalog ids are small non-negative integers.
- Only the failure of the `shinydex:owned` write is modelled, because only `saveOwned` catches it. An exception from `localStorage` in `setTheme`, `readStoredTheme` or `resolveInitialLocale` would escape to the caller, and the model does not cover it.
- `resolveInitialLocale` reads `window` and `navigator` without checking that they exist. The model reads the stored value from the storage and takes the language tag as an input.
- Races between browser tabs on the shared storage entry are not modelled. This is a concurrency concern that the code does not address.
- The catalog contents (`cards.json` and `sets.json`, src/data/index.ts:1-6) are not modelled. They are static data.
- The `WebTheme` enum is the same as `Theme.Theme`.
- `STORAGE_KEY` and `LANGUAGE_STORAGE_KEY` come from a `stores/constants` module that is not part of this model. Their values, `shinydex:owned` and `shinydex:locale`, are taken from src/data/constants.ts. The theme key `shinydex:theme` is defined in src/theme.ts:3.
- Per-card uniqueness of card keys is not promised. It depends on subset ids being distinct across the sets of the catalog, which the static data decides (see `CardData.SharedSubsetIdCollides`).
- A missing translation cannot be written in `LocalizedText`, because src/data/types.ts declares both `en` and `ja` as required strings. The `||` in `getLocalizedName` would fall back on an `undefined` entry just as it does on the empty string.
- The "system" theme in the comment at src/theme.ts:25 cannot occur, because `Theme` has only two members.
