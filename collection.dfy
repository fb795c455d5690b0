/**
 * The owned-card collection store (src/stores/collection.ts): a map from
 * card key to owned flag, loaded once from local storage, where it is kept
 * as the list of owned keys, and written back whole after every toggle.
 */
module Collection {
  import opened WebStorage
  import opened CardData

  /** `OwnedByKey`: card key to owned flag; a missing key reads as not owned. */
  type OwnedByKey = map<string, bool>

  /** `m[key] ?? false` */
  function IsOwned(m: OwnedByKey, key: string): (r: bool)
    ensures key !in m ==> !r
    ensures key in m ==> r == m[key]
  {
    if key in m then m[key] else false
  }

  /** The keys that are owned in `m`: those mapped to `true`. */
  function OwnedKeys(m: OwnedByKey): (s: set<string>)
    ensures forall k :: k in s <==> IsOwned(m, k)
  {
    set k | k in m && m[k]
  }

  predicate NoDuplicates(s: seq<string>)
  {
    forall i, j :: 0 <= i < j < |s| ==> s[i] != s[j]
  }

  /** The map `loadOwned` builds from a payload: every listed key owned, nothing else present. */
  function LoadedMap(p: Payload): (m: OwnedByKey)
    ensures forall k :: k in m <==> p.Array? && k in p.keys
    ensures forall k :: k in m ==> m[k]
  {
    if p.Array? then map k | k in p.keys :: true else map[]
  }

  /**
   * `loadOwned`: an absent or empty entry, text that does not parse and a
   * value that is not an array all give the empty map; an array marks each
   * of its keys as owned, one after another.
   */
  method LoadOwned(raw: Payload) returns (out: OwnedByKey)
    ensures out == LoadedMap(raw)
  {
    match raw
    case Absent => out := map[];
    case EmptyText => out := map[];
    case Malformed => out := map[];
    case NonArray => out := map[];
    case Array(keys) =>
      out := map[];
      for i := 0 to |keys|
        invariant forall k :: k in out <==> k in keys[..i]
        invariant forall k :: k in out ==> out[k]
      {
        assert keys[..i + 1] == keys[..i] + [keys[i]];
        out := out[keys[i] := true];
      }
      assert keys[..|keys|] == keys;
  }

  /**
   * `Object.keys(data).filter((k) => data[k])`: every owned key once. The
   * order of `Object.keys` is not modelled; the keys are taken in any order.
   */
  method OwnedKeyList(data: OwnedByKey) returns (keys: seq<string>)
    ensures forall k :: k in keys <==> k in OwnedKeys(data)
    ensures NoDuplicates(keys)
  {
    keys := [];
    var rest := data.Keys;
    while rest != {}
      invariant rest <= data.Keys
      invariant forall k :: k in keys <==> k in OwnedKeys(data) && k !in rest
      invariant NoDuplicates(keys)
      decreases rest
    {
      var k :| k in rest;
      if data[k] {
        keys := keys + [k];
      }
      rest := rest - {k};
    }
  }

  /**
   * `saveOwned`: writes the list of owned keys under `shinydex:owned`. A
   * write that fails (`writeSucceeds` false) is swallowed and leaves the
   * entry as it was; no other entry of the storage is touched.
   */
  method SaveOwned(storage: LocalStorage, data: OwnedByKey, writeSucceeds: bool)
    modifies storage`owned
    ensures writeSucceeds ==> storage.owned.Array? && NoDuplicates(storage.owned.keys)
    ensures writeSucceeds ==> forall k :: k in storage.owned.keys <==> IsOwned(data, k)
    ensures !writeSucceeds ==> storage.owned == old(storage.owned)
  {
    var keys := OwnedKeyList(data);
    if writeSucceeds {
      storage.owned := Array(keys);
    }
  }

  /** The map after flipping `key`; an absent key flips from not owned to owned. */
  function Toggled(m: OwnedByKey, key: string): (r: OwnedByKey)
    ensures r.Keys == m.Keys + {key}
    ensures IsOwned(r, key) == !IsOwned(m, key)
    ensures forall k :: k != key && k in m ==> r[k] == m[k]
  {
    m[key := !IsOwned(m, key)]
  }

  /** Saving writes the owned keys; loading what was written gives back the same ownership of every key. */
  lemma SaveLoadRoundTrip(m: OwnedByKey, keys: seq<string>)
    requires forall k :: k in keys <==> IsOwned(m, k)
    ensures forall k :: IsOwned(LoadedMap(Array(keys)), k) == IsOwned(m, k)
    ensures OwnedKeys(LoadedMap(Array(keys))) == OwnedKeys(m)
  {
  }

  /** Each key cycles unowned and owned independently: flipping it twice restores its state, and every other key's. */
  lemma ToggleTwice(m: OwnedByKey, key: string)
    ensures forall k :: IsOwned(Toggled(Toggled(m, key), key), k) == IsOwned(m, k)
    ensures Toggled(Toggled(m, key), key) == m[key := IsOwned(m, key)]
  {
  }

  /** Flipping a key adds it to or removes it from the owned keys, which are what gets written. */
  lemma ToggledOwnedKeys(m: OwnedByKey, key: string)
    ensures OwnedKeys(Toggled(m, key)) ==
      if IsOwned(m, key) then OwnedKeys(m) - {key} else OwnedKeys(m) + {key}
  {
  }

  /** The store created by `useCollectionStore`, with its state and actions. */
  class CollectionStore {
    var ownedByKey: OwnedByKey
    const storage: LocalStorage

    /** `state: () => ({ ownedByKey: loadOwned() })` */
    constructor (storage: LocalStorage)
      ensures this.storage == storage
      ensures ownedByKey == LoadedMap(storage.owned)
    {
      var loaded := LoadOwned(storage.owned);
      this.storage := storage;
      ownedByKey := loaded;
    }

    /** `isOwnedByKey`: a key is owned when it is among the keys a save would write. */
    function IsOwnedByKey(key: string): (r: bool)
      reads this
      ensures r <==> key in OwnedKeys(ownedByKey)
      ensures key !in ownedByKey ==> !r
    {
      IsOwned(ownedByKey, key)
    }

    /** `isOwnedByParts`: ownership of the card whose key the parts derive. */
    function IsOwnedByParts(parts: CardKeyParts): (r: bool)
      reads this
      ensures r <==> MakeCardKey(parts) in OwnedKeys(ownedByKey)
      ensures r == IsOwnedByKey(MakeCardKey(parts))
    {
      IsOwned(ownedByKey, MakeCardKey(parts))
    }

    /**
     * `toggleOwnedByKey`: flips `key` in place and immediately writes the
     * whole map back; if the write fails, the storage keeps its old entry
     * while the in-memory map is still updated.
     */
    method ToggleOwnedByKey(key: string, writeSucceeds: bool)
      modifies this`ownedByKey, storage`owned
      ensures ownedByKey == Toggled(old(ownedByKey), key)
      ensures writeSucceeds ==> storage.owned.Array? && NoDuplicates(storage.owned.keys)
      ensures writeSucceeds ==> forall k :: k in storage.owned.keys <==> IsOwnedByKey(k)
      ensures !writeSucceeds ==> storage.owned == old(storage.owned)
    {
      var current := IsOwned(ownedByKey, key);
      ownedByKey := ownedByKey[key := !current];
      SaveOwned(storage, ownedByKey, writeSucceeds);
    }
  }

  /**
   * A toggle followed by a fresh store on the same storage: the flag is
   * flipped in memory, and a successful write makes the new store agree with
   * the old one on every key.
   */
  method ToggleSurvivesReload(storage: LocalStorage, key: string) returns (before: bool, after: bool, reloaded: bool)
    modifies storage`owned
    ensures before == IsOwned(LoadedMap(old(storage.owned)), key)
    ensures after == !before
    ensures reloaded == after
    ensures forall k :: IsOwned(LoadedMap(storage.owned), k) == IsOwned(Toggled(LoadedMap(old(storage.owned)), key), k)
  {
    var store := new CollectionStore(storage);
    before := store.IsOwnedByKey(key);
    store.ToggleOwnedByKey(key, true);
    after := store.IsOwnedByKey(key);
    SaveLoadRoundTrip(store.ownedByKey, storage.owned.keys);
    var reopened := new CollectionStore(storage);
    reloaded := reopened.IsOwnedByKey(key);
  }
}
