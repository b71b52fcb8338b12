/**
 * hooks/use-metadata-toggle.ts: a boolean preference that starts `true`,
 * is loaded from browser storage when the component mounts, and is written
 * back whenever it is set. Browser storage is an object holding a map from
 * keys to strings.
 */
module MetadataToggle {

  /** The storage key of the preference. */
  const StorageKey: string := "showPhotoMetadata"

  /** `localStorage`: string values under string keys. */
  class Storage {
    var entries: map<string, string>

    constructor (entries: map<string, string>)
      ensures this.entries == entries
    {
      this.entries := entries;
    }
  }

  /** `String(value)` */
  function BoolToString(value: bool): (s: string)
    ensures s == "true" <==> value
    ensures s == "false" <==> !value
  {
    if value then "true" else "false"
  }

  /**
   * The mount-time load: a stored string replaces the current value by
   * whether it is exactly `"true"`; with nothing stored the value stays.
   */
  function LoadedPreference(current: bool, entries: map<string, string>): (value: bool)
    ensures StorageKey !in entries ==> value == current
    ensures StorageKey in entries ==> (value <==> entries[StorageKey] == "true")
  {
    if StorageKey in entries then entries[StorageKey] == "true" else current
  }

  /** The store after `localStorage.setItem("showPhotoMetadata", String(value))`. */
  function Stored(entries: map<string, string>, value: bool): (after: map<string, string>)
    ensures StorageKey in after && after[StorageKey] == BoolToString(value)
    ensures after.Keys == entries.Keys + {StorageKey}
    ensures forall k :: k in entries && k != StorageKey ==> after[k] == entries[k]
  {
    entries[StorageKey := BoolToString(value)]
  }

  /** Writing a value and loading it again gives that value, whatever the state before. */
  lemma StoreThenLoad(entries: map<string, string>, value: bool, current: bool)
    ensures LoadedPreference(current, Stored(entries, value)) == value
  {
  }

  /** Writing the same value twice leaves the store as writing it once. */
  lemma StoreIdempotent(entries: map<string, string>, value: bool)
    ensures Stored(Stored(entries, value), value) == Stored(entries, value)
  {
  }

  /** Any stored string other than `"true"`, including malformed ones, loads as `false`. */
  lemma OtherStringsLoadFalse(entries: map<string, string>, current: bool)
    requires StorageKey in entries && entries[StorageKey] != "true"
    ensures !LoadedPreference(current, entries)
  {
  }

  /** The state of one mounted `useMetadataToggle` hook. */
  class MetadataToggle {
    const storage: Storage
    var showMetadata: bool

    /** `useState(true)` */
    constructor (storage: Storage)
      ensures this.storage == storage && showMetadata
    {
      this.storage := storage;
      showMetadata := true;
    }

    /** The mount effect: `getItem`, and `setShowMetadata(stored === "true")` when something was stored. */
    method LoadOnMount()
      modifies this
      ensures showMetadata == LoadedPreference(old(showMetadata), storage.entries)
      ensures StorageKey !in storage.entries ==> showMetadata == old(showMetadata)
    {
      if StorageKey in storage.entries {
        var stored := storage.entries[StorageKey];
        showMetadata := stored == "true";
      }
    }

    /** `toggleMetadata(value)`: the state takes the value and the store the written form of it. */
    method ToggleMetadata(value: bool)
      modifies this, storage
      ensures showMetadata == value
      ensures storage.entries == Stored(old(storage.entries), value)
      ensures forall k :: k in old(storage.entries) && k != StorageKey ==>
        k in storage.entries && storage.entries[k] == old(storage.entries)[k]
    {
      showMetadata := value;
      storage.entries := storage.entries[StorageKey := BoolToString(value)];
    }
  }

  /**
   * A viewer sets the preference and is closed; the next one to mount over
   * the same storage starts from the value written last.
   */
  method ToggleThenRemount(storage: Storage, first: bool, last: bool) returns (reloaded: bool)
    modifies storage
    ensures reloaded == last
  {
    var hook := new MetadataToggle(storage);
    hook.LoadOnMount();
    hook.ToggleMetadata(first);
    hook.ToggleMetadata(last);
    var next := new MetadataToggle(storage);
    next.LoadOnMount();
    reloaded := next.showMetadata;
  }
}
