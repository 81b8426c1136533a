/** The key-value storages of src/middleware/persist.ts: the string-valued
    `StateStorage` (localStorage-like) and the `PersistStorage` that
    `createJSONStorage` builds over it. */
module Storage {
  import opened Values
  import opened Thenables

  /** A `StateStorage`: strings stored under names. */
  class StateStorage {
    var entries: map<string, string>

    constructor (initial: map<string, string>)
      ensures entries == initial
    {
      entries := initial;
    }

    /** `getItem(name)`: the stored string, or null. */
    function GetItem(name: string): Value
      reads this
    {
      if name in entries then Str(entries[name]) else Null
    }

    method SetItem(name: string, value: string)
      modifies this
      ensures entries == old(entries)[name := value]
    {
      entries := entries[name := value];
    }

    method RemoveItem(name: string)
      modifies this
      ensures entries == old(entries) - {name}
    {
      entries := entries - {name};
    }
  }

  /** `JSON.stringify` and `JSON.parse`, which this model leaves abstract:
      either may throw. */
  datatype Codec = Codec(stringify: Value -> Attempt<string>, parse: string -> Attempt<Value>)

  /** `codec` writes `v` and reads it back unchanged. */
  predicate RoundTrips(codec: Codec, v: Value) {
    codec.stringify(v).Returned? && codec.parse(codec.stringify(v).value) == Returned(v)
  }

  /** `getItem` of the JSON storage: absent is null, otherwise the parsed
      string (parsing may throw). */
  function ReadItem(entries: map<string, string>, codec: Codec, name: string): (r: Attempt<Value>)
    ensures name !in entries ==> r == Returned(Null)
    ensures name in entries ==> r == codec.parse(entries[name])
    ensures r.Threw? ==> name in entries && codec.parse(entries[name]) == r
  {
    if name in entries then codec.parse(entries[name]) else Returned(Null)
  }

  /** `setItem` of the JSON storage: the new entries, or the error that
      serialising threw (then nothing is written). */
  function WriteItem(entries: map<string, string>, codec: Codec, name: string, v: Value): (r: Attempt<map<string, string>>)
    ensures r.Returned? <==> codec.stringify(v).Returned?
    ensures r.Threw? ==> r.error == codec.stringify(v).error
    ensures r.Returned? ==> r.value.Keys == entries.Keys + {name} && r.value[name] == codec.stringify(v).value
    ensures r.Returned? ==> forall k :: k in entries && k != name ==> r.value[k] == entries[k]
  {
    match codec.stringify(v)
    case Returned(s) => Returned(entries[name := s])
    case Threw(e) => Threw(e)
  }

  /** The `PersistStorage` that `createJSONStorage` returns. */
  class JSONStorage {
    const raw: StateStorage
    const codec: Codec

    constructor (raw: StateStorage, codec: Codec)
      ensures this.raw == raw && this.codec == codec
    {
      this.raw := raw;
      this.codec := codec;
    }

    method SetItem(name: string, v: Value) returns (r: Attempt<()>)
      modifies raw
      ensures WriteItem(old(raw.entries), codec, name, v).Returned? ==>
                r == Returned(()) && raw.entries == WriteItem(old(raw.entries), codec, name, v).value
      ensures WriteItem(old(raw.entries), codec, name, v).Threw? ==>
                r == Threw(WriteItem(old(raw.entries), codec, name, v).error) && raw.entries == old(raw.entries)
    {
      match codec.stringify(v)
      case Returned(s) =>
        raw.SetItem(name, s);
        r := Returned(());
      case Threw(e) =>
        r := Threw(e);
    }

    method RemoveItem(name: string)
      modifies raw
      ensures raw.entries == old(raw.entries) - {name}
    {
      raw.RemoveItem(name);
    }
  }

  /** `createJSONStorage(getStorage)`: no storage when `getStorage` throws
      (as when rendering on a server), a JSON storage over it otherwise. */
  method CreateJSONStorage(getStorage: Attempt<StateStorage>, codec: Codec) returns (s: JSONStorage?)
    ensures getStorage.Threw? <==> s == null
    ensures s != null ==> fresh(s) && s.raw == getStorage.value && s.codec == codec
  {
    match getStorage
    case Threw(_) =>
      s := null;
    case Returned(raw) =>
      s := new JSONStorage(raw, codec);
  }

  /** What the JSON storage writes under a name, it reads back: a later
      write under the same name wins, and other names are not touched. */
  lemma ReadAfterWrite(entries: map<string, string>, codec: Codec, name: string, other: string, v: Value)
    requires RoundTrips(codec, v)
    ensures WriteItem(entries, codec, name, v).Returned?
    ensures ReadItem(WriteItem(entries, codec, name, v).value, codec, name) == Returned(v)
    ensures other != name ==> ReadItem(WriteItem(entries, codec, name, v).value, codec, other) == ReadItem(entries, codec, other)
  {
  }

  /** After `removeItem`, reading the name finds nothing. */
  lemma ReadAfterRemove(entries: map<string, string>, codec: Codec, name: string)
    ensures ReadItem(entries - {name}, codec, name) == Returned(Null)
  {
  }
}
