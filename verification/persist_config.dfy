/** The pure side of src/middleware/persist.ts: options and their defaults,
    the stored envelope, the version decision of `hydrate`, the default
    merge, and the hydration chain as one thenable. */
module PersistConfig {
  import opened Values
  import opened Thenables
  import opened Storage

  /** A hydration listener, known by identity. */
  type Listener = nat

  /** Resolved options (`{...defaults, ...baseOptions}`). `storage` belongs to
      the current implementation; `getStorage`, `serialize` and `deserialize`
      to the deprecated one. `merge` receives the reference a new object it
      builds may use; `onRehydrateStorage` says whether it hands back a
      post-rehydration callback. */
  datatype Options = Options(
    name: string,
    storage: JSONStorage?,
    getStorage: Option<Attempt<StateStorage?>>,
    serialize: Option<Value -> Attempt<string>>,
    deserialize: Option<string -> Attempt<Value>>,
    partialize: Value -> Value,
    version: int,
    merge: (Value, Value, nat) -> Value,
    migrate: Option<(Value, int) -> Attempt<Value>>,
    onRehydrateStorage: Option<Value -> bool>)

  /** Options as a caller passes them: `None` is a key that is absent. For
      `storage`, `Some(null)` is a key present with the value undefined. */
  datatype PartialOptions = PartialOptions(
    name: Option<string>,
    storage: Option<JSONStorage?>,
    getStorage: Option<Attempt<StateStorage?>>,
    serialize: Option<Value -> Attempt<string>>,
    deserialize: Option<string -> Attempt<Value>>,
    partialize: Option<Value -> Value>,
    version: Option<int>,
    merge: Option<(Value, Value, nat) -> Value>,
    migrate: Option<(Value, int) -> Attempt<Value>>,
    onRehydrateStorage: Option<Value -> bool>)

  function Pick<T>(given: Option<T>, current: T): T {
    if given.Some? then given.value else current
  }

  function PickOption<T>(given: Option<T>, current: Option<T>): Option<T> {
    if given.Some? then given else current
  }

  /** `{...options, ...newOptions}`: every key the caller gives wins. */
  function Override(o: Options, p: PartialOptions): Options {
    Options(
      Pick(p.name, o.name),
      Pick(p.storage, o.storage),
      PickOption(p.getStorage, o.getStorage),
      PickOption(p.serialize, o.serialize),
      PickOption(p.deserialize, o.deserialize),
      Pick(p.partialize, o.partialize),
      Pick(p.version, o.version),
      Pick(p.merge, o.merge),
      PickOption(p.migrate, o.migrate),
      PickOption(p.onRehydrateStorage, o.onRehydrateStorage))
  }

  /** `{...options, ...newOptions}` key by key: a given option wins, an
      absent one keeps the old value. */
  lemma OverrideFields(o: Options, p: PartialOptions)
    ensures p.name.Some? ==> Override(o, p).name == p.name.value
    ensures p.name.None? ==> Override(o, p).name == o.name
    ensures p.storage.Some? ==> Override(o, p).storage == p.storage.value
    ensures p.storage.None? ==> Override(o, p).storage == o.storage
    ensures Override(o, p).getStorage == if p.getStorage.Some? then p.getStorage else o.getStorage
    ensures Override(o, p).serialize == if p.serialize.Some? then p.serialize else o.serialize
    ensures Override(o, p).deserialize == if p.deserialize.Some? then p.deserialize else o.deserialize
    ensures p.partialize.Some? ==> Override(o, p).partialize == p.partialize.value
    ensures p.partialize.None? ==> Override(o, p).partialize == o.partialize
    ensures p.version.Some? ==> Override(o, p).version == p.version.value
    ensures p.version.None? ==> Override(o, p).version == o.version
    ensures p.merge.Some? ==> Override(o, p).merge == p.merge.value
    ensures p.merge.None? ==> Override(o, p).merge == o.merge
    ensures Override(o, p).migrate == if p.migrate.Some? then p.migrate else o.migrate
    ensures Override(o, p).onRehydrateStorage == if p.onRehydrateStorage.Some? then p.onRehydrateStorage else o.onRehydrateStorage
  {
  }

  /** Applying the same `setOptions` argument twice is the same as once, and
      an argument with no keys changes nothing. */
  lemma OverrideIdempotent(o: Options, p: PartialOptions)
    ensures Override(Override(o, p), p) == Override(o, p)
    ensures Override(o, PartialOptions(None, None, None, None, None, None, None, None, None, None)) == o
  {
  }

  /** The default `merge`: `{...currentState, ...persistedState}`. */
  function DefaultMerge(persisted: Value, current: Value, ref: nat): (r: Value)
    ensures r.Obj? && r.ref == ref
    ensures r.props.Keys == Props(current).Keys + Props(persisted).Keys
    ensures forall k :: k in Props(persisted) ==> r.props[k] == Props(persisted)[k]
    ensures forall k :: k in Props(current) && k !in Props(persisted) ==> r.props[k] == Props(current)[k]
  {
    Obj(ref, Props(current) + Props(persisted))
  }

  function Identity(v: Value): Value {
    v
  }

  /** The defaults of the current implementation (`newImpl`). */
  function Defaults(name: string, defaultStorage: JSONStorage?): Options {
    Options(name, defaultStorage, None, None, None, Identity, 0, DefaultMerge, None, None)
  }

  /** The defaults of the deprecated implementation (`oldImpl`), where the
      storage is a `getStorage` call and JSON is the serialiser. */
  function LegacyDefaults(name: string, localStorage: Attempt<StateStorage?>, json: Codec): Options {
    Options(name, null, Some(localStorage), Some(json.stringify), Some(json.parse), Identity, 0, DefaultMerge, None, None)
  }

  /** An empty set of caller options apart from the name. */
  function NameOnly(name: string): PartialOptions {
    PartialOptions(Some(name), None, None, None, None, None, None, None, None, None)
  }

  /** Without caller options, `partialize` keeps the whole state, the version
      is 0 and `merge` lets the persisted keys win over the current ones; every
      option a caller passes replaces its default. */
  lemma DefaultsAndOverrides(name: string, defaultStorage: JSONStorage?, p: PartialOptions, s: Value, c: Value, ref: nat)
    ensures var o := Override(Defaults(name, defaultStorage), NameOnly(name));
      o.name == name && o.storage == defaultStorage && o.partialize(s) == s && o.version == 0 &&
      o.merge(s, c, ref) == Obj(ref, Props(c) + Props(s)) && o.migrate.None? && o.onRehydrateStorage.None?
    ensures var o := Override(Defaults(name, defaultStorage), p);
      (p.partialize.Some? ==> o.partialize == p.partialize.value) &&
      (p.version.Some? ==> o.version == p.version.value) &&
      (p.merge.Some? ==> o.merge == p.merge.value) &&
      (p.migrate.Some? ==> o.migrate == p.migrate) &&
      (p.storage.Some? ==> o.storage == p.storage.value) &&
      (p.onRehydrateStorage.Some? ==> o.onRehydrateStorage == p.onRehydrateStorage)
  {
  }

  /** `persistImpl` falls back to the deprecated implementation when any of
      the keys `getStorage`, `serialize` or `deserialize` is given. */
  predicate UsesLegacyImpl(base: PartialOptions) {
    base.getStorage.Some? || base.serialize.Some? || base.deserialize.Some?
  }

  /** The envelope written to storage: `{state, version}`. */
  function Envelope(state: Value, version: int, ref: nat): Value {
    Obj(ref, map["state" := state, "version" := Num(version)])
  }

  /** What `setItem` writes for the state `state`:
      `{state: partialize({...state}), version}`; the copy takes reference
      `ref`, the envelope `ref + 1`. */
  function PersistedEnvelope(state: Value, o: Options, ref: nat): Value {
    Envelope(o.partialize(Spread(state, ref)), o.version, ref + 1)
  }

  /** The first `then` of `hydrate`: the stored state as-is when the stored
      version is missing or equal to the configured one; the migrated state
      when it is a different number and `migrate` exists; undefined when there
      is nothing stored or the state cannot be migrated. */
  function VersionStep(stored: Value, version: int, migrate: Option<(Value, int) -> Attempt<Value>>): (r: Attempt<Value>)
    ensures !Truthy(stored) ==> r == Returned(Undefined)
    ensures r.Threw? ==> migrate.Some? && MigrationNeeded(stored, version)
    ensures !MigrationNeeded(stored, version) ==> r.Returned?
    ensures MigrationNeeded(stored, version) && migrate.Some? ==>
      r == migrate.value(Get(stored, "state"), Get(stored, "version").n)
  {
    if !Truthy(stored) then Returned(Undefined)
    else
      var v := Get(stored, "version");
      if v.Num? && v.n != version then
        if migrate.Some? then migrate.value(Get(stored, "state"), v.n) else Returned(Undefined)
      else Returned(Get(stored, "state"))
  }

  /** A stored value whose `version` is a number other than the configured
      one: the case where `hydrate` turns to `migrate`. */
  predicate MigrationNeeded(stored: Value, version: int) {
    Truthy(stored) && Get(stored, "version").Num? && Get(stored, "version").n != version
  }

  /** The case where `hydrate` logs that no migrate function was provided. */
  predicate MissingMigration(stored: Value, version: int, migrate: Option<(Value, int) -> Attempt<Value>>) {
    MigrationNeeded(stored, version) && migrate.None?
  }

  /** `toThenable(storage.getItem)(name)` for a JSON storage. */
  function StoredThenable(entries: map<string, string>, codec: Codec, name: string): Thenable<Value> {
    ToThenable((n: string) => ReadItem(entries, codec, n), name)
  }

  function Migrated(read: Thenable<Value>, o: Options): Thenable<Value> {
    Then(read, (s: Value) => VersionStep(s, o.version, o.migrate))
  }

  predicate LogsMissingMigration(read: Thenable<Value>, o: Options) {
    read.Fulfilled? && MissingMigration(read.value, o.version, o.migrate)
  }

  /** `get() ?? configResult`: the state `merge` combines the stored one with. */
  function MergeTarget(current: Value, configResult: Value): Value {
    if Nullish(current) then configResult else current
  }

  /** The second `then` of `hydrate` for a JSON storage: merge, then write the
      merged state back; the chain carries the merged state on. The merged
      object takes reference `ref`; `set` consumes `ref + 1`. */
  function MergeStep(entries: map<string, string>, codec: Codec, o: Options, current: Value, configResult: Value, ref: nat, migrated: Value): Attempt<Value> {
    var merged := o.merge(migrated, MergeTarget(current, configResult), ref);
    match WriteItem(entries, codec, o.name, PersistedEnvelope(merged, o, ref + 2))
    case Returned(_) => Returned(merged)
    case Threw(e) => Threw(e)
  }

  /** The merge-and-write-back `then` applied to the migrated thenable. */
  function MergeThen(entries: map<string, string>, codec: Codec, o: Options, current: Value, configResult: Value, ref: nat, migrated: Thenable<Value>): Thenable<Value> {
    Then(migrated, (m: Value) => MergeStep(entries, codec, o, current, configResult, ref, m))
  }

  /** `hydrate` of the current implementation, up to its final `then`, as one
      thenable: fulfilled with the merged state, or rejected with the error of
      the step that failed. */
  function HydrationChain(entries: map<string, string>, codec: Codec, o: Options, current: Value, configResult: Value, ref: nat): (r: Thenable<Value>)
    ensures var m := Migrated(StoredThenable(entries, codec, o.name), o);
      r.Fulfilled? ==>
        m.Fulfilled? && r.value == o.merge(m.value, MergeTarget(current, configResult), ref) &&
        WriteItem(entries, codec, o.name, PersistedEnvelope(r.value, o, ref + 2)).Returned?
    ensures Migrated(StoredThenable(entries, codec, o.name), o).Rejected? ==>
      r == Migrated(StoredThenable(entries, codec, o.name), o)
  {
    MergeThen(entries, codec, o, current, configResult, ref, Migrated(StoredThenable(entries, codec, o.name), o))
  }

  datatype Phase = Started | Finished

  /** What the middleware makes observable besides state and storage. */
  datatype Event =
    | StorageUnavailable(name: string)
    | Notified(phase: Phase, listener: Listener, state: Value)
    | RehydrateStorageCalled(state: Value)
    | MigrationMissing
    | PostRehydration(state: Value, error: Value)
      /** `hasHydrated` set to `value`: what `persist.hasHydrated()` answers
          to every callback after this point. */
    | HydratedFlagSet(value: bool)

  /** `listeners.forEach(cb => cb(state))` over a set kept in insertion order. */
  function Announce(phase: Phase, listeners: seq<Listener>, state: Value): (r: seq<Event>)
    ensures |r| == |listeners|
    ensures forall i :: 0 <= i < |listeners| ==> r[i] == Notified(phase, listeners[i], state)
  {
    seq(|listeners|, i requires 0 <= i < |listeners| => Notified(phase, listeners[i], state))
  }

  /** `listeners.forEach(cb => cb(state))`: the notifications, in order. */
  method Notify(phase: Phase, listeners: seq<Listener>, state: Value) returns (notes: seq<Event>)
    ensures notes == Announce(phase, listeners, state)
  {
    notes := [];
    for i := 0 to |listeners|
      invariant notes == Announce(phase, listeners[..i], state)
    {
      assert Announce(phase, listeners[..i + 1], state) == Announce(phase, listeners[..i], state) + [Notified(phase, listeners[i], state)];
      notes := notes + [Notified(phase, listeners[i], state)];
    }
    assert listeners[..|listeners|] == listeners;
  }

  /** `set.add(l)` on a set kept in insertion order. */
  function Added(ls: seq<Listener>, l: Listener): (r: seq<Listener>)
    ensures Distinct(ls) ==> Distinct(r)
    ensures forall x :: x in r <==> x in ls || x == l
  {
    if l in ls then ls else ls + [l]
  }

  /** `set.delete(l)`. */
  function Deleted(ls: seq<Listener>, l: Listener): (r: seq<Listener>)
    ensures Distinct(ls) ==> Distinct(r)
    ensures forall x :: x in r <==> x in ls && x != l
    ensures |r| <= |ls|
  {
    if ls == [] then []
    else if ls[0] == l then Deleted(ls[1..], l)
    else
      var rest := Deleted(ls[1..], l);
      assert Distinct(ls) ==> ls[0] !in rest;
      [ls[0]] + rest
  }

  /** `forEach` over a set calls each member exactly once and nothing else. */
  lemma {:induction false} NotifiedOnce(phase: Phase, ls: seq<Listener>, l: Listener, s: Value)
    requires Distinct(ls)
    ensures multiset(Announce(phase, ls, s))[Notified(phase, l, s)] == if l in ls then 1 else 0
    decreases |ls|
  {
    if ls != [] {
      var tail := ls[1..];
      assert Distinct(tail) by {
        forall i, j | 0 <= i < j < |tail| ensures tail[i] != tail[j] {
          assert tail[i] == ls[i + 1] && tail[j] == ls[j + 1];
        }
      }
      NotifiedOnce(phase, tail, l, s);
      var head := Notified(phase, ls[0], s);
      assert Announce(phase, ls, s) == [head] + Announce(phase, tail, s);
      assert multiset(Announce(phase, ls, s)) == multiset{head} + multiset(Announce(phase, tail, s));
      assert l in ls <==> l == ls[0] || l in tail;
      assert ls[0] !in tail;
    }
  }

  /** A listener registered twice is notified once, and an unsubscribed one
      is not notified at all. */
  lemma ListenerRegistration(ls: seq<Listener>, l: Listener, phase: Phase, s: Value)
    requires Distinct(ls)
    ensures Added(Added(ls, l), l) == Added(ls, l)
    ensures |Announce(phase, Added(Added(ls, l), l), s)| == |Announce(phase, Added(ls, l), s)|
    ensures multiset(Announce(phase, Added(ls, l), s))[Notified(phase, l, s)] == 1
    ensures Notified(phase, l, s) !in Announce(phase, Deleted(ls, l), s)
  {
    NotifiedOnce(phase, Added(ls, l), l, s);
  }

  /** Whether `onRehydrateStorage(state)` hands back a post-rehydration callback. */
  predicate HasPostCallback(o: Options, state: Value) {
    o.onRehydrateStorage.Some? && o.onRehydrateStorage.value(state)
  }

  function PostCall(o: Options, current: Value, state: Value, error: Value): seq<Event> {
    if HasPostCallback(o, current) then [PostRehydration(state, error)] else []
  }

  /** What a hydration pass makes observable before storage is read:
      `hasHydrated` goes false, then the start listeners see the current
      state, then `onRehydrateStorage` is called. */
  function HydrationPrelude(o: Options, started: seq<Listener>, current: Value): seq<Event> {
    [HydratedFlagSet(false)] + Announce(Started, started, current)
    + (if o.onRehydrateStorage.Some? then [RehydrateStorageCalled(current)] else [])
  }

  /** What a hydration pass makes observable once its chain has settled: the
      post-rehydration callback with the merged state (still seeing
      `hasHydrated` false), then `hasHydrated` going true, then the finish
      listeners; or the post-rehydration callback with the error alone. */
  function HydrationEpilogue(o: Options, finished: seq<Listener>, current: Value, outcome: Thenable<Value>): seq<Event> {
    match outcome
    case Fulfilled(merged) => PostCall(o, current, merged, Undefined) + [HydratedFlagSet(true)] + Announce(Finished, finished, merged)
    case Rejected(e) => PostCall(o, current, Undefined, e)
  }

  /** The error logged when a stored state cannot be migrated. */
  function MigrationLog(read: Thenable<Value>, o: Options): seq<Event> {
    if LogsMissingMigration(read, o) then [MigrationMissing] else []
  }

  /** The version decision on a stored envelope: a numeric version different
      from the configured one goes to `migrate` if there is one, and is
      otherwise discarded with an error logged; a missing or equal version
      keeps the stored state unchanged; nothing stored gives undefined. */
  lemma VersionDecision(stored: Value, version: int, migrate: Option<(Value, int) -> Attempt<Value>>)
    ensures !Truthy(stored) ==> VersionStep(stored, version, migrate) == Returned(Undefined) && !MissingMigration(stored, version, migrate)
    ensures Truthy(stored) && Get(stored, "version").Num? && Get(stored, "version").n != version ==>
      if migrate.Some? then VersionStep(stored, version, migrate) == migrate.value(Get(stored, "state"), Get(stored, "version").n)
      else VersionStep(stored, version, migrate) == Returned(Undefined) && MissingMigration(stored, version, migrate)
    ensures Truthy(stored) && (!Get(stored, "version").Num? || Get(stored, "version").n == version) ==>
      VersionStep(stored, version, migrate) == Returned(Get(stored, "state")) && !MissingMigration(stored, version, migrate)
  {
  }

  /** When nothing is stored under the name, hydration merges undefined into
      the current state; with the default merge that keeps exactly the
      current state's properties. */
  lemma AbsentKeepsCurrent(entries: map<string, string>, codec: Codec, o: Options, current: Value, ref: nat)
    requires o.name !in entries
    ensures Migrated(StoredThenable(entries, codec, o.name), o) == Fulfilled(Undefined)
    ensures !LogsMissingMigration(StoredThenable(entries, codec, o.name), o)
    ensures Props(DefaultMerge(Undefined, current, ref)) == Props(current)
  {
  }

  /** Hydration fails exactly when reading or parsing the stored value
      throws, when `migrate` throws, or when writing the merged state back
      throws; otherwise it carries the merged state. */
  lemma HydrationChainCases(entries: map<string, string>, codec: Codec, o: Options, current: Value, configResult: Value, ref: nat)
    ensures var read := StoredThenable(entries, codec, o.name);
      var m := Migrated(read, o);
      var chain := HydrationChain(entries, codec, o, current, configResult, ref);
      (read.Rejected? ==> chain == read && m == read) &&
      (read.Fulfilled? && VersionStep(read.value, o.version, o.migrate).Threw? ==>
         chain == Rejected(VersionStep(read.value, o.version, o.migrate).error)) &&
      (m.Fulfilled? ==>
         var merged := o.merge(m.value, MergeTarget(current, configResult), ref);
         var w := WriteItem(entries, codec, o.name, PersistedEnvelope(merged, o, ref + 2));
         (w.Returned? ==> chain == Fulfilled(merged)) && (w.Threw? ==> chain == Rejected(w.error)))
  {
    var read := StoredThenable(entries, codec, o.name);
    var m := Migrated(read, o);
    assert HydrationChain(entries, codec, o, current, configResult, ref) == MergeThen(entries, codec, o, current, configResult, ref, m);
    if m.Fulfilled? {
      assert MergeThen(entries, codec, o, current, configResult, ref, m)
          == ToThenable((v: Value) => MergeStep(entries, codec, o, current, configResult, ref, v), m.value);
    }
  }

  /** Round trip: when the storage holds what `setItem` wrote for a state
      under the same options, hydration takes back `partialize` of a copy of
      that state, without migration and without an error logged. */
  lemma WrittenStateIsRehydrated(entries: map<string, string>, codec: Codec, o: Options, state: Value, ref: nat)
    requires RoundTrips(codec, PersistedEnvelope(state, o, ref))
    ensures var written := WriteItem(entries, codec, o.name, PersistedEnvelope(state, o, ref));
      written.Returned? &&
      Migrated(StoredThenable(written.value, codec, o.name), o) == Fulfilled(o.partialize(Spread(state, ref))) &&
      !LogsMissingMigration(StoredThenable(written.value, codec, o.name), o)
  {
  }

  /** With the default `partialize` and `merge`, a state written to storage
      and then rehydrated into the same state has exactly its properties:
      hydration after a write changes no content. */
  lemma RehydrateAfterWriteKeepsContent(entries: map<string, string>, codec: Codec, name: string, defaultStorage: JSONStorage?, state: Value, ref: nat, mergeRef: nat)
    requires RoundTrips(codec, PersistedEnvelope(state, Defaults(name, defaultStorage), ref))
    ensures var o := Defaults(name, defaultStorage);
      var written := WriteItem(entries, codec, name, PersistedEnvelope(state, o, ref));
      written.Returned? &&
      var m := Migrated(StoredThenable(written.value, codec, name), o);
      m.Fulfilled? && Props(o.merge(m.value, state, mergeRef)) == Props(state)
  {
  }

  /** Merging the same stored state twice gives the same properties as
      merging it once. */
  lemma DefaultMergeIdempotent(persisted: Value, current: Value, ref1: nat, ref2: nat)
    ensures Props(DefaultMerge(persisted, DefaultMerge(persisted, current, ref1), ref2)) == Props(DefaultMerge(persisted, current, ref1))
  {
  }
}
