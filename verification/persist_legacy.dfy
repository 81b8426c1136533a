/** `oldImpl` of src/middleware/persist.ts, the deprecated implementation
    selected when `getStorage`, `serialize` or `deserialize` is given: the
    same protocol over a string storage, with a serialise step on every write
    and a deserialise step on every read. */
module PersistLegacy {
  import opened Values
  import opened Thenables
  import opened Storage
  import opened VanillaStore
  import opened PersistConfig
  import Persist

  /** The `TypeError` thrown by `setItem` on a storage that a later
      `setOptions` made undefined. */
  const MissingStorage: Value := Str("TypeError: storage is undefined")

  /** `getStorage()` inside `try`: a throw means no storage. */
  function StorageFrom(got: Attempt<StateStorage?>): StateStorage? {
    match got
    case Returned(s) => s
    case Threw(_) => null
  }

  /** What the `catch` of `setItem` and the check after it make of an error:
      it is rethrown only when it is truthy. */
  function Rethrown(e: Value): Attempt<()> {
    if Truthy(e) then Threw(e) else Returned(())
  }

  /** `setItem`'s chain `serialize(envelope).then(storage.setItem)`: the
      entries afterwards and what `setItem` throws. A storage that is gone
      makes the second step throw a `TypeError`. */
  function LegacyWrite(hasStorage: bool, entries: map<string, string>, serialize: Value -> Attempt<string>, name: string, envelope: Value): (r: (map<string, string>, Attempt<()>))
    ensures hasStorage && serialize(envelope).Returned? ==> r == (entries[name := serialize(envelope).value], Returned(()))
    ensures r.0 != entries ==> hasStorage && serialize(envelope).Returned?
    ensures r.1.Threw? ==> Truthy(r.1.error) && r.0 == entries
    ensures serialize(envelope).Threw? && Truthy(serialize(envelope).error) ==> r == (entries, Threw(serialize(envelope).error))
    ensures !hasStorage && serialize(envelope).Returned? ==> r == (entries, Threw(MissingStorage))
  {
    match ToThenable(serialize, envelope)
    case Fulfilled(text) =>
      if hasStorage then (entries[name := text], Returned(())) else (entries, Rethrown(MissingStorage))
    case Rejected(e) => (entries, Rethrown(e))
  }

  /** `toThenable(storage.getItem)(name).then(deserialize if truthy)`: a
      missing entry and an empty string both give undefined. */
  function LegacyStored(entries: map<string, string>, deserialize: string -> Attempt<Value>, name: string): (r: Thenable<Value>)
    ensures name !in entries || entries[name] == "" ==> r == Fulfilled(Undefined)
    ensures r.Rejected? ==> name in entries && deserialize(entries[name]) == Threw(r.reason)
    ensures name in entries && entries[name] != "" ==> r == ToThenable(deserialize, entries[name])
  {
    Then(Fulfilled(if name in entries then Str(entries[name]) else Null),
         (raw: Value) => if Truthy(raw) && raw.Str? then deserialize(raw.s) else Returned(Undefined))
  }

  /** The merge-and-write-back `then` of the deprecated `hydrate`. */
  function LegacyMergeStep(entries: map<string, string>, serialize: Value -> Attempt<string>, o: Options, current: Value, configResult: Value, ref: nat, migrated: Value): Attempt<Value> {
    var merged := o.merge(migrated, MergeTarget(current, configResult), ref);
    var written := LegacyWrite(true, entries, serialize, o.name, PersistedEnvelope(merged, o, ref + 2));
    match written.1
    case Returned(_) => Returned(merged)
    case Threw(e) => Threw(e)
  }

  function LegacyMergeThen(entries: map<string, string>, serialize: Value -> Attempt<string>, o: Options, current: Value, configResult: Value, ref: nat, migrated: Thenable<Value>): Thenable<Value> {
    Then(migrated, (m: Value) => LegacyMergeStep(entries, serialize, o, current, configResult, ref, m))
  }

  /** The merge step on a fulfilled chain: the merged state, unless writing
      it back throws. */
  lemma LegacyMergeThenFulfilled(entries: map<string, string>, serialize: Value -> Attempt<string>, o: Options, current: Value, configResult: Value, ref: nat, v: Value)
    ensures var merged := o.merge(v, MergeTarget(current, configResult), ref);
      var w := LegacyWrite(true, entries, serialize, o.name, PersistedEnvelope(merged, o, ref + 2)).1;
      LegacyMergeThen(entries, serialize, o, current, configResult, ref, Fulfilled(v)) ==
        (if w.Returned? then Fulfilled(merged) else Rejected(w.error))
  {
  }

  /** The deprecated `hydrate`, up to its final `then`, as one thenable. */
  function LegacyHydrationChain(entries: map<string, string>, serialize: Value -> Attempt<string>, o: Options, current: Value, configResult: Value, ref: nat): Thenable<Value>
    requires o.deserialize.Some?
  {
    LegacyMergeThen(entries, serialize, o, current, configResult, ref, Migrated(LegacyStored(entries, o.deserialize.value, o.name), o))
  }

  /** The options `oldImpl` resolves from the caller's. */
  function LegacyResolved(base: PartialOptions, localStorage: Attempt<StateStorage?>, json: Codec): (o: Options)
    requires base.name.Some?
    ensures o.getStorage.Some? && o.serialize.Some? && o.deserialize.Some?
  {
    Override(LegacyDefaults(base.name.value, localStorage, json), base)
  }

  function RawEntries(s: StateStorage?): map<string, string>
    reads if s != null then {s} else {}
  {
    if s != null then s.entries else map[]
  }

  class LegacyPersistStore {
    const api: Store
    const configResult: Value
    const installed: bool
    /** `toThenable(options.serialize)`, fixed at construction. */
    const serializer: Value -> Attempt<string>
    var options: Options
    var storage: StateStorage?
    var hasHydrated: bool
    var stateFromStorage: Value
    var hydrationListeners: seq<Listener>
    var finishHydrationListeners: seq<Listener>
    var initialState: Value
    var events: seq<Event>

    ghost predicate Valid()
      reads this
    {
      options.getStorage.Some? && options.serialize.Some? && options.deserialize.Some? &&
      Distinct(hydrationListeners) && Distinct(finishHydrationListeners)
    }

    function Backing(): set<object>
      reads this`storage
    {
      if storage != null then {storage} else {}
    }

    /** What `setItem` does to `entries` for the state `state`. */
    function Write(entries: map<string, string>, state: Value, ref: nat): (map<string, string>, Attempt<()>)
      reads this`storage, this`options
    {
      LegacyWrite(storage != null, entries, serializer, options.name, PersistedEnvelope(state, options, ref))
    }

    /** What one deprecated `hydrate()` over a present storage leaves
        behind, started over the storage entries `entries`, the store state
        `current`, the next object reference `ref`, the `set` calls `calls`,
        the events `before` and the earlier `stateFromStorage` `previous`:
        `hasHydrated` is true exactly when the chain succeeded; the events
        are the prelude, the migration log and the epilogue; a migrated
        state is merged, installed by one replacing `set`, kept as
        `stateFromStorage` and passed to `setItem`; otherwise nothing of
        the store or the storage changes. */
    ghost predicate Hydrated(entries: map<string, string>, current: Value, ref: nat, calls: seq<SetCall>,
                             before: seq<Event>, previous: Value)
      reads this`storage, this`options, this`hasHydrated, this`stateFromStorage, this`events
      reads this`hydrationListeners, this`finishHydrationListeners, api, Backing()
      requires storage != null && options.deserialize.Some?
    {
      var read := LegacyStored(entries, options.deserialize.value, options.name);
      var m := Migrated(read, options);
      var chain := LegacyHydrationChain(entries, serializer, options, current, configResult, ref);
      hasHydrated == chain.Fulfilled? &&
      events == before + HydrationPrelude(options, hydrationListeners, current) + MigrationLog(read, options)
                + HydrationEpilogue(options, finishHydrationListeners, current, chain) &&
      (m.Fulfilled? ==>
         var merged := options.merge(m.value, MergeTarget(current, configResult), ref);
         api.state == merged && stateFromStorage == merged &&
         api.calls == calls + [SetCall(Replace(merged), true, Undefined)] &&
         storage.entries == Write(entries, merged, ref + 2).0) &&
      (m.Rejected? ==> api.state == current && stateFromStorage == previous &&
                       api.calls == calls && storage.entries == entries)
    }

    /** `oldImpl(config, baseOptions)(set, get, api)`: resolve the options,
        fetch the storage once, and with a storage hydrate at once; the
        initial state is `stateFromStorage || configResult`. */
    constructor (api: Store, configResult: Value, base: PartialOptions, localStorage: Attempt<StateStorage?>, json: Codec)
      requires base.name.Some?
      modifies api, if StorageFrom(LegacyResolved(base, localStorage, json).getStorage.value) != null
                    then {StorageFrom(LegacyResolved(base, localStorage, json).getStorage.value)} else {}
      ensures Valid()
      ensures this.api == api && this.configResult == configResult
      ensures options == LegacyResolved(base, localStorage, json)
      ensures storage == StorageFrom(options.getStorage.value) && installed == (storage != null)
      ensures serializer == options.serialize.value
      ensures hydrationListeners == [] && finishHydrationListeners == []
      ensures !installed ==> !hasHydrated && initialState == configResult && events == [] &&
                             api.state == old(api.state) && api.nextRef == old(api.nextRef) && api.calls == old(api.calls)
      ensures installed ==>
        storage != null &&
        Hydrated(old(RawEntries(StorageFrom(LegacyResolved(base, localStorage, json).getStorage.value))),
                 old(api.state), old(api.nextRef), old(api.calls), [], Undefined) &&
        initialState == (if Truthy(stateFromStorage) then stateFromStorage else configResult)
    {
      this.api := api;
      this.configResult := configResult;
      var o := LegacyResolved(base, localStorage, json);
      options := o;
      storage := StorageFrom(o.getStorage.value);
      installed := StorageFrom(o.getStorage.value) != null;
      serializer := o.serialize.value;
      hasHydrated := false;
      stateFromStorage := Undefined;
      hydrationListeners := [];
      finishHydrationListeners := [];
      events := [];
      initialState := configResult;
      new;
      if installed {
        ghost var entries := storage.entries;
        assert entries == old(RawEntries(StorageFrom(o.getStorage.value)));
        HydrateAtCreation();
      }
    }

    /** `setItem()`: serialise `{state: partialize({...get()}), version}` and
        store the string; a truthy error of either step is rethrown. */
    method SetItem() returns (r: Attempt<()>)
      requires Valid()
      modifies api`nextRef, Backing()
      ensures api.nextRef == old(api.nextRef) + 2
      ensures var w := Write(old(RawEntries(storage)), api.state, old(api.nextRef));
        r == w.1 && (storage != null ==> storage.entries == w.0)
    {
      var copyRef := api.Alloc();
      var envelopeRef := api.Alloc();
      var envelope := PersistedEnvelope(api.state, options, copyRef);
      assert envelope == Envelope(options.partialize(Spread(api.state, copyRef)), options.version, envelopeRef);
      var t := ToThenable(serializer, envelope);
      var chain: Thenable<()>;
      match t {
        case Fulfilled(text) =>
          if storage != null {
            storage.SetItem(options.name, text);
            chain := Fulfilled(());
          } else {
            chain := Rejected(MissingStorage);
          }
        case Rejected(e) =>
          chain := Rejected(e);
      }
      // the `catch` keeps the error, which is rethrown when it is truthy
      r := match chain
        case Fulfilled(_) => Returned(())
        case Rejected(e) => Rethrown(e);
    }

    /** The wrapped `api.setState(state, replace)`. */
    method SetState(u: Update, replace: bool) returns (r: Attempt<()>)
      requires Valid()
      modifies api, Backing()
      ensures api.state == NextState(old(api.state), u, replace, old(api.nextRef))
      ensures api.calls == old(api.calls) + [SetCall(u, replace, Undefined)]
      ensures installed ==>
        var w := Write(old(RawEntries(storage)), api.state, old(api.nextRef) + 1);
        r == w.1 && (storage != null ==> storage.entries == w.0)
      ensures !installed ==> r == Returned(()) && api.nextRef == old(api.nextRef) + 1 &&
                             (storage != null ==> storage.entries == old(storage.entries))
    {
      api.Set(u, replace, Undefined);
      if installed {
        r := SetItem();
      } else {
        r := Returned(());
      }
    }

    /** The `set` handed to the initializer: warns and applies the update
        when no storage was available, otherwise the same as `api.setState`. */
    method InitializerSet(u: Update, replace: bool, actionName: Value) returns (r: Attempt<()>)
      requires Valid()
      modifies this`events, api, Backing()
      ensures api.state == NextState(old(api.state), u, replace, old(api.nextRef))
      ensures api.calls == old(api.calls) + [SetCall(u, replace, actionName)]
      ensures installed ==>
        events == old(events) &&
        var w := Write(old(RawEntries(storage)), api.state, old(api.nextRef) + 1);
        r == w.1 && (storage != null ==> storage.entries == w.0)
      ensures !installed ==>
        events == old(events) + [StorageUnavailable(options.name)] && r == Returned(()) &&
        (storage != null ==> storage.entries == old(storage.entries))
    {
      if !installed {
        events := events + [StorageUnavailable(options.name)];
      }
      api.Set(u, replace, actionName);
      if installed {
        r := SetItem();
      } else {
        r := Returned(());
      }
    }

    method BeginHydration() returns (post: bool)
      modifies this`hasHydrated, this`events
      ensures !hasHydrated
      ensures post == HasPostCallback(options, api.state)
      ensures events == old(events) + HydrationPrelude(options, hydrationListeners, api.state)
    {
      hasHydrated := false;
      events := events + [HydratedFlagSet(false)];
      var started := Notify(Started, hydrationListeners, api.state);
      events := events + started;
      post := false;
      if options.onRehydrateStorage.Some? {
        events := events + [RehydrateStorageCalled(api.state)];
        post := options.onRehydrateStorage.value(api.state);
      }
    }

    /** Merge the migrated state into `get() ?? configResult`, replace the
        state with it and write it back. */
    method ApplyMigrated(m: Thenable<Value>) returns (chain: Thenable<Value>)
      requires Valid() && storage != null
      modifies this`stateFromStorage, api, storage
      ensures chain == LegacyMergeThen(old(storage.entries), serializer, options, old(api.state), configResult, old(api.nextRef), m)
      ensures m.Fulfilled? ==>
        var merged := options.merge(m.value, MergeTarget(old(api.state), configResult), old(api.nextRef));
        api.state == merged && stateFromStorage == merged &&
        api.calls == old(api.calls) + [SetCall(Replace(merged), true, Undefined)] &&
        storage.entries == Write(old(storage.entries), merged, old(api.nextRef) + 2).0
      ensures m.Rejected? ==> api.state == old(api.state) && stateFromStorage == old(stateFromStorage) &&
                              api.calls == old(api.calls) && storage.entries == old(storage.entries)
    {
      match m
      case Fulfilled(migrated) =>
        var current := api.state;
        ghost var entries := storage.entries;
        var ref := api.Alloc();
        var merged := options.merge(migrated, MergeTarget(current, configResult), ref);
        stateFromStorage := merged;
        api.Set(Replace(merged), true, Undefined);
        ReplaceLeavesValue(current, merged, ref + 1);
        assert api.state == merged && api.nextRef == ref + 2;
        assert RawEntries(storage) == entries;
        var w := SetItem();
        assert w == LegacyWrite(true, entries, serializer, options.name, PersistedEnvelope(merged, options, ref + 2)).1;
        LegacyMergeThenFulfilled(entries, serializer, options, current, configResult, ref, migrated);
        chain := match w case Returned(_) => Fulfilled(merged) case Threw(e) => Rejected(e);
        assert chain == LegacyMergeThen(entries, serializer, options, current, configResult, ref, m);
      case Rejected(e) =>
        chain := Rejected(e);
    }

    method FinishHydration(chain: Thenable<Value>, post: bool, current: Value)
      requires post == HasPostCallback(options, current)
      requires !hasHydrated
      modifies this`hasHydrated, this`events
      ensures hasHydrated == chain.Fulfilled?
      ensures events == old(events) + HydrationEpilogue(options, finishHydrationListeners, current, chain)
    {
      match chain
      case Fulfilled(merged) =>
        if post {
          events := events + [PostRehydration(merged, Undefined)];
        }
        hasHydrated := true;
        events := events + [HydratedFlagSet(true)];
        var finished := Notify(Finished, finishHydrationListeners, merged);
        events := events + finished;
      case Rejected(e) =>
        if post {
          events := events + [PostRehydration(Undefined, e)];
        }
    }

    /** The end of the middleware's body with a storage: `hydrate()`, then
        `return stateFromStorage || configResult`. */
    method HydrateAtCreation()
      requires Valid() && storage != null
      modifies this`hasHydrated, this`stateFromStorage, this`events, this`initialState, api, Backing()
      ensures Valid()
      ensures Hydrated(old(storage.entries), old(api.state), old(api.nextRef), old(api.calls), old(events), old(stateFromStorage))
      ensures initialState == if Truthy(stateFromStorage) then stateFromStorage else configResult
    {
      Hydrate();
      initialState := if Truthy(stateFromStorage) then stateFromStorage else configResult;
    }

    /** The deprecated `hydrate()`: nothing at all once the storage is gone;
        otherwise the same steps as the current one, reading through
        `deserialize` and writing through the serialiser. */
    method Hydrate()
      requires Valid()
      modifies this`hasHydrated, this`stateFromStorage, this`events, api, Backing()
      ensures Valid()
      ensures storage == null ==>
        hasHydrated == old(hasHydrated) && events == old(events) && api.state == old(api.state) &&
        stateFromStorage == old(stateFromStorage) && api.calls == old(api.calls) && api.nextRef == old(api.nextRef)
      ensures storage != null ==>
        Hydrated(old(storage.entries), old(api.state), old(api.nextRef), old(api.calls), old(events), old(stateFromStorage))
    {
      if storage == null {
        return;
      }
      var current := api.state;
      ghost var entries := storage.entries;
      ghost var ref := api.nextRef;
      var post := BeginHydration();
      var read := LegacyStored(storage.entries, options.deserialize.value, options.name);
      events := events + MigrationLog(read, options);
      var m := Migrated(read, options);
      var chain := ApplyMigrated(m);
      assert chain == LegacyHydrationChain(entries, serializer, options, current, configResult, ref);
      FinishHydration(chain, post, current);
    }

    /** `persist.rehydrate()`: the same hydration as at creation, from the
        current state, the current storage and the current listeners. */
    method Rehydrate()
      requires Valid() && installed
      modifies this`hasHydrated, this`stateFromStorage, this`events, api, Backing()
      ensures Valid()
      ensures storage == null ==>
        hasHydrated == old(hasHydrated) && events == old(events) && api.state == old(api.state) &&
        stateFromStorage == old(stateFromStorage) && api.calls == old(api.calls) && api.nextRef == old(api.nextRef)
      ensures storage != null ==>
        Hydrated(old(storage.entries), old(api.state), old(api.nextRef), old(api.calls), old(events), old(stateFromStorage))
    {
      Hydrate();
    }

    /** `persist.hasHydrated()`: whether the last hydration ran to its end. */
    function HasHydrated(): (r: bool)
      reads this`hasHydrated
      ensures r == hasHydrated
    {
      hasHydrated
    }

    /** `persist.getOptions()`: the options in force, as the last
        `setOptions` left them. */
    function GetOptions(): (r: Options)
      reads this
      requires Valid()
      ensures r.getStorage.Some? && r.serialize.Some? && r.deserialize.Some?
      ensures r == options
    {
      options
    }

    /** `persist.setOptions(newOptions)`: merge the options in; a given
        `getStorage` is called at once and what it returns becomes the
        storage, which may be none. A throw from it leaves the storage as it
        was and propagates. */
    method SetOptions(newOptions: PartialOptions) returns (r: Attempt<()>)
      requires Valid() && installed
      modifies this`options, this`storage
      ensures Valid()
      ensures options == Override(old(options), newOptions)
      ensures newOptions.getStorage.None? ==> storage == old(storage) && r == Returned(())
      ensures newOptions.getStorage.Some? ==>
        match newOptions.getStorage.value
        case Returned(s) => storage == s && r == Returned(())
        case Threw(e) => storage == old(storage) && r == Threw(e)
    {
      options := Override(options, newOptions);
      r := Returned(());
      if newOptions.getStorage.Some? {
        match newOptions.getStorage.value
        case Returned(s) =>
          storage := s;
        case Threw(e) =>
          r := Threw(e);
      }
    }

    /** `persist.clearStorage()`: `storage?.removeItem(name)`. */
    method ClearStorage()
      requires Valid() && installed
      modifies Backing()
      ensures storage != null ==> storage.entries == old(storage.entries) - {options.name}
    {
      if storage != null {
        storage.RemoveItem(options.name);
      }
    }

    method OnHydrate(l: Listener)
      requires Valid() && installed
      modifies this`hydrationListeners
      ensures Valid()
      ensures hydrationListeners == Added(old(hydrationListeners), l)
    {
      hydrationListeners := Added(hydrationListeners, l);
    }

    method UnsubscribeHydrate(l: Listener)
      requires Valid() && installed
      modifies this`hydrationListeners
      ensures Valid()
      ensures hydrationListeners == Deleted(old(hydrationListeners), l)
    {
      hydrationListeners := Deleted(hydrationListeners, l);
    }

    method OnFinishHydration(l: Listener)
      requires Valid() && installed
      modifies this`finishHydrationListeners
      ensures Valid()
      ensures finishHydrationListeners == Added(old(finishHydrationListeners), l)
    {
      finishHydrationListeners := Added(finishHydrationListeners, l);
    }

    method UnsubscribeFinishHydration(l: Listener)
      requires Valid() && installed
      modifies this`finishHydrationListeners
      ensures Valid()
      ensures finishHydrationListeners == Deleted(old(finishHydrationListeners), l)
    {
      finishHydrationListeners := Deleted(finishHydrationListeners, l);
    }
  }

  /** Where the two implementations differ on reading: the deprecated one
      treats an empty stored string as nothing stored, while the JSON storage
      hands it to the parser. */
  lemma EmptyStringIsAbsent(entries: map<string, string>, codec: Codec, name: string)
    requires name in entries && entries[name] == ""
    ensures LegacyStored(entries, codec.parse, name) == Fulfilled(Undefined)
    ensures StoredThenable(entries, codec, name) == ToThenable(codec.parse, "")
  {
  }

  /** A serialiser that throws a falsy value does not make `setItem` throw:
      the error is swallowed and nothing is written. */
  lemma FalsyErrorSwallowed(hasStorage: bool, entries: map<string, string>, serialize: Value -> Attempt<string>, name: string, envelope: Value)
    requires serialize(envelope).Threw? && !Truthy(serialize(envelope).error)
    ensures LegacyWrite(hasStorage, entries, serialize, name, envelope) == (entries, Returned(()))
  {
  }

  /** Round trip through the deprecated implementation: what `setItem` wrote
      with a serialiser that `deserialize` inverts (and that never writes an
      empty string) is rehydrated as `partialize` of a copy of the state. */
  lemma LegacyWrittenStateIsRehydrated(entries: map<string, string>, o: Options, state: Value, ref: nat)
    requires o.serialize.Some? && o.deserialize.Some?
    requires var env := PersistedEnvelope(state, o, ref);
      o.serialize.value(env).Returned? && o.serialize.value(env).value != "" &&
      o.deserialize.value(o.serialize.value(env).value) == Returned(env)
    ensures var written := LegacyWrite(true, entries, o.serialize.value, o.name, PersistedEnvelope(state, o, ref));
      written.1 == Returned(()) &&
      Migrated(LegacyStored(written.0, o.deserialize.value, o.name), o) == Fulfilled(o.partialize(Spread(state, ref)))
  {
  }

  /** `oldImpl` wrapped around a fresh store: the store keeps
      `stateFromStorage || configResult` as its initial state. */
  method CreateLegacyPersistedStore(configResult: Value, base: PartialOptions, localStorage: Attempt<StateStorage?>, json: Codec)
    returns (api: Store, p: LegacyPersistStore)
    requires base.name.Some?
    modifies if StorageFrom(LegacyResolved(base, localStorage, json).getStorage.value) != null
             then {StorageFrom(LegacyResolved(base, localStorage, json).getStorage.value)} else {}
    ensures fresh(api) && fresh(p) && p.api == api && p.Valid()
    ensures p.installed == (StorageFrom(LegacyResolved(base, localStorage, json).getStorage.value) != null)
    ensures api.state == p.initialState && p.options == LegacyResolved(base, localStorage, json)
    ensures p.installed == (p.storage != null)
    ensures p.installed ==>
      var entries := old(RawEntries(StorageFrom(LegacyResolved(base, localStorage, json).getStorage.value)));
      var read := LegacyStored(entries, p.options.deserialize.value, p.options.name);
      var m := Migrated(read, p.options);
      var chain := LegacyHydrationChain(entries, p.serializer, p.options, Undefined, configResult, 0);
      p.hasHydrated == chain.Fulfilled? &&
      p.events == HydrationPrelude(p.options, [], Undefined) + MigrationLog(read, p.options)
                  + HydrationEpilogue(p.options, [], Undefined, chain) &&
      (m.Fulfilled? ==>
         var merged := p.options.merge(m.value, MergeTarget(Undefined, configResult), 0);
         p.stateFromStorage == merged && api.calls == [SetCall(Replace(merged), true, Undefined)] &&
         p.storage.entries == p.Write(entries, merged, 2).0) &&
      (m.Rejected? ==> p.stateFromStorage == Undefined && api.calls == [] && p.storage.entries == entries) &&
      api.state == (if Truthy(p.stateFromStorage) then p.stateFromStorage else configResult)
    ensures !p.installed ==> api.state == configResult && !p.hasHydrated && p.events == [] && api.calls == []
  {
    api := new Store();
    p := new LegacyPersistStore(api, configResult, base, localStorage, json);
    if p.installed {
      ghost var prelude := HydrationPrelude(p.options, [], Undefined);
      assert [] + prelude == prelude;
    }
    api.Initialize(p.initialState);
  }

  /** Which implementation `persistImpl` runs. */
  datatype Implementation = Current(store: Persist.PersistStore) | Deprecated(legacy: LegacyPersistStore)

  /** `persistImpl`: the deprecated implementation exactly when one of its
      own option keys is present, the current one otherwise. */
  method PersistImpl(configResult: Value, base: PartialOptions, defaultStorage: JSONStorage?, localStorage: Attempt<StateStorage?>, json: Codec)
    returns (api: Store, impl: Implementation)
    requires base.name.Some?
    modifies if UsesLegacyImpl(base) then
               (if StorageFrom(LegacyResolved(base, localStorage, json).getStorage.value) != null
                then {StorageFrom(LegacyResolved(base, localStorage, json).getStorage.value)} else {})
             else
               (if Persist.Resolved(base, defaultStorage).storage != null
                then {Persist.Resolved(base, defaultStorage).storage.raw} else {})
    ensures impl.Deprecated? <==> UsesLegacyImpl(base)
    ensures fresh(api)
    ensures impl.Current? ==> fresh(impl.store) && impl.store.api == api && api.state == impl.store.initialState &&
                              impl.store.options == Persist.Resolved(base, defaultStorage)
    ensures impl.Deprecated? ==> fresh(impl.legacy) && impl.legacy.api == api && api.state == impl.legacy.initialState &&
                                 impl.legacy.options == LegacyResolved(base, localStorage, json)
  {
    if UsesLegacyImpl(base) {
      var p;
      api, p := CreateLegacyPersistedStore(configResult, base, localStorage, json);
      impl := Deprecated(p);
    } else {
      var p;
      api, p := Persist.CreatePersistedStore(configResult, base, defaultStorage);
      impl := Current(p);
    }
  }
}
