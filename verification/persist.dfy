/** The closure state of `newImpl` in src/middleware/persist.ts: the
    `setState` wrappers that write every update to storage, `hydrate`, and
    the `persist` API object. */
module Persist {
  import opened Values
  import opened Thenables
  import opened Storage
  import opened VanillaStore
  import opened PersistConfig

  /** The options `newImpl` resolves from the caller's. */
  function Resolved(base: PartialOptions, defaultStorage: JSONStorage?): Options
    requires base.name.Some?
  {
    Override(Defaults(base.name.value, defaultStorage), base)
  }

  /** The storage entries `newImpl` would read, before it runs. */
  function EntriesOf(s: JSONStorage?): map<string, string>
    reads if s != null then {s.raw} else {}
  {
    if s != null then s.raw.entries else map[]
  }

  class PersistStore {
    const api: Store
    /** What the wrapped initializer `config` returned. */
    const configResult: Value
    /** Whether a storage was available at construction; without one the
        middleware only warns and `api.persist` is not installed. */
    const installed: bool
    var options: Options
    var storage: JSONStorage?
    var hasHydrated: bool
    var stateFromStorage: Value
    var hydrationListeners: seq<Listener>
    var finishHydrationListeners: seq<Listener>
    /** What the store is created with: `stateFromStorage || configResult`. */
    var initialState: Value
    var events: seq<Event>

    ghost predicate Valid()
      reads this
    {
      (installed ==> storage != null) &&
      Distinct(hydrationListeners) && Distinct(finishHydrationListeners)
    }

    /** The storage object a method may write to. */
    function Backing(): set<object>
      reads this`storage
    {
      if storage != null then {storage.raw} else {}
    }

    /** The current envelope writes, as a function of the entries before. */
    function Write(entries: map<string, string>, state: Value, ref: nat): Attempt<map<string, string>>
      reads this`storage, this`options
      requires storage != null
    {
      WriteItem(entries, storage.codec, options.name, PersistedEnvelope(state, options, ref))
    }

    /** The storage holds what `setItem` writes for `state` over `before`. */
    ghost predicate WroteBack(before: map<string, string>, state: Value, ref: nat)
      reads this`storage, this`options, Backing()
      requires storage != null
    {
      var w := Write(before, state, ref);
      w.Returned? && storage.raw.entries == w.value
    }

    /** What one `hydrate()` leaves behind, started over the storage entries
        `entries`, the store state `current`, the next object reference
        `ref`, the `set` calls `calls`, the events `before` and the earlier
        `stateFromStorage` `previous`: `hasHydrated` is true exactly when
        the chain succeeded; the events are the prelude, the migration log
        and the epilogue; a migrated state is merged, installed by one
        replacing `set` and kept as `stateFromStorage`; a successful chain
        wrote the merged state back, a failed one left the storage alone. */
    ghost predicate Hydrated(entries: map<string, string>, current: Value, ref: nat, calls: seq<SetCall>,
                             before: seq<Event>, previous: Value)
      reads this`storage, this`options, this`hasHydrated, this`stateFromStorage, this`events
      reads this`hydrationListeners, this`finishHydrationListeners, api, Backing()
      requires storage != null
    {
      var read := StoredThenable(entries, storage.codec, options.name);
      var m := Migrated(read, options);
      var chain := HydrationChain(entries, storage.codec, options, current, configResult, ref);
      hasHydrated == chain.Fulfilled? &&
      events == before + HydrationPrelude(options, hydrationListeners, current) + MigrationLog(read, options)
                + HydrationEpilogue(options, finishHydrationListeners, current, chain) &&
      (m.Fulfilled? ==>
         var merged := options.merge(m.value, MergeTarget(current, configResult), ref);
         api.state == merged && stateFromStorage == merged &&
         api.calls == calls + [SetCall(Replace(merged), true, Undefined)]) &&
      (m.Rejected? ==> api.state == current && stateFromStorage == previous && api.calls == calls) &&
      (chain.Fulfilled? ==> WroteBack(entries, chain.value, ref + 2)) &&
      (chain.Rejected? ==> storage.raw.entries == entries)
    }

    /** `persist(config, baseOptions)(set, get, api)`: resolve the options,
        and with a storage hydrate at once. */
    constructor (api: Store, configResult: Value, base: PartialOptions, defaultStorage: JSONStorage?)
      requires base.name.Some?
      modifies api, if Resolved(base, defaultStorage).storage != null then {Resolved(base, defaultStorage).storage.raw} else {}
      ensures Valid()
      ensures this.api == api && this.configResult == configResult
      ensures options == Resolved(base, defaultStorage)
      ensures storage == options.storage && installed == (storage != null)
      ensures hydrationListeners == [] && finishHydrationListeners == []
      ensures !installed ==> !hasHydrated && initialState == configResult && events == [] &&
                             api.state == old(api.state) && api.nextRef == old(api.nextRef) && api.calls == old(api.calls)
      ensures installed ==>
        Hydrated(old(EntriesOf(Resolved(base, defaultStorage).storage)), old(api.state), old(api.nextRef), old(api.calls), [], Undefined) &&
        initialState == (if Truthy(stateFromStorage) then stateFromStorage else configResult)
    {
      this.api := api;
      this.configResult := configResult;
      var o := Resolved(base, defaultStorage);
      options := o;
      storage := o.storage;
      installed := o.storage != null;
      hasHydrated := false;
      stateFromStorage := Undefined;
      hydrationListeners := [];
      finishHydrationListeners := [];
      events := [];
      initialState := configResult;
      new;
      if installed {
        ghost var entries := storage.raw.entries;
        assert entries == old(EntriesOf(o.storage));
        HydrateAtCreation();
      }
    }

    /** `setItem()`: write `{state: partialize({...get()}), version}` under
        the name. Serialising may throw; then nothing is written. */
    method SetItem() returns (r: Attempt<()>)
      requires Valid() && storage != null
      modifies api`nextRef, storage.raw
      ensures api.nextRef == old(api.nextRef) + 2
      ensures var w := Write(old(storage.raw.entries), api.state, old(api.nextRef));
        (w.Returned? ==> r == Returned(()) && storage.raw.entries == w.value) &&
        (w.Threw? ==> r == Threw(w.error) && storage.raw.entries == old(storage.raw.entries))
    {
      var copyRef := api.Alloc();
      var envelopeRef := api.Alloc();
      assert envelopeRef == copyRef + 1;
      r := storage.SetItem(options.name, PersistedEnvelope(api.state, options, copyRef));
    }

    /** The wrapped `api.setState(state, replace)`: apply the update, then
        write the new state to storage. Without a storage `api.setState` is
        left as it was. */
    method SetState(u: Update, replace: bool) returns (r: Attempt<()>)
      requires Valid()
      modifies api, Backing()
      ensures api.state == NextState(old(api.state), u, replace, old(api.nextRef))
      ensures api.calls == old(api.calls) + [SetCall(u, replace, Undefined)]
      ensures installed ==>
        var w := Write(old(storage.raw.entries), api.state, old(api.nextRef) + 1);
        (w.Returned? ==> r == Returned(()) && storage.raw.entries == w.value) &&
        (w.Threw? ==> r == Threw(w.error) && storage.raw.entries == old(storage.raw.entries))
      ensures !installed ==> r == Returned(()) && api.nextRef == old(api.nextRef) + 1 &&
                             (storage != null ==> storage.raw.entries == old(storage.raw.entries))
    {
      api.Set(u, replace, Undefined);
      if installed {
        r := SetItem();
      } else {
        r := Returned(());
      }
    }

    /** The `set` handed to the initializer. With a storage it is the same
        as `api.setState`; without one it warns and then applies the update,
        and storage is never touched. */
    method InitializerSet(u: Update, replace: bool, actionName: Value) returns (r: Attempt<()>)
      requires Valid()
      modifies this`events, api, Backing()
      ensures api.state == NextState(old(api.state), u, replace, old(api.nextRef))
      ensures api.calls == old(api.calls) + [SetCall(u, replace, actionName)]
      ensures installed ==>
        events == old(events) &&
        var w := Write(old(storage.raw.entries), api.state, old(api.nextRef) + 1);
        (w.Returned? ==> r == Returned(()) && storage.raw.entries == w.value) &&
        (w.Threw? ==> r == Threw(w.error) && storage.raw.entries == old(storage.raw.entries))
      ensures !installed ==>
        events == old(events) + [StorageUnavailable(options.name)] && r == Returned(()) &&
        (storage != null ==> storage.raw.entries == old(storage.raw.entries))
    {
      if !installed {
        events := events + [StorageUnavailable(options.name)];
      }
      api.Set(u, replace, actionName);
      if installed {
        r := SetItem();
      } else {
        r := Returned(());
      }
    }

    /** The part of `hydrate()` before storage is read: `hasHydrated` goes
        false, the start listeners see the current state, and
        `onRehydrateStorage` is called with it. */
    method BeginHydration() returns (post: bool)
      modifies this`hasHydrated, this`events
      ensures !hasHydrated
      ensures post == HasPostCallback(options, api.state)
      ensures events == old(events) + HydrationPrelude(options, hydrationListeners, api.state)
    {
      hasHydrated := false;
      events := events + [HydratedFlagSet(false)];
      var started := Notify(Started, hydrationListeners, api.state);
      events := events + started;
      post := false;
      if options.onRehydrateStorage.Some? {
        events := events + [RehydrateStorageCalled(api.state)];
        post := options.onRehydrateStorage.value(api.state);
      }
    }

    /** The `then` of `hydrate()` that merges the migrated state into
        `get() ?? configResult`, replaces the state with it and writes it
        back; it does nothing on a rejected chain. */
    method ApplyMigrated(m: Thenable<Value>) returns (chain: Thenable<Value>)
      requires Valid() && storage != null
      modifies this`stateFromStorage, api, storage.raw
      ensures chain == MergeThen(old(storage.raw.entries), storage.codec, options, old(api.state), configResult, old(api.nextRef), m)
      ensures m.Fulfilled? ==>
        var merged := options.merge(m.value, MergeTarget(old(api.state), configResult), old(api.nextRef));
        api.state == merged && stateFromStorage == merged &&
        api.calls == old(api.calls) + [SetCall(Replace(merged), true, Undefined)]
      ensures m.Rejected? ==> api.state == old(api.state) && stateFromStorage == old(stateFromStorage) && api.calls == old(api.calls)
      ensures chain.Fulfilled? ==> WroteBack(old(storage.raw.entries), chain.value, old(api.nextRef) + 2)
      ensures chain.Rejected? ==> storage.raw.entries == old(storage.raw.entries)
    {
      match m
      case Fulfilled(migrated) =>
        chain := MergeMigrated(migrated);
      case Rejected(e) =>
        chain := Rejected(e);
    }

    /** The body of that `then` on a migrated state: `stateFromStorage =
        merge(migrated, get() ?? configResult)`, `set(stateFromStorage,
        true)`, then `setItem()`, whose throw rejects the chain. */
    method MergeMigrated(migrated: Value) returns (chain: Thenable<Value>)
      requires Valid() && storage != null
      modifies this`stateFromStorage, api, storage.raw
      ensures var merged := options.merge(migrated, MergeTarget(old(api.state), configResult), old(api.nextRef));
        var w := Write(old(storage.raw.entries), merged, old(api.nextRef) + 2);
        api.state == merged && stateFromStorage == merged &&
        api.calls == old(api.calls) + [SetCall(Replace(merged), true, Undefined)] &&
        chain == (if w.Returned? then Fulfilled(merged) else Rejected(w.error)) &&
        storage.raw.entries == (if w.Returned? then w.value else old(storage.raw.entries))
    {
      var current := api.state;
      var ref := api.Alloc();
      var merged := options.merge(migrated, MergeTarget(current, configResult), ref);
      stateFromStorage := merged;
      api.Set(Replace(merged), true, Undefined);
      ReplaceLeavesValue(current, merged, ref + 1);
      var w := SetItem();
      chain := match w case Returned(_) => Fulfilled(merged) case Threw(e) => Rejected(e);
    }

    /** The last `then` and the `catch` of `hydrate()`. */
    method FinishHydration(chain: Thenable<Value>, post: bool, current: Value)
      requires post == HasPostCallback(options, current)
      requires !hasHydrated
      modifies this`hasHydrated, this`events
      ensures hasHydrated == chain.Fulfilled?
      ensures events == old(events) + HydrationEpilogue(options, finishHydrationListeners, current, chain)
    {
      match chain
      case Fulfilled(merged) =>
        if post {
          events := events + [PostRehydration(merged, Undefined)];
        }
        hasHydrated := true;
        events := events + [HydratedFlagSet(true)];
        var finished := Notify(Finished, finishHydrationListeners, merged);
        events := events + finished;
      case Rejected(e) =>
        if post {
          events := events + [PostRehydration(Undefined, e)];
        }
    }

    /** The end of the middleware's body with a storage: `hydrate()`, then
        `return stateFromStorage || configResult`. */
    method HydrateAtCreation()
      requires Valid() && storage != null
      modifies this`hasHydrated, this`stateFromStorage, this`events, this`initialState, api, storage.raw
      ensures Valid()
      ensures Hydrated(old(storage.raw.entries), old(api.state), old(api.nextRef), old(api.calls), old(events), old(stateFromStorage))
      ensures initialState == if Truthy(stateFromStorage) then stateFromStorage else configResult
    {
      Hydrate();
      initialState := if Truthy(stateFromStorage) then stateFromStorage else configResult;
    }

    /** `hydrate()` on its synchronous path: `hasHydrated` goes false and
        the start listeners see the current state before storage is read;
        the stored value goes through the version decision; the merged state
        replaces the store's state and is written back; then the
        post-rehydration callback runs, `hasHydrated` goes true and the
        finish listeners see the merged state. A failing step leaves
        `hasHydrated` false and hands the error to the post-rehydration
        callback alone. */
    method Hydrate()
      requires Valid() && storage != null
      modifies this`hasHydrated, this`stateFromStorage, this`events, api, storage.raw
      ensures Valid()
      ensures Hydrated(old(storage.raw.entries), old(api.state), old(api.nextRef), old(api.calls), old(events), old(stateFromStorage))
    {
      var current := api.state;
      ghost var entries := storage.raw.entries;
      ghost var ref := api.nextRef;
      var post := BeginHydration();
      var read := StoredThenable(storage.raw.entries, storage.codec, options.name);
      events := events + MigrationLog(read, options);
      var m := Migrated(read, options);
      var chain := ApplyMigrated(m);
      assert chain == HydrationChain(entries, storage.codec, options, current, configResult, ref);
      FinishHydration(chain, post, current);
    }

    /** `persist.rehydrate()`: the same hydration as at creation, from the
        current state and the current listeners. */
    method Rehydrate()
      requires Valid() && installed
      modifies this`hasHydrated, this`stateFromStorage, this`events, api, storage.raw
      ensures Valid()
      ensures Hydrated(old(storage.raw.entries), old(api.state), old(api.nextRef), old(api.calls), old(events), old(stateFromStorage))
    {
      Hydrate();
    }

    /** `persist.hasHydrated()`: whether the last hydration ran to its end. */
    function HasHydrated(): (r: bool)
      reads this`hasHydrated
      ensures r == hasHydrated
    {
      hasHydrated
    }

    /** `persist.getOptions()`: the options in force, as the last
        `setOptions` left them. */
    function GetOptions(): (r: Options)
      reads this
      ensures r == options
    {
      options
    }

    /** `persist.setOptions(newOptions)`: merge the new options in; a given
        storage also becomes the one in use. */
    method SetOptions(newOptions: PartialOptions)
      requires Valid() && installed
      modifies this`options, this`storage
      ensures Valid()
      ensures options == Override(old(options), newOptions)
      ensures storage == (if newOptions.storage.Some? && newOptions.storage.value != null then newOptions.storage.value else old(storage))
    {
      options := Override(options, newOptions);
      if newOptions.storage.Some? && newOptions.storage.value != null {
        storage := newOptions.storage.value;
      }
    }

    /** `persist.clearStorage()`: remove the entry under the name. */
    method ClearStorage()
      requires Valid() && installed
      modifies storage.raw
      ensures storage.raw.entries == old(storage.raw.entries) - {options.name}
    {
      storage.RemoveItem(options.name);
    }

    /** `persist.onHydrate(cb)`. */
    method OnHydrate(l: Listener)
      requires Valid() && installed
      modifies this`hydrationListeners
      ensures Valid()
      ensures hydrationListeners == Added(old(hydrationListeners), l)
    {
      hydrationListeners := Added(hydrationListeners, l);
    }

    /** The unsubscribe function `onHydrate` returns. */
    method UnsubscribeHydrate(l: Listener)
      requires Valid() && installed
      modifies this`hydrationListeners
      ensures Valid()
      ensures hydrationListeners == Deleted(old(hydrationListeners), l)
    {
      hydrationListeners := Deleted(hydrationListeners, l);
    }

    /** `persist.onFinishHydration(cb)`. */
    method OnFinishHydration(l: Listener)
      requires Valid() && installed
      modifies this`finishHydrationListeners
      ensures Valid()
      ensures finishHydrationListeners == Added(old(finishHydrationListeners), l)
    {
      finishHydrationListeners := Added(finishHydrationListeners, l);
    }

    /** The unsubscribe function `onFinishHydration` returns. */
    method UnsubscribeFinishHydration(l: Listener)
      requires Valid() && installed
      modifies this`finishHydrationListeners
      ensures Valid()
      ensures finishHydrationListeners == Deleted(old(finishHydrationListeners), l)
    {
      finishHydrationListeners := Deleted(finishHydrationListeners, l);
    }
  }

  /** `create(persist(config, options))`: create the store, run the
      middleware (which hydrates at once when a storage is available), and
      keep what it returned as the initial state. */
  method CreatePersistedStore(configResult: Value, base: PartialOptions, defaultStorage: JSONStorage?)
    returns (api: Store, p: PersistStore)
    requires base.name.Some?
    modifies if Resolved(base, defaultStorage).storage != null then {Resolved(base, defaultStorage).storage.raw} else {}
    ensures fresh(api) && fresh(p) && p.api == api && p.Valid()
    ensures p.installed == (Resolved(base, defaultStorage).storage != null)
    ensures api.state == p.initialState && p.options == Resolved(base, defaultStorage)
    ensures p.installed ==>
      var entries := old(EntriesOf(Resolved(base, defaultStorage).storage));
      var read := StoredThenable(entries, p.storage.codec, p.options.name);
      var m := Migrated(read, p.options);
      var chain := HydrationChain(entries, p.storage.codec, p.options, Undefined, configResult, 0);
      p.hasHydrated == chain.Fulfilled? &&
      p.events == HydrationPrelude(p.options, [], Undefined) + MigrationLog(read, p.options)
                  + HydrationEpilogue(p.options, [], Undefined, chain) &&
      (m.Fulfilled? ==>
         var merged := p.options.merge(m.value, MergeTarget(Undefined, configResult), 0);
         p.stateFromStorage == merged && api.calls == [SetCall(Replace(merged), true, Undefined)]) &&
      (m.Rejected? ==> p.stateFromStorage == Undefined && api.calls == []) &&
      (chain.Fulfilled? ==> p.WroteBack(entries, chain.value, 2)) &&
      (chain.Rejected? ==> p.storage.raw.entries == entries) &&
      api.state == (if Truthy(p.stateFromStorage) then p.stateFromStorage else configResult)
    ensures !p.installed ==> api.state == configResult && !p.hasHydrated && p.events == [] && api.calls == []
  {
    api := new Store();
    p := new PersistStore(api, configResult, base, defaultStorage);
    if p.installed {
      ghost var prelude := HydrationPrelude(p.options, [], Undefined);
      assert [] + prelude == prelude;
    }
    api.Initialize(p.initialState);
  }
}
