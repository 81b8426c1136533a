# zustand persist, shallow and redux — a Dafny model

This project models three parts of the zustand state-management library:

- **The `persist` middleware** (src/middleware/persist.ts). It covers:
  - the string `StateStorage` and the JSON `PersistStorage` that `createJSONStorage` builds over it;
  - the synchronous `toThenable` records that chain `then`/`catch`;
  - the current implementation, `newImpl`. It wraps `set` and `api.setState` so that every update is written to storage as `{state: partialize({...state}), version}`. It hydrates the store from storage at creation, handling version migration, `merge`, the write-back, the hydration listeners and the post-rehydration callback. It also installs the `api.persist` object;
  - the deprecated implementation, `oldImpl`. It uses `getStorage` with `serialize`/`deserialize`;
  - `persistImpl`, which chooses between the two implementations.
- **`shallow`** (src/shallow.ts): shallow equality of two values by own keys and `Object.is`.
- **The `redux` middleware** (src/middleware/redux.ts): it installs `api.dispatch`, which runs a reducer through `set`. It also sets the `dispatchFromDevtools` marker and builds the initial state `{dispatch, ...initial}`.

## Structure

| module | file | what it holds |
|---|---|---|
| `Values` | values.dfy | JavaScript values with object identity: an `Obj` carries a reference and its own properties. `Object.is` is value equality of the model. |
| `Thenables` | thenable.dfy | `Attempt` (returned or thrown) and `Thenable` (fulfilled or rejected) |
| `Shallow` | shallow.dfy | `ShallowEqual` (specification), `Shallow` (the loop) and its algebra |
| `VanillaStore` | store.dfy | A minimal stand-in for the store the middlewares wrap. It holds one state value. `Set` shallow-merges unless `replace` is true and records each call. It is an assumption of the model: the real store engine (vanilla.ts) is not part of this model. |
| `Storage` | storage.dfy | `StateStorage`, `JSONStorage`, `CreateJSONStorage` |
| `PersistConfig` | persist_config.dfy | The options and their defaults, the stored envelope and the version decision. Hydration is written as one pure thenable chain (`HydrationChain`). It also holds the listener sets, and the events that stand for listener and callback calls. |
| `Persist` | persist.dfy | `newImpl` as the class `PersistStore` |
| `PersistLegacy` | persist_legacy.dfy | `oldImpl` as the class `LegacyPersistStore`, plus `PersistImpl` |
| `Redux` | redux.dfy | `reduxImpl` as the class `ReduxStore` |

**Calls into the caller's code.** Every callback the middleware calls becomes an event appended to `events`:
- listeners;
- `onRehydrateStorage` and the callback it returns;
- `console.warn` and `console.error`.

A listener set is a duplicate-free sequence in insertion order, which is the iteration order of a JavaScript `Set`.

**Object references.** Every object the middleware code and the stand-in store create gets a fresh reference from `Store.nextRef`. The counter reducer of the example is the caller's code; the literal it returns has the fixed reference 0, which `set` then merges into a fresh object. This makes `Object.is` on objects (as `set` uses it) observable in the model.

## Model

| member | source | states |
|---|---|---|
| Thenables.ToThenable | src/middleware/persist.ts:147-175 | The thenable is fulfilled exactly when the function returns, and carries the returned value. Otherwise it is rejected with the thrown error. |
| Thenables.Then | src/middleware/persist.ts:157-168 | A rejected thenable stays rejected with the same reason. A fulfilled result comes only from a fulfilled thenable whose handler returned that value. A rejection of a fulfilled thenable is the handler's throw. |
| Thenables.Catch | src/middleware/persist.ts:160-171 | A fulfilled thenable is returned as it is. A rejected result comes only from a rejected thenable whose handler threw that error. A fulfilled result of a rejected thenable is the handler's return value. |
| Thenables.ThenCatchCases | src/middleware/persist.ts:157-173 | On a result, `then` applies its handler and `catch` returns the same thenable. On a thrown error, `then` returns the same thenable and `catch` applies its handler to the error. |
| Thenables.HandlerThrowCaptured | src/middleware/persist.ts:152-174 | A handler that throws inside `then` gives a rejected thenable carrying exactly that error. A handler that returns gives a fulfilled one. |
| Thenables.ThenAssociative | src/middleware/persist.ts:157-160 | Two chained `then`s equal one `then` whose handler runs both and stops at the first throw. |
| Thenables.RejectionSkipsThens | src/middleware/persist.ts:166-172 | A rejection passes unchanged through any number of `then`s, and the final `catch` receives the original error. |
| Thenables.ThenAllRunsHandlers | src/middleware/persist.ts:152-174 | A chain of `then`s on a result runs the handlers in order, each on the previous one's result, and stops at the first throw. The chain ends fulfilled with the last result or rejected with that first error, as the plain function `RunAll` computes. |
| Shallow.Shallow | src/shallow.ts:3-31 | The loop's result is exactly `ShallowEqual(a, b)`: identical values; or two objects with the same number of keys where every key of `a` is in `b` with an identical value. |
| Shallow.KeysOf | src/shallow.ts:18 | `Object.keys`: a duplicate-free list holding exactly the own keys. |
| Shallow.ShallowIdentityCases | src/shallow.ts:7-17 | Every value is shallow-equal to itself. Non-identical values where either one is not an object (or is null) are not shallow-equal. |
| Shallow.ShallowRejects | src/shallow.ts:18-28 | Each of these makes two objects not shallow-equal: a different key count; a key of `a` missing in `b`; a key whose two values are not identical. |
| Shallow.ShallowSameProps | src/shallow.ts:18-30 | Two objects are shallow-equal if and only if their own properties are equal. |
| Shallow.ShallowSymmetric | src/shallow.ts:3-31 | `shallow(a, b) == shallow(b, a)`. |
| Shallow.ShallowTransitive | src/shallow.ts:3-31 | Shallow equality is transitive. |
| VanillaStore.Store.Set | src/middleware/persist.ts:389-393 | The state becomes `NextState` of the old state, one object reference is used up, and exactly this call is appended to the record of `set` calls. |
| VanillaStore.NextStateCases | src/middleware/persist.ts:389-393 | The three outcomes of `set`: the candidate itself under `replace` or when it is not an object; the old state when the candidate is identical to it; otherwise a new object with the keys of both, where the candidate's values win. |
| VanillaStore.ReplaceLeavesValue | src/middleware/persist.ts:448 | `set(v, true)` leaves exactly `v` as the state. The hydration write-back relies on this. |
| Storage.ReadItem | src/middleware/persist.ts:33-44 | A missing name reads as null. A present string reads as `JSON.parse` of it. A read throws only when a stored string exists and `JSON.parse` throws on it. |
| Storage.WriteItem | src/middleware/persist.ts:46-47 | The write succeeds exactly when `JSON.stringify` returns. It then stores the string under the name and leaves every other entry as it was. Otherwise it throws the stringify error. |
| Storage.CreateJSONStorage | src/middleware/persist.ts:22-51 | There is no storage exactly when `getStorage` throws. Otherwise the JSON storage wraps the storage it returned. |
| Storage.JSONStorage.SetItem | src/middleware/persist.ts:46-47 | The stringified value is stored under the name. When `JSON.stringify` throws, the error comes back and nothing is written. |
| Storage.JSONStorage.RemoveItem | src/middleware/persist.ts:48 | The name is removed and nothing else changes. |
| Storage.ReadAfterWrite | src/middleware/persist.ts:32-49 | With a codec that round-trips the value, `getItem` after `setItem` under the same name returns the value. Other names read as before. |
| Storage.ReadAfterRemove | src/middleware/persist.ts:33-48 | After `removeItem`, `getItem` returns null. |
| PersistConfig.OverrideFields | src/middleware/persist.ts:463-466 | `{...options, ...newOptions}`: for each of the ten options, a given value wins and an absent one keeps the old value. The deprecated `setOptions` spreads the same way (lines 314-317). |
| PersistConfig.OverrideIdempotent | src/middleware/persist.ts:463-466 | Spreading the same new options twice equals spreading them once. Spreading no keys leaves the options unchanged. |
| PersistConfig.DefaultMerge | src/middleware/persist.ts:356-359 | `{...current, ...persisted}`: the keys of both; persisted values win; current values otherwise. |
| PersistConfig.DefaultsAndOverrides | src/middleware/persist.ts:352-361 | The defaults: `partialize` is the identity, the version is 0, `merge` lets persisted keys win, and the storage is the default JSON storage. Every option the caller passes replaces its default. |
| PersistConfig.VersionStep | src/middleware/persist.ts:422-441 | A falsy stored value gives undefined. Only `migrate` can throw, and only when a migration is needed (a numeric stored version different from the configured one). Without such a migration the step returns. With one and with `migrate`, the result is `migrate(state, version)`. |
| PersistConfig.VersionDecision | src/middleware/persist.ts:422-441 | A falsy stored value gives undefined. A numeric stored version that differs calls `migrate(state, version)`; without `migrate` it gives undefined and logs. A missing or equal version gives the stored state. |
| PersistConfig.AbsentKeepsCurrent | src/middleware/persist.ts:421-446 | With nothing stored, the migrated state is undefined, nothing is logged, and the default `merge` keeps the current state's content. |
| PersistConfig.HydrationChain | src/middleware/persist.ts:421-450 | A successful chain carries `merge(migrated, get() ?? configResult)`, where `migrated` is the fulfilled result of the version step. Writing its envelope back succeeded. A failed read or version step is the chain's own rejection. |
| PersistConfig.HydrationChainCases | src/middleware/persist.ts:421-450 | The hydration chain rejects with the error of a failing read, `migrate` or write-back. Otherwise it carries the merged state. |
| PersistConfig.WrittenStateIsRehydrated | src/middleware/persist.ts:381-387 | With a round-tripping codec, what `setItem` wrote is read back and passes the version step as `partialize` of a copy of the state. |
| PersistConfig.RehydrateAfterWriteKeepsContent | src/middleware/persist.ts:352-361 | Under the defaults, rehydrating what was just written and merging it into the same state leaves the state's content unchanged. |
| PersistConfig.DefaultMergeIdempotent | src/middleware/persist.ts:356-359 | Merging the same persisted state twice has the same content as merging it once. |
| PersistConfig.Announce | src/middleware/persist.ts:415 | One notification per listener, in order, each carrying the state. |
| PersistConfig.Notify | src/middleware/persist.ts:454 | `forEach` over a listener set produces exactly `Announce` of it. |
| PersistConfig.Added | src/middleware/persist.ts:478-479 | `Set.add`: the result is duplicate-free and holds the old members plus the new one. |
| PersistConfig.Deleted | src/middleware/persist.ts:481-483 | `Set.delete`: the result is duplicate-free and holds exactly the old members minus the given one. |
| PersistConfig.NotifiedOnce | src/middleware/persist.ts:415 | Over a duplicate-free listener set (the `forEach` here and at line 454), a listener receives exactly one notification when it is a member, and none otherwise. |
| PersistConfig.ListenerRegistration | src/middleware/persist.ts:478-491 | Adding a listener twice leaves the same set as adding it once. That listener receives exactly one notification, and the notification count equals the set's size. After unsubscribing, it receives none. |
| Persist.PersistStore.constructor | src/middleware/persist.ts:350-496 | Resolves the options, with empty listener sets. With a storage it runs one hydration and leaves exactly what `Hydrated` describes: `hasHydrated`, the events, the state and `stateFromStorage`, the `set` call, and the storage written back or untouched. `stateFromStorage` stays undefined when the read or the version step fails. The initial state is `stateFromStorage \|\| configResult`. Without a storage: no events, no `set`, and the initial state is `configResult`. |
| Persist.PersistStore.SetItem | src/middleware/persist.ts:381-387 | Writes the envelope `{state: partialize({...get()}), version}` under `options.name` through the JSON storage. |
| Persist.PersistStore.SetState | src/middleware/persist.ts:389-394 | Applies the update through the saved `setState`, then writes the new state to storage. |
| Persist.PersistStore.InitializerSet | src/middleware/persist.ts:368-379 | Without a storage, it warns and applies the update, and storage is untouched. With one, it applies the update and writes it (lines 396-403). |
| Persist.PersistStore.BeginHydration | src/middleware/persist.ts:414-418 | `hasHydrated` becomes false, recorded as an event. Then the hydration listeners are notified with the current state, and then `onRehydrateStorage` is called. |
| Persist.PersistStore.ApplyMigrated | src/middleware/persist.ts:442-450 | The result is the chain's merge step. On a fulfilled chain, `merge(migrated, get() ?? configResult)` replaces the state and is written back. A rejected chain changes nothing. |
| Persist.PersistStore.MergeMigrated | src/middleware/persist.ts:442-450 | The merged state becomes the state and `stateFromStorage` through one replacing `set`. Then `setItem` runs: if it returns, the storage holds the written envelope and the chain carries the merged state; if it throws, the storage is untouched and the chain is rejected with that error. |
| Persist.PersistStore.FinishHydration | src/middleware/persist.ts:451-458 | On success, in this order: the post-rehydration callback gets `(state, undefined)`; `hasHydrated` becomes true, recorded as an event; the finish listeners get the merged state. On failure, only the callback runs, with `(undefined, error)`. |
| Persist.PersistStore.Hydrate | src/middleware/persist.ts:411-459 | Ends in `Hydrated`. `hasHydrated` matches the chain's success. The events, in order, are: the flag going false, the start listeners, `onRehydrateStorage`, the missing-migration log, the callback, the flag going true and the finish listeners. On a fulfilled migration, the merged value is the state and `stateFromStorage`, set by one replacing `set`. On a rejected one, the state, `stateFromStorage` and the `set` calls are unchanged. A successful chain wrote the merged state back. A failed one left the storage untouched. |
| Persist.PersistStore.Rehydrate | src/middleware/persist.ts:476 | `persist.rehydrate()` is `hydrate()`. It promises everything `Hydrate` does, from the current state, storage and listeners. |
| Persist.PersistStore.HasHydrated | src/middleware/persist.ts:477 | Returns the flag that the last hydration set: true exactly when its chain succeeded. |
| Persist.PersistStore.GetOptions | src/middleware/persist.ts:475 | Returns the options in force, as resolved at creation and spread by every `setOptions` since. |
| Persist.PersistStore.HydrateAtCreation | src/middleware/persist.ts:494-496 | The end of the middleware's body: one hydration as `Hydrate` describes it, then the initial state `stateFromStorage \|\| configResult`. |
| Persist.PersistStore.SetOptions | src/middleware/persist.ts:462-471 | The new options are spread over the old ones. A given storage becomes the one in use. |
| Persist.PersistStore.ClearStorage | src/middleware/persist.ts:472-474 | Removes `options.name` from the storage. |
| Persist.PersistStore.OnHydrate | src/middleware/persist.ts:478-480 | Adds the listener to the hydration set. |
| Persist.PersistStore.UnsubscribeHydrate | src/middleware/persist.ts:481-483 | Deletes the listener from the hydration set. |
| Persist.PersistStore.OnFinishHydration | src/middleware/persist.ts:485-487 | Adds the listener to the finish set. |
| Persist.PersistStore.UnsubscribeFinishHydration | src/middleware/persist.ts:488-490 | Deletes the listener from the finish set. |
| Persist.CreatePersistedStore | src/middleware/persist.ts:494-496 | A fresh store, under every outcome. On a fulfilled migration, `stateFromStorage` is the merged state and the store recorded one replacing `set`. On a rejected one, `stateFromStorage` is undefined and nothing was set. The store's state is `stateFromStorage \|\| configResult`. The events and the storage are those of the one hydration. Without a storage, the state is `configResult` and there are no events. |
| PersistLegacy.LegacyWrite | src/middleware/persist.ts:218-233 | With a storage and a serialiser that returns, the string is stored under the name. Nothing else ever writes. A throw leaves the entries unchanged and carries a truthy error. A truthy error thrown by the serialiser is rethrown as it is. A storage that is gone throws the `TypeError`. |
| PersistLegacy.LegacyStored | src/middleware/persist.ts:267-272 | A missing entry and an empty string both read as undefined. Any other string goes to `deserialize`. The read fails only when `deserialize` throws on the stored string. |
| PersistLegacy.LegacyResolved | src/middleware/persist.ts:179-190 | The deprecated defaults always provide `getStorage`, `serialize` and `deserialize`. |
| PersistLegacy.LegacyPersistStore.constructor | src/middleware/persist.ts:177-348 | `getStorage()` is called in a `try`; a throw means no storage. With a storage it runs one hydration and leaves exactly what `Hydrated` describes: `hasHydrated`, the events, the state and `stateFromStorage`, the `set` call, and the storage written back or untouched. The initial state is `stateFromStorage \|\| configResult`. Without a storage: no events, no `set`, and the initial state is `configResult`. |
| PersistLegacy.LegacyPersistStore.SetItem | src/middleware/persist.ts:216-233 | Serialises the envelope with the serialiser fixed at creation, and stores the string. An error of either step is caught and rethrown only when truthy. A storage that `setOptions` removed makes the write throw a `TypeError`. |
| PersistLegacy.LegacyPersistStore.SetState | src/middleware/persist.ts:235-240 | Applies the update, then writes to storage, propagating what `setItem` throws. |
| PersistLegacy.LegacyPersistStore.InitializerSet | src/middleware/persist.ts:203-249 | Without a storage, it warns and applies the update. With one, it applies the update and writes it. |
| PersistLegacy.LegacyPersistStore.BeginHydration | src/middleware/persist.ts:260-264 | `hasHydrated` becomes false, recorded as an event. Then the hydration listeners are notified, and then `onRehydrateStorage` is called. |
| PersistLegacy.LegacyPersistStore.ApplyMigrated | src/middleware/persist.ts:293-301 | Merge, replace the state, and write it back through the serialiser. A rejected chain changes nothing. |
| PersistLegacy.LegacyPersistStore.FinishHydration | src/middleware/persist.ts:302-309 | The same ending as the current implementation. On success: the callback, then `hasHydrated` going true (recorded as an event), then the finish listeners. On failure: only the callback, with the error. |
| PersistLegacy.LegacyPersistStore.Hydrate | src/middleware/persist.ts:257-310 | Nothing happens when the storage is gone: the flag, events, state, `stateFromStorage`, `set` calls and reference counter stay. Otherwise it ends in `Hydrated`. The raw string is deserialised only if it is truthy. The same version decision, merge and write-back follow, with the same events in the same order as the current implementation. On a fulfilled migration, the storage holds what `setItem` writes for the merged state. On a rejected one, the state, `stateFromStorage`, the `set` calls and the storage are unchanged. |
| PersistLegacy.LegacyPersistStore.Rehydrate | src/middleware/persist.ts:327 | `persist.rehydrate()` is `hydrate()`. It promises everything `Hydrate` does, including the no-op once the storage is gone. |
| PersistLegacy.LegacyPersistStore.HasHydrated | src/middleware/persist.ts:328 | Returns the flag that the last hydration set: true exactly when its chain succeeded. |
| PersistLegacy.LegacyPersistStore.GetOptions | src/middleware/persist.ts:326 | Returns the options in force. They always hold `getStorage`, `serialize` and `deserialize`. |
| PersistLegacy.LegacyPersistStore.HydrateAtCreation | src/middleware/persist.ts:344-346 | The end of the deprecated body: one hydration as `Hydrate` describes it, then the initial state `stateFromStorage \|\| configResult`. |
| PersistLegacy.LegacyPersistStore.SetOptions | src/middleware/persist.ts:313-322 | Spreads the new options. A given `getStorage` is called at once. What it returns, possibly nothing, becomes the storage. What it throws propagates and leaves the storage as it was. |
| PersistLegacy.LegacyPersistStore.ClearStorage | src/middleware/persist.ts:323-325 | `storage?.removeItem(name)`. |
| PersistLegacy.LegacyPersistStore.OnHydrate | src/middleware/persist.ts:329-331 | Adds the listener to the hydration set. |
| PersistLegacy.LegacyPersistStore.UnsubscribeHydrate | src/middleware/persist.ts:332-334 | Deletes the listener from the hydration set. |
| PersistLegacy.LegacyPersistStore.OnFinishHydration | src/middleware/persist.ts:336-338 | Adds the listener to the finish set. |
| PersistLegacy.LegacyPersistStore.UnsubscribeFinishHydration | src/middleware/persist.ts:339-341 | Deletes the listener from the finish set. |
| PersistLegacy.CreateLegacyPersistedStore | src/middleware/persist.ts:345-347 | A fresh store, under every outcome. On a fulfilled migration, `stateFromStorage` is the merged state, the store recorded one replacing `set`, and the storage holds what `setItem` wrote. On a rejected one (read, deserialisation or migration), `stateFromStorage` is undefined, nothing was set and the storage is untouched. The store's state is `stateFromStorage \|\| configResult`. Without a storage, the state is `configResult` and there are no events. |
| PersistLegacy.EmptyStringIsAbsent | src/middleware/persist.ts:268-272 | The deprecated read treats an empty stored string as nothing stored. The JSON storage hands it to the parser (lines 34-44). |
| PersistLegacy.FalsyErrorSwallowed | src/middleware/persist.ts:221-231 | A falsy error from the serialiser is swallowed: nothing is written and `setItem` does not throw. |
| PersistLegacy.LegacyWrittenStateIsRehydrated | src/middleware/persist.ts:218-292 | With a serialiser that `deserialize` inverts, what `setItem` wrote is read back as `partialize` of a copy of the state. |
| PersistLegacy.PersistImpl | src/middleware/persist.ts:499-513 | The deprecated implementation runs exactly when `getStorage`, `serialize` or `deserialize` is among the options. |
| Redux.InitialState | src/middleware/redux.ts:54 | `{dispatch, ...initial}` holds every key of `initial` plus `dispatch`. A `dispatch` of `initial` overrides the generated one. |
| Redux.ReduxStore.constructor | src/middleware/redux.ts:45-54 | Installs the reducer as `api.dispatch`, sets `dispatchFromDevtools` to true, and returns the initial state. |
| Redux.ReduxStore.Dispatch | src/middleware/redux.ts:48-50 | Exactly one `set` call, with the updater `state => reducer(state, action)`, `replace` false and the action as its name. The action is returned unchanged. |
| Redux.ReduxStore.ReplaceDispatch | src/middleware/redux.ts:48 | Another middleware's assignment to `api.dispatch`: the dispatch in force is the new one. |
| Redux.ReduxStore.StateDispatch | src/middleware/redux.ts:54 | The state's `dispatch` uses the `api.dispatch` current at call time, so a later replacement is what runs. It records exactly the `set` call `Dispatch` makes: the reducer updater, `replace` false, the action as name. |
| Redux.CreateReduxStore | src/middleware/redux.ts:45-55 | A fresh store holds the initial state, and the marker is set. |
| Redux.DispatchMerges | src/middleware/redux.ts:49 | An object returned by the reducer is merged into the state: its keys win, and other keys such as `dispatch` stay. A reducer that returns the state itself leaves it unchanged. |
| Redux.CounterStep | tests/devtools.test.tsx:458-468 | One counter action moves `count` by one in its direction and keeps every other key. |
| Redux.DispatchCounter | tests/devtools.test.tsx:458-468 | Dispatching one counter action on a counter store moves `count` by one and keeps the state's `dispatch`. |
| Redux.CounterScenario | tests/devtools.test.tsx:455-483 | From `{count: 0}`, INCREMENT, INCREMENT, DECREMENT leave `count` at 1 with the `dispatch` field in place. |

## Left out

- Promise scheduling: the async branches of `toThenable` and of the JSON storage's `getItem` (src/middleware/persist.ts:41-43, 154-156). Every storage here answers synchronously.
- `JSON.stringify`/`JSON.parse` and the deprecated `serialize`/`deserialize` are abstract functions that may throw. Their JSON behaviour (for example, dropping functions) is not modelled.
- `Object.is` on floating-point numbers (NaN, ±0): numbers are integers and identity is value equality. Function identity is a reference number.
- Spreading arrays and strings into objects: `Props` of any non-object is empty.
- Throws from the caller's callbacks are not modelled: listeners, `onRehydrateStorage`, the callback it returns, `merge` and `partialize` all return normally here. In the source these throws go to different places:
  - A start listener or `onRehydrateStorage` that throws runs before the first `toThenable` (lines 415-418 and 261-264). The throw escapes `hydrate()`, and so escapes store creation or `rehydrate()`.
  - `partialize` throwing in `setItem` (lines 382 and 219) escapes `setState` and the wrapped `set`. During hydration it runs inside a `then` and rejects the chain.
  - `merge`, the post-rehydration callback on success and a finish listener run inside a `then` (lines 443-457 and 294-308). Their throw is caught. The callback is then called with `(undefined, error)`: a second time if it had already run, the only time when `merge` threw. A finish listener's throw comes after `hasHydrated` became true.
- Callbacks have no effect on the store or the middleware: a listener, `onRehydrateStorage` or the callback it returns is only an event. Re-entrant calls from a callback (`set`/`setState`, which write to storage, or `persist.rehydrate()`) are not covered, and so neither is their effect on what the finish listeners and `stateFromStorage || configResult` observe (lines 451-458 and 494-496).
- Persist.PersistStore.FinishHydration and PersistLegacy.LegacyPersistStore.FinishHydration: the second callback call that follows a throwing finish listener or success callback is not produced.
- The raw `StateStorage.getItem` throwing (lines 40 and 267) is not modelled. In the source it is caught by `toThenable` and rejects the hydration chain.
- The raw `StateStorage.setItem`/`removeItem` throwing is not modelled.
- An option key passed explicitly as `undefined`: an absent option is `None`. The exception is the storage, which may be given as null.
- Custom `PersistStorage` objects other than the JSON one from `createJSONStorage`.
- The `__DEV__` deprecation warning in `persistImpl` and all type-level machinery (`StoreMutators`, `Write`, `PopArgument`).
- The store engine (vanilla.ts) is not part of this model:
  - the stand-in `Store` keeps one state and records `set` calls;
  - store subscribers are not notified;
  - the initializer does not call `set` while the store is being created.
- The devtools middleware, immer and the React bindings are not part of this model. The counter scenario dispatches its third action directly rather than through the devtools extension.
- Redux.ReduxStore.ReplaceDispatch: another middleware may replace `api.dispatch` with any function. The model only allows another reducer-based dispatch.
