/** `reduxImpl` of src/middleware/redux.ts: a reducer and an initial state
    turned into a store whose `dispatch(action)` applies the reducer through
    `set`. */
module Redux {
  import opened Values
  import opened VanillaStore

  /** `reducer(state, action)`. */
  type Reducer = (Value, Value) -> Value

  /** The initial state `{ dispatch: forwarder, ...initial }`: a new object
      (reference `ref`) holding the forwarding function `Fn(forwarder)` under
      `dispatch` and every own property of `initial`, which wins on a clash. */
  function InitialState(initial: Value, forwarder: nat, ref: nat): (s: Value)
    ensures s.Obj? && s.ref == ref
    ensures s.props.Keys == Props(initial).Keys + {"dispatch"}
    ensures forall k :: k in Props(initial) ==> Get(s, k) == Get(initial, k)
    ensures Get(s, "dispatch") == Fn(forwarder) <==> "dispatch" !in Props(initial) || Get(initial, "dispatch") == Fn(forwarder)
  {
    Obj(ref, map["dispatch" := Fn(forwarder)] + Props(initial))
  }

  /** The state after `dispatch(action)`: the reducer's result merged into
      the state as by `set(result, false)`. */
  function Dispatched(state: Value, reducer: Reducer, action: Value, ref: nat): Value {
    NextState(state, Replace(reducer(state, action)), false, ref)
  }

  /** The store `reduxImpl` decorates, with the two fields it assigns. */
  class ReduxStore {
    const api: Store
    /** The reducer that `api.dispatch` applies. Another middleware may
        install a different `api.dispatch` later. */
    var reducer: Reducer
    /** `api.dispatchFromDevtools`. */
    var dispatchFromDevtools: bool
    /** The reference of the `dispatch` function placed in the state. */
    const forwarder: nat
    /** What the state creator returns. */
    const initialState: Value

    /** `reduxImpl(reducer, initial)(set, get, api)`: installs
        `api.dispatch`, raises the devtools marker and returns the initial
        state with a forwarding `dispatch`. */
    constructor (api: Store, reducer: Reducer, initial: Value)
      modifies api`nextRef
      ensures this.api == api && this.reducer == reducer && dispatchFromDevtools
      ensures forwarder == old(api.nextRef) && api.nextRef == old(api.nextRef) + 2
      ensures initialState == InitialState(initial, forwarder, forwarder + 1)
    {
      this.api := api;
      this.reducer := reducer;
      dispatchFromDevtools := true;
      var fwd := api.Alloc();
      var ref := api.Alloc();
      forwarder := fwd;
      initialState := InitialState(initial, fwd, ref);
    }

    /** `api.dispatch(action)`: exactly one `set` call, with the updater
        `state => reducer(state, action)`, `replace` false and the action as
        its name; the action is returned unchanged. */
    method Dispatch(action: Value) returns (r: Value)
      modifies api
      ensures r == action
      ensures api.state == Dispatched(old(api.state), reducer, action, old(api.nextRef))
      ensures |api.calls| == |old(api.calls)| + 1 && api.calls[..|old(api.calls)|] == old(api.calls)
      ensures var c := api.calls[|old(api.calls)|];
        c.update.Compute? && !c.replace && c.actionName == action &&
        forall s :: c.update.fn(s) == reducer(s, action)
    {
      var reduce := reducer;
      api.Set(Compute((s: Value) => reduce(s, action)), false, action);
      r := action;
    }

    /** Another middleware assigning a new `api.dispatch`. */
    method ReplaceDispatch(next: Reducer)
      modifies this`reducer
      ensures reducer == next
    {
      reducer := next;
    }

    /** The state's `dispatch(...a)`: calls whatever `api.dispatch` holds at
        the time of the call. */
    method StateDispatch(action: Value) returns (r: Value)
      modifies api
      ensures r == action
      ensures api.state == Dispatched(old(api.state), reducer, action, old(api.nextRef))
      ensures |api.calls| == |old(api.calls)| + 1 && api.calls[..|old(api.calls)|] == old(api.calls)
      ensures var c := api.calls[|old(api.calls)|];
        c.update.Compute? && !c.replace && c.actionName == action &&
        forall s :: c.update.fn(s) == reducer(s, action)
    {
      r := Dispatch(action);
    }
  }

  /** `reduxImpl` inside a fresh store, which keeps the initial state. */
  method CreateReduxStore(reducer: Reducer, initial: Value) returns (store: ReduxStore)
    ensures fresh(store) && fresh(store.api)
    ensures store.reducer == reducer && store.dispatchFromDevtools
    ensures store.api.state == InitialState(initial, 0, 1) && store.api.calls == []
  {
    var api := new Store();
    store := new ReduxStore(api, reducer, initial);
    api.Initialize(store.initialState);
  }

  /** A reducer's result that is an object is merged into the state: its
      keys win, the other keys of the state (such as `dispatch`) stay. A
      reducer that returns the state itself leaves it as it was. */
  lemma DispatchMerges(state: Value, reducer: Reducer, action: Value, ref: nat, k: string)
    requires state.Obj? && reducer(state, action).Obj?
    ensures Dispatched(state, reducer, action, ref).Obj?
    ensures reducer(state, action) == state ==> Dispatched(state, reducer, action, ref) == state
    ensures k in Props(reducer(state, action)) ==> Get(Dispatched(state, reducer, action, ref), k) == Get(reducer(state, action), k)
    ensures k !in Props(reducer(state, action)) ==> Get(Dispatched(state, reducer, action, ref), k) == Get(state, k)
  {
  }

  /** The action `{ type: t }`, with reference `ref`. */
  function Action(t: string, ref: nat): Value {
    Obj(ref, map["type" := Str(t)])
  }

  function CountOf(s: Value): int {
    match Get(s, "count")
    case Num(n) => n
    case _ => 0
  }

  /** The counter reducer `({count}, {type}) => ({count: count + (type ===
      'INCREMENT' ? 1 : -1)})`; the literal it builds gets reference 0. */
  function CounterReducer(state: Value, action: Value): Value {
    Obj(0, map["count" := Num(CountOf(state) + if Get(action, "type") == Str("INCREMENT") then 1 else -1)])
  }

  /** One step of the counter: `count` moves by one in the action's
      direction and every other key of the state keeps its value. */
  lemma CounterStep(state: Value, t: string, actionRef: nat, ref: nat)
    requires state.Obj?
    ensures var next := Dispatched(state, CounterReducer, Action(t, actionRef), ref);
      next.Obj? && next.props.Keys == state.props.Keys + {"count"} &&
      CountOf(next) == CountOf(state) + (if t == "INCREMENT" then 1 else -1) &&
      forall k :: k in state.props && k != "count" ==> Get(next, k) == Get(state, k)
  {
  }

  /** One counter action `{type: t}` dispatched on a counter store: `count`
      moves by one and the state's `dispatch` stays. */
  method DispatchCounter(store: ReduxStore, t: string, actionRef: nat)
    requires store.reducer == CounterReducer && store.api.state.Obj?
    modifies store.api
    ensures store.api.state.Obj?
    ensures CountOf(store.api.state) == CountOf(old(store.api.state)) + (if t == "INCREMENT" then 1 else -1)
    ensures "dispatch" in old(store.api.state.props) ==>
      "dispatch" in store.api.state.props && Get(store.api.state, "dispatch") == Get(old(store.api.state), "dispatch")
  {
    CounterStep(store.api.state, t, actionRef, store.api.nextRef);
    var _ := store.Dispatch(Action(t, actionRef));
  }

  /** The counter example: from `{count: 0}`, two `INCREMENT`s and one
      `DECREMENT` leave `count` at 1 and the state's `dispatch` in place. */
  method CounterScenario() returns (count: Value, dispatch: Value)
    ensures count == Num(1)
    ensures dispatch == Fn(0)
  {
    var store := CreateReduxStore(CounterReducer, Obj(100, map["count" := Num(0)]));
    assert CountOf(store.api.state) == 0 && Get(store.api.state, "dispatch") == Fn(0);
    assert "dispatch" in store.api.state.props;
    DispatchCounter(store, "INCREMENT", 101);
    DispatchCounter(store, "INCREMENT", 102);
    DispatchCounter(store, "DECREMENT", 103);
    count := Get(store.api.state, "count");
    dispatch := Get(store.api.state, "dispatch");
  }
}
