/** A minimal stand-in for the store the middlewares sit on (`set`/`get` of
    vanilla.ts, which is not part of this model). It holds one state value;
    `Set` shallow-merges the candidate into it unless `replace` is true. */
module VanillaStore {
  import opened Values

  /** The first argument of `set`: a value, or an updater applied to the state. */
  datatype Update = Replace(value: Value) | Compute(fn: Value -> Value)

  /** One recorded call of `set(partial, replace, actionName)`. */
  datatype SetCall = SetCall(update: Update, replace: bool, actionName: Value)

  function Candidate(state: Value, u: Update): Value {
    match u
    case Replace(v) => v
    case Compute(f) => f(state)
  }

  /** The state after `set`: unchanged when the candidate is identical to it,
      the candidate itself when `replace` is true or the candidate is not an
      object, and otherwise a new object (reference `ref`) holding the state's
      properties overridden by the candidate's. */
  function NextState(state: Value, u: Update, replace: bool, ref: nat): Value {
    var c := Candidate(state, u);
    if SameValue(c, state) then state
    else if replace || !IsObjectType(c) then c
    else Obj(ref, Props(state) + Props(c))
  }

  class Store {
    var state: Value
    /** The next unused object reference. */
    var nextRef: nat
    /** Every `set` call so far, oldest first. */
    ghost var calls: seq<SetCall>

    /** Before the initializer's result is stored, `get()` returns undefined. */
    constructor ()
      ensures state == Undefined && nextRef == 0 && calls == []
    {
      state := Undefined;
      nextRef := 0;
      calls := [];
    }

    /** Allocates the reference of a new object or function. */
    method Alloc() returns (ref: nat)
      modifies this`nextRef
      ensures ref == old(nextRef) && nextRef == ref + 1
    {
      ref := nextRef;
      nextRef := nextRef + 1;
    }

    /** Store creation keeps what the initializer returned as the state. */
    method Initialize(v: Value)
      modifies this`state
      ensures state == v
    {
      state := v;
    }

    /** `set(partial, replace, actionName)`: the state becomes
        `NextState` of the old one, one reference is used up, and the call
        is recorded. */
    method Set(u: Update, replace: bool, actionName: Value)
      modifies this
      ensures state == NextState(old(state), u, replace, old(nextRef))
      ensures nextRef == old(nextRef) + 1
      ensures calls == old(calls) + [SetCall(u, replace, actionName)]
    {
      state := NextState(state, u, replace, nextRef);
      nextRef := nextRef + 1;
      calls := calls + [SetCall(u, replace, actionName)];
    }
  }

  /** The three outcomes of `set`: the candidate itself under `replace` or
      when it is not an object; the old state when the candidate is
      identical to it; otherwise a new object with the keys of both, where
      the candidate's values win. */
  lemma NextStateCases(state: Value, u: Update, replace: bool, ref: nat)
    ensures replace || !IsObjectType(Candidate(state, u)) ==> NextState(state, u, replace, ref) == Candidate(state, u)
    ensures Candidate(state, u) == state ==> NextState(state, u, replace, ref) == state
    ensures !replace && IsObjectType(Candidate(state, u)) && Candidate(state, u) != state ==>
      var c := Candidate(state, u);
      var r := NextState(state, u, replace, ref);
      r.Obj? && r.ref == ref && r.props.Keys == Props(state).Keys + Props(c).Keys &&
      (forall k :: k in Props(c) ==> r.props[k] == Props(c)[k]) &&
      (forall k :: k in Props(state) && k !in Props(c) ==> r.props[k] == Props(state)[k])
  {
  }

  /** Replacing the state leaves exactly the given value, whether or not it is
      identical to the old state. */
  lemma ReplaceLeavesValue(state: Value, v: Value, ref: nat)
    ensures NextState(state, Replace(v), true, ref) == v
  {
  }
}
