/** The synchronous side of `toThenable` in src/middleware/persist.ts: a
    result or a thrown error, chained with `then` and `catch`. */
module Thenables {
  import opened Values

  /** What calling a JavaScript function does: return a value or throw one. */
  datatype Attempt<+T> = Returned(value: T) | Threw(error: Value)

  /** The record `toThenable` builds: one that holds a result, or one that holds an error. */
  datatype Thenable<+T> = Fulfilled(value: T) | Rejected(reason: Value)

  /** `toThenable(fn)(input)`: run `fn`; a returned value becomes a fulfilled
      thenable, a thrown error a rejected one. */
  function ToThenable<I, R>(fn: I -> Attempt<R>, input: I): (t: Thenable<R>)
    ensures t.Fulfilled? <==> fn(input).Returned?
    ensures t.Fulfilled? ==> fn(input) == Returned(t.value)
    ensures t.Rejected? ==> fn(input) == Threw(t.reason)
  {
    match fn(input)
    case Returned(v) => Fulfilled(v)
    case Threw(e) => Rejected(e)
  }

  /** `t.then(onFulfilled)`: a fulfilled thenable runs the handler through
      `toThenable`; a rejected one returns itself. */
  function Then<T, U>(t: Thenable<T>, onFulfilled: T -> Attempt<U>): (r: Thenable<U>)
    ensures t.Rejected? ==> r == Rejected(t.reason)
    ensures r.Fulfilled? ==> t.Fulfilled? && onFulfilled(t.value) == Returned(r.value)
    ensures r.Rejected? && t.Fulfilled? ==> onFulfilled(t.value) == Threw(r.reason)
  {
    match t
    case Fulfilled(v) => ToThenable(onFulfilled, v)
    case Rejected(e) => Rejected(e)
  }

  /** `t.catch(onRejected)`: a fulfilled thenable returns itself; a rejected
      one runs the handler on the error through `toThenable`. */
  function Catch<T>(t: Thenable<T>, onRejected: Value -> Attempt<T>): (r: Thenable<T>)
    ensures t.Fulfilled? ==> r == t
    ensures r.Rejected? ==> t.Rejected? && onRejected(t.reason) == Threw(r.reason)
    ensures r.Fulfilled? && t.Rejected? ==> onRejected(t.reason) == Returned(r.value)
  {
    match t
    case Fulfilled(v) => Fulfilled(v)
    case Rejected(e) => ToThenable(onRejected, e)
  }

  /** Sequencing two handlers inside one `then` callback. */
  function AndThen<T, U>(a: Attempt<T>, next: T -> Attempt<U>): Attempt<U> {
    match a
    case Returned(v) => next(v)
    case Threw(e) => Threw(e)
  }

  /** `t.then(h0).then(h1)...` for a list of handlers. */
  function ThenAll<T>(t: Thenable<T>, handlers: seq<T -> Attempt<T>>): Thenable<T>
    decreases |handlers|
  {
    if handlers == [] then t else ThenAll(Then(t, handlers[0]), handlers[1..])
  }

  /** The four cases of `toThenable`: `then` on a result applies its handler,
      `catch` on a result is the same thenable, `then` on an error is the same
      thenable, `catch` on an error applies its handler to the error. */
  lemma ThenCatchCases<T, U>(t: Thenable<T>, f: T -> Attempt<U>, h: Value -> Attempt<T>)
    ensures t.Fulfilled? ==> Then(t, f) == ToThenable(f, t.value) && Catch(t, h) == t
    ensures t.Rejected? ==> Then(t, f) == Rejected(t.reason) && Catch(t, h) == ToThenable(h, t.reason)
  {
  }

  /** A handler that throws is captured: the chain turns into a rejected
      thenable carrying exactly the thrown error, and a handler that returns
      turns it into a fulfilled one carrying the returned value. */
  lemma HandlerThrowCaptured<T, U>(v: T, f: T -> Attempt<U>)
    ensures f(v).Threw? ==> Then(Fulfilled(v), f) == Rejected(f(v).error)
    ensures f(v).Returned? ==> Then(Fulfilled(v), f) == Fulfilled(f(v).value)
  {
  }

  /** Two `then`s in a row behave like one `then` whose handler runs both:
      the chain shape used by `hydrate` does not matter. */
  lemma ThenAssociative<T, U, W>(t: Thenable<T>, f: T -> Attempt<U>, g: U -> Attempt<W>)
    ensures Then(Then(t, f), g) == Then(t, x => AndThen(f(x), g))
  {
  }

  /** An error skips every later `then` and reaches the next `catch`. */
  lemma {:induction false} RejectionSkipsThens<T>(e: Value, handlers: seq<T -> Attempt<T>>, onRejected: Value -> Attempt<T>)
    ensures ThenAll(Rejected(e), handlers) == Rejected(e)
    ensures Catch(ThenAll(Rejected(e), handlers), onRejected) == ToThenable(onRejected, e)
    decreases |handlers|
  {
    if handlers != [] {
      RejectionSkipsThens(e, handlers[1..], onRejected);
    }
  }

  /** The handlers of a chain run one after another on a plain value: each
      gets what the previous one returned, and the first throw ends the run. */
  function RunAll<T>(v: T, handlers: seq<T -> Attempt<T>>): Attempt<T>
    decreases |handlers|
  {
    if handlers == [] then Returned(v)
    else match handlers[0](v)
      case Returned(w) => RunAll(w, handlers[1..])
      case Threw(e) => Threw(e)
  }

  /** A chain of `then`s on a result is the sequential run of its handlers:
      fulfilled with the last value returned, or rejected with the error of
      the first handler that throws. */
  lemma {:induction false} ThenAllRunsHandlers<T>(v: T, handlers: seq<T -> Attempt<T>>)
    ensures ThenAll(Fulfilled(v), handlers) ==
      match RunAll(v, handlers)
      case Returned(w) => Fulfilled(w)
      case Threw(e) => Rejected(e)
    decreases |handlers|
  {
    if handlers != [] {
      match handlers[0](v)
      case Returned(w) =>
        ThenAllRunsHandlers(w, handlers[1..]);
      case Threw(e) =>
        RejectionSkipsThens(e, handlers[1..], (x: Value) => Threw(x));
    }
  }
}
