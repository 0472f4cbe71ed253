/**
 * The small part of Reactor's semantics the client relies on, stated over
 * finite sequences.  A `Flux` is modelled by the finite prefix it has
 * delivered (a `Trace`): the items, in order, and possibly the error that
 * terminated it.  `flux.flatMap(f)` with a stateful `f` that returns a `Mono`
 * (empty, one value, or an error) is `Run(step, state, input)`: the inputs are
 * handed to `f` one at a time, in arrival order, and the first error ends
 * the sequence.
 */
module Reactive {

  datatype Option<+T> = None | Some(value: T)

  /** The outcome of one JSON parse: the decoded value, or the message of the exception it raised. */
  datatype Parsed<+T> = Parsed(value: T) | Malformed(reason: string)

  /** The error document of a ksqlDB server (the `KsqlDBServerError` record). */
  datatype ServerError = ServerError(
    kind: string,
    errorCode: int,
    message: string,
    stackTrace: seq<string>,
    statementText: string,
    entities: seq<string>)

  /** The exceptions the decoding pipeline can raise. */
  datatype Failure =
    | Runtime(cause: string)              // a RuntimeException wrapping a JSON parse exception
    | ServerException(error: ServerError) // a KsqlDBServerException carrying the server's error
    | QueryFailed(message: string)        // a RuntimeException built from an in-band error message
    | NoElement                           // the NoSuchElementException of `last()` on an empty sequence

  /** What a `Mono` signals: completion without a value, one value, or an error. */
  datatype Signal<+T> = Empty | Just(value: T) | Error(failure: Failure)

  /** The value a call returns, or the exception it throws. */
  datatype Result<+T> = Ok(value: T) | Err(failure: Failure)

  /** A delivered prefix of a `Flux`: its items in order, then possibly a terminal error. */
  datatype Trace<+T> = Trace(items: seq<T>, failure: Option<Failure>)

  /** Feeds `input` through `step` in order, threading its state, until the first error. */
  function Run<S, I, O>(step: (S, I) -> (S, Signal<O>), s: S, input: seq<I>): Trace<O>
    decreases |input|
  {
    if input == [] then Trace([], None)
    else
      var next := step(s, input[0]);
      match next.1
      case Empty => Run(step, next.0, input[1..])
      case Just(v) =>
        var rest := Run(step, next.0, input[1..]);
        Trace([v] + rest.items, rest.failure)
      case Error(f) => Trace([], Some(f))
  }

  /** The state `step` reaches after it has been applied to every element of `input`. */
  function StateAfter<S, I, O>(step: (S, I) -> (S, Signal<O>), s: S, input: seq<I>): S
    decreases |input|
  {
    if input == [] then s else StateAfter(step, step(s, input[0]).0, input[1..])
  }

  /** Appends the item or error one more signal contributes to a trace that has not failed. */
  function Extend<T>(t: Trace<T>, sig: Signal<T>): Trace<T>
  {
    match sig
    case Empty => t
    case Just(v) => Trace(t.items + [v], t.failure)
    case Error(f) => Trace(t.items, Some(f))
  }

  /** Every input contributes at most one item. */
  lemma {:induction false} RunBound<S, I, O>(step: (S, I) -> (S, Signal<O>), s: S, input: seq<I>)
    ensures |Run(step, s, input).items| <= |input|
    decreases |input|
  {
    if input != [] {
      RunBound(step, step(s, input[0]).0, input[1..]);
    }
  }

  /** The state after `xs + ys` is the state after `ys`, started from the state after `xs`. */
  lemma {:induction false} StateAfterAppend<S, I, O>(step: (S, I) -> (S, Signal<O>), s: S, xs: seq<I>, ys: seq<I>)
    ensures StateAfter(step, s, xs + ys) == StateAfter(step, StateAfter(step, s, xs), ys)
    decreases |xs|
  {
    if xs == [] {
      assert xs + ys == ys;
    } else {
      assert (xs + ys)[1..] == xs[1..] + ys;
      StateAfterAppend(step, step(s, xs[0]).0, xs[1..], ys);
    }
  }

  /** If processing `xs` raised no error, processing `xs + ys` continues with `ys` from where `xs` left off. */
  lemma {:induction false} RunAppend<S, I, O>(step: (S, I) -> (S, Signal<O>), s: S, xs: seq<I>, ys: seq<I>)
    requires Run(step, s, xs).failure.None?
    ensures var rest := Run(step, StateAfter(step, s, xs), ys);
            Run(step, s, xs + ys) == Trace(Run(step, s, xs).items + rest.items, rest.failure)
    decreases |xs|
  {
    if xs == [] {
      assert xs + ys == ys;
    } else {
      assert (xs + ys)[1..] == xs[1..] + ys;
      RunAppend(step, step(s, xs[0]).0, xs[1..], ys);
    }
  }

  /** Once an error has ended the sequence, later inputs change nothing. */
  lemma {:induction false} RunHalts<S, I, O>(step: (S, I) -> (S, Signal<O>), s: S, xs: seq<I>, ys: seq<I>)
    requires Run(step, s, xs).failure.Some?
    ensures Run(step, s, xs + ys) == Run(step, s, xs)
    decreases |xs|
  {
    assert xs != [];
    assert (xs + ys)[1..] == xs[1..] + ys;
    if step(s, xs[0]).1.Error? {
    } else {
      RunHalts(step, step(s, xs[0]).0, xs[1..], ys);
    }
  }

  /** One more input extends an unfailed prefix by exactly that input's signal. */
  lemma RunSnoc<S, I, O>(step: (S, I) -> (S, Signal<O>), s: S, xs: seq<I>, x: I)
    requires Run(step, s, xs).failure.None?
    ensures Run(step, s, xs + [x]) == Extend(Run(step, s, xs), step(StateAfter(step, s, xs), x).1)
    ensures StateAfter(step, s, xs + [x]) == step(StateAfter(step, s, xs), x).0
  {
    RunAppend(step, s, xs, [x]);
    StateAfterAppend(step, s, xs, [x]);
  }

  /** Concatenates a sequence of batches, in order. */
  function Flatten<T>(batches: seq<seq<T>>): seq<T>
  {
    if batches == [] then [] else batches[0] + Flatten(batches[1..])
  }

  lemma {:induction false} FlattenAppend<T>(xs: seq<seq<T>>, ys: seq<seq<T>>)
    ensures Flatten(xs + ys) == Flatten(xs) + Flatten(ys)
    decreases |xs|
  {
    if xs == [] {
      assert xs + ys == ys;
    } else {
      assert (xs + ys)[1..] == xs[1..] + ys;
      FlattenAppend(xs[1..], ys);
    }
  }
}
