/**
 * The asynchronous-state hooks (app/hooks/useAsync.ts).
 *
 * `useAsync` keeps a `{data, loading, error}` record for one asynchronous
 * call and `useLoading` keeps one loading flag. The awaited function is
 * outside the model: what its promise settles with is a parameter of the
 * methods, and each `await` becomes the point between two state updates.
 */
module AsyncHooks {
  import opened Wrappers

  /** A JavaScript `Error` object. */
  datatype Error = Error(message: string)

  /** A value thrown by the awaited function: an `Error`, or anything else. */
  datatype Thrown = ThrownError(error: Error) | ThrownOther

  /** How the awaited promise settles. */
  datatype Settled<T> = Resolved(value: T) | Rejected(reason: Thrown)

  /** `error instanceof Error ? error : new Error("Unknown error")`. */
  function AsError(t: Thrown): (e: Error)
    ensures t.ThrownError? ==> e == t.error
    ensures t.ThrownOther? ==> e.message == "Unknown error"
  {
    match t
    case ThrownError(e) => e
    case ThrownOther => Error("Unknown error")
  }

  /** The record `useAsync` exposes (besides `refetch`). */
  datatype AsyncState<T> = AsyncState(data: Option<T>, loading: bool, error: Option<Error>)

  /** `data` and `error` are never both set. */
  predicate Exclusive<T>(s: AsyncState<T>) {
    !(s.data.Some? && s.error.Some?)
  }

  /** The state before the first call settles: loading, with neither data nor error. */
  function Initial<T>(): (s: AsyncState<T>)
    ensures s.loading && s.data.None? && s.error.None?
    ensures Exclusive(s)
  {
    AsyncState(None, true, None)
  }

  /** Start of `execute`: loading again, the error cleared, the previous data kept. */
  function Begin<T>(s: AsyncState<T>): (r: AsyncState<T>)
    ensures r.loading && r.error.None? && r.data == s.data
    ensures Exclusive(r)
  {
    s.(loading := true, error := None)
  }

  /** End of `execute`: the result replaces the data, or the failure replaces it with an error. */
  function Settle<T>(s: AsyncState<T>, outcome: Settled<T>): (r: AsyncState<T>)
    ensures !r.loading && Exclusive(r)
    ensures outcome.Resolved? ==> r.data == Some(outcome.value) && r.error.None?
    ensures outcome.Rejected? ==> r.data.None? && r.error == Some(AsError(outcome.reason))
  {
    match outcome
    case Resolved(v) => AsyncState(Some(v), false, None)
    case Rejected(t) => AsyncState(None, false, Some(AsError(t)))
  }

  /** One whole `execute` (also what `refetch` runs). */
  function AfterExecute<T>(s: AsyncState<T>, outcome: Settled<T>): AsyncState<T> {
    Settle(Begin(s), outcome)
  }

  /** A refetch forgets everything about the previous call: only the new outcome matters. */
  lemma RefetchReplaces<T>(s: AsyncState<T>, first: Settled<T>, second: Settled<T>)
    ensures AfterExecute(AfterExecute(s, first), second) == AfterExecute(Initial(), second)
    ensures second.Resolved? ==> AfterExecute(AfterExecute(s, first), second).data == Some(second.value)
  {
  }

  /** The two halves of `execute`, as the page can observe them between renders. */
  datatype Phase<T> = Start | Finish(outcome: Settled<T>)

  function Apply<T>(s: AsyncState<T>, phases: seq<Phase<T>>): AsyncState<T>
    decreases |phases|
  {
    if phases == [] then s
    else
      var s' := match phases[0]
        case Start => Begin(s)
        case Finish(o) => Settle(s, o);
      Apply(s', phases[1..])
  }

  /** Whatever interleaving of starts and settlements occurs, `data` and `error` are never both set. */
  lemma {:induction false} AlwaysExclusive<T>(s: AsyncState<T>, phases: seq<Phase<T>>)
    requires Exclusive(s)
    ensures Exclusive(Apply(s, phases))
    decreases |phases|
  {
    if phases != [] {
      var s' := match phases[0]
        case Start => Begin(s)
        case Finish(o) => Settle(s, o);
      AlwaysExclusive(s', phases[1..]);
    }
  }

  /** The `useAsync` hook's state cell. */
  class AsyncHook<T> {
    var data: Option<T>
    var loading: bool
    var error: Option<Error>

    function State(): AsyncState<T>
      reads this
    {
      AsyncState(data, loading, error)
    }

    constructor()
      ensures State() == Initial()
    {
      data, loading, error := None, true, None;
    }

    /** `setState(prev => ({...prev, loading: true, error: null}))`. */
    method Start()
      modifies this
      ensures State() == Begin(old(State()))
    {
      loading, error := true, None;
    }

    /** The `try`/`catch` after the `await`: one `setState` with the outcome. */
    method Finish(outcome: Settled<T>)
      modifies this
      ensures State() == Settle(old(State()), outcome)
    {
      match outcome
      case Resolved(v) =>
        data, loading, error := Some(v), false, None;
      case Rejected(t) =>
        data, loading, error := None, false, Some(AsError(t));
    }

    /** `execute` run to completion. */
    method Execute(outcome: Settled<T>)
      modifies this
      ensures State() == AfterExecute(old(State()), outcome)
    {
      Start();
      Finish(outcome);
    }

    /** `refetch` runs `execute` again; its outcome replaces the previous one. */
    method Refetch(outcome: Settled<T>)
      modifies this
      ensures State() == AfterExecute(old(State()), outcome)
      ensures State() == AfterExecute(Initial(), outcome)
    {
      Execute(outcome);
    }
  }

  /** `useLoading()` without an argument starts not loading. */
  const DefaultInitialState: bool := false

  /** The `useLoading` hook's flag, with the history of values written to it. */
  class LoadingFlag {
    var isLoading: bool
    ghost var writes: seq<bool>

    constructor(initialState: bool := DefaultInitialState)
      ensures isLoading == initialState && writes == []
    {
      isLoading := initialState;
      writes := [];
    }

    method StartLoading()
      modifies this
      ensures isLoading && writes == old(writes) + [true]
    {
      isLoading := true;
      writes := writes + [true];
    }

    method StopLoading()
      modifies this
      ensures !isLoading && writes == old(writes) + [false]
    {
      isLoading := false;
      writes := writes + [false];
    }

    /**
     * `withLoading(fn)`: raise the flag, await `fn`, and lower the flag in a
     * `finally`, so that it ends lowered whether `fn` resolves or rejects.
     * The result is the resolved value, or the same rejection rethrown.
     */
    method WithLoading<T>(outcome: Settled<T>) returns (r: Settled<T>)
      modifies this
      ensures r == outcome
      ensures !isLoading && writes == old(writes) + [true, false]
    {
      StartLoading();
      match outcome {
        case Resolved(v) =>
          r := Resolved(v);
        case Rejected(t) =>
          r := Rejected(t);
      }
      StopLoading();
    }
  }

  /** The hook as its tests create it: once without an argument, once with `true`. */
  method CreateLoadingFlags() returns (plain: LoadingFlag, custom: LoadingFlag)
    ensures !plain.isLoading && custom.isLoading
    ensures plain.writes == [] && custom.writes == []
  {
    plain := new LoadingFlag();
    custom := new LoadingFlag(true);
  }
}
