/**
 * The global loading indicator: a provider holding a counter of operations
 * in progress, raised by `startLoading`, lowered (never below zero) by
 * `stopLoading`, and bracketed around an awaited promise by `withLoading`.
 * The indicator shows while the counter is positive.
 */
module Loading {
  import opened Common

  /** How an awaited promise settles: resolved with a value, or rejected with a reason. */
  datatype Settled<T> = Resolved(value: T) | Rejected(reason: string)

  /** `LoadingProvider`'s `loadingCount` state and the operations on it. */
  class LoadingProvider {
    var count: nat

    constructor ()
      ensures count == 0
    {
      count := 0;
    }

    /** `isLoading` */
    predicate IsLoading()
      reads this
    {
      count > 0
    }

    /** `startLoading`: one more operation in progress. */
    method StartLoading()
      modifies this
      ensures count == old(count) + 1
      ensures IsLoading()
    {
      count := count + 1;
    }

    /** `stopLoading`: one fewer, but never below zero. */
    method StopLoading()
      modifies this
      ensures count == if old(count) == 0 then 0 else old(count) - 1
      ensures old(count) <= 1 ==> !IsLoading()
    {
      count := if count == 0 then 0 else count - 1;
    }

    /**
     * `withLoading(promise)`: the promise's outcome, passed through whether it
     * resolves or rejects, with the counter raised while it is awaited and
     * back to its earlier value afterwards (when nothing else runs meanwhile).
     */
    method WithLoading<T>(promise: Settled<T>) returns (r: Settled<T>)
      modifies this
      ensures r == promise
      ensures count == old(count)
    {
      StartLoading();
      r := promise;
      StopLoading();
    }
  }

  /** `useLoading`: the provider in scope, or the error thrown when there is none. */
  function UseLoading(context: Option<LoadingProvider>): (r: Settled<LoadingProvider>)
    ensures r.Resolved? <==> context.Some?
    ensures r.Resolved? ==> r.value == context.value
    ensures r.Rejected? ==> r.reason == "useLoading must be used within a LoadingProvider"
  {
    match context
    case Some(p) => Resolved(p)
    case None => Rejected("useLoading must be used within a LoadingProvider")
  }
}
