/**
 Go error values as the framework builds them with `fmt.Errorf`.

 An error is either a plain message (`fmt.Errorf` without `%w`) or a message
 that wraps a cause (`fmt.Errorf("context: %w", cause)`), so that the chain of
 causes stays inspectable, as Go's `errors.Is` / `errors.Unwrap` see it.
 */
module Errors {

  datatype Error =
    | Leaf(text: string)
    | Wrapped(context: string, cause: Error)

  /** The string `Error()` returns: a wrapping error prints its context,
      a colon and a space, then its cause. */
  function Message(e: Error): string
  {
    match e
    case Leaf(t) => t
    case Wrapped(c, cause) => c + ": " + Message(cause)
  }

  /** `errors.Is(e, target)`: `target` is `e` itself or somewhere in its chain of causes. */
  predicate Is(e: Error, target: Error)
  {
    e == target || (e.Wrapped? && Is(e.cause, target))
  }

  /** The innermost cause of an error chain. */
  function Root(e: Error): Error
  {
    match e
    case Leaf(_) => e
    case Wrapped(_, cause) => Root(cause)
  }

  /** Wrapping never hides the cause: every error in the chain, and in
      particular its root, is still found by `Is`. */
  lemma {:induction false} RootIsInChain(e: Error)
    ensures Is(e, Root(e))
    ensures Root(e).Leaf?
  {
    match e
    case Leaf(_) =>
    case Wrapped(_, cause) => RootIsInChain(cause);
  }

  /** A value that may be absent. */
  datatype Option<+T> = None | Some(value: T)

  /** The outcome of a Go function returning only `error`. */
  datatype Outcome = Pass | Fail(error: Error)

  /** The outcome of a Go function returning `(T, error)`. */
  datatype Result<+T> = Ok(value: T) | Err(error: Error)
}
