/** Errors of the storage layer and Go's error wrapping.

    The storage package exports two sentinel errors, ErrURLNotFound and
    ErrURLExists. Callers compare against them with errors.Is, which looks
    through every layer added by fmt.Errorf("...: %w", err). Any other failure
    of the database driver is an opaque Fault here. */
module Errors {

  datatype Option<+T> = None | Some(value: T)

  datatype Result<+T> = Ok(value: T) | Err(error: Error)

  datatype Error =
    | ErrURLNotFound
    | ErrURLExists
      /** A failure of the database or its driver other than the two above. */
    | Fault(msg: string)
      /** fmt.Errorf("<context>: %w", cause) */
    | Wrapped(context: string, cause: Error)

  /** The error at the bottom of a chain of wrappers. */
  function Root(e: Error): (r: Error)
    ensures !r.Wrapped?
    ensures Is(e, r)
  {
    if e.Wrapped? then Root(e.cause) else e
  }

  /** errors.Is: true when the target is found anywhere in the chain of causes. */
  predicate Is(e: Error, target: Error)
    ensures e == target ==> Is(e, target)
    ensures !e.Wrapped? ==> (Is(e, target) <==> e == target)
  {
    e == target || (e.Wrapped? && Is(e.cause, target))
  }

  /** For a sentinel target, errors.Is looks only at the root of the chain. */
  lemma {:induction false} IsSentinelIffRoot(e: Error, target: Error)
    requires target == ErrURLNotFound || target == ErrURLExists
    ensures Is(e, target) <==> Root(e) == target
  {
    if e.Wrapped? {
      IsSentinelIffRoot(e.cause, target);
    }
  }

  /** A driver failure, however often it is wrapped, is never mistaken for
      either sentinel. */
  lemma {:induction false} FaultIsNoSentinel(e: Error)
    requires Root(e).Fault?
    ensures !Is(e, ErrURLNotFound) && !Is(e, ErrURLExists)
  {
    IsSentinelIffRoot(e, ErrURLNotFound);
    IsSentinelIffRoot(e, ErrURLExists);
  }
}
