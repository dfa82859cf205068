/** The error values of internal/errors.go and the two ways the rest of the
    source builds errors: OS errors it only passes along, and
    `fmt.Errorf` messages with or without `%w` wrapping. */
module Errors {

  datatype Error =
    | ProcessNotFound
    | ProcessNotRunning
    | PermissionDenied
    | ResourceLimit
    | Timeout
    | InvalidInput
    | ProcessAlreadyTerminated
    | RegistryFull
      /** An error produced by an OS collaborator (pipe, spawn, signal, write). */
    | Os(description: string)
      /** `fmt.Errorf` without `%w`: a message and nothing to unwrap. */
    | Message(text: string)
      /** `fmt.Errorf("<context>: %w", cause)`. */
    | Wrapped(context: string, cause: Error)

  /** Go's `errors.Is`: `e` is `target` or wraps it, at any depth. */
  predicate Is(e: Error, target: Error) {
    e == target || (e.Wrapped? && Is(e.cause, target))
  }
}
