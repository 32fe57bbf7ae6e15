/** The exceptions the core raises, as values. */
module Exceptions {

  /** The reasons an `InvalidAuth` is raised; `SessionExpired` and `SessionLoadError` are its subclasses. */
  datatype InvalidAuthKind =
    | NotBaseAuth                     // the configured auth object is not a BaseAuth
    | LegacySessionInvalid            // the older LocalAuth saw a QR on a persisted profile
    | SessionExpired(path: string)    // a QR appeared on a persisted profile, which was then removed
    | SessionLoadError(retries: int)  // neither a QR nor the loaded UI appeared within the budget

  datatype Error =
    | ClientAlreadyInitialized
    | InvalidAuth(kind: InvalidAuthKind)
    | QrNotFound(maxRetries: int)
    | TypeError                       // a call with a keyword argument the callee does not take
}
