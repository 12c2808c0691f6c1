/** The error values the modelled code returns or wraps. */
module Errors {
  import opened Wrappers

  datatype Error =
    // pkg/domain sentinel errors
    | NotFound
    | OrderNumberTooLong
    | BadOrderNumber
    | OrderCreatedByCurrentUser
    | OrderCreatedByOtherUser
    | NotEnoughAccruals
    // `domain.Error` wrapped by the repository when a row ID is uuid.Nil
    | IdNotSet
    // uuid.NewV6 failed
    | IdGeneration
    // a database error: a violated constraint, or scanning SQL NULL into a float64
    | Db(reason: string)
    // ParseServerHostPort: more than one ':' / strconv.Atoi failure
    | AddressForm
    | PortSyntax
    // an error wrapped by the retry helpers (`retriablePostgresErr`,
    // `RetriableError`); `temporary` is what IsRetriable reports
    | Retriable(inner: Error, temporary: bool)
    // errors.Join(first, second)
    | Joined(first: Error, second: Error)
    // fmt.Errorf("panic: %v") and fmt.Errorf("panic: %v (unable to rollback: %w)")
    | Panic(value: string, rollback: Option<Error>)
    // any other error produced by a collaborator the model does not look into
    | Other(text: string)

  /** `errors.Is(e, target)` for the error values above: `target` is `e` or is
      wrapped by it through Join or a failed rollback (`%w`). The retriable
      wrappers have no Unwrap method, so nothing is found inside them. */
  predicate Is(e: Error, target: Error)
  {
    e == target ||
    match e
    case Joined(a, b) => Is(a, target) || Is(b, target)
    case Panic(_, Some(rb)) => Is(rb, target)
    case _ => false
  }
}
