/** Go `error` values as far as the core inspects them: their text
    (`err.Error()`), wrapping with `fmt.Errorf("prefix: %w", err)`, and the
    chain walks `errors.Is` and `errors.As` perform. */
module GoErrors {
  import opened GoStrings

  datatype GoError =
    | DeadlineExceeded            // context.DeadlineExceeded
    | Canceled                    // context.Canceled
    | Sqlite(text: string)        // a *sqlite.Error raised by the SQL engine
    | RedisNil                    // redis.Nil: the key does not exist
    | NotFound                    // the cache's ErrNotFound sentinel
    | Plain(text: string)         // any other error value
    | Wrapped(prefix: string, inner: GoError)   // fmt.Errorf(prefix + ": %w", inner)

  /** The text of the `ErrNotFound` sentinel; its definition is not part of
      this model, and the modelled code never shows it to a client. */
  const NotFoundText: string := "not found"

  /** `err.Error()`. */
  function Message(e: GoError): string
  {
    match e
    case DeadlineExceeded => "context deadline exceeded"
    case Canceled => "context canceled"
    case Sqlite(t) => t
    case RedisNil => "redis: nil"
    case NotFound => NotFoundText
    case Plain(t) => t
    case Wrapped(p, inner) => p + ": " + Message(inner)
  }

  /** `errors.Is(e, target)` for the comparable sentinels: `e` or an error it
      wraps is `target`. */
  predicate Is(e: GoError, target: GoError)
  {
    e == target || (e.Wrapped? && Is(e.inner, target))
  }

  /** `errors.As(e, new(*sqlite.Error))`: some error in the chain is a sqlite error. */
  predicate AsSqlite(e: GoError)
  {
    e.Sqlite? || (e.Wrapped? && AsSqlite(e.inner))
  }

  /** Wrapping keeps what `errors.Is` and `errors.As` find and puts the prefix
      in front of the text. */
  lemma WrapKeeps(p: string, e: GoError, target: GoError)
    requires !target.Wrapped?
    ensures Is(Wrapped(p, e), target) <==> Is(e, target)
    ensures AsSqlite(Wrapped(p, e)) <==> AsSqlite(e)
    ensures HasPrefix(Message(Wrapped(p, e)), p + ": ")
  {
    assert Message(Wrapped(p, e)) == (p + ": ") + Message(e);
  }
}
