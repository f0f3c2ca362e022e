/** Maybe and Either, the two wrappers the actor runtime returns from
    lookups and validations, plus the values the runtime treats as opaque. */
module Wrappers {

  /** A lookup that may find nothing (the runtime's `Maybe`). */
  datatype Option<+T> = None | Some(value: T) {
    /** `orJust`: the value, or the fallback when there is none. */
    function OrJust(fallback: T): (r: T)
      ensures Some? ==> r == value
      ensures None? ==> r == fallback
    {
      match this
      case Some(v) => v
      case None => fallback
    }
  }

  /** A result that is either a rejection (`Left`) or a success (`Right`). */
  datatype Either<+L, +R> = Left(left: L) | Right(right: R)

  /** `fromBoolean`: `Right(true)` for true, `Left(false)` for false. */
  function FromBoolean(b: bool): (r: Either<bool, bool>)
    ensures r.Right? <==> b
  {
    if b then Right(b) else Left(b)
  }

  /** The unit value carried by `Right` when a behaviour reports success. */
  datatype Unit = Unit
}

/** Values the runtime stores and routes but never inspects. */
module Values {

  /** A message payload. */
  type Message(==)

  /** A running actor instance (the object a template's `create` returns). */
  type Instance(==)

  /** A pattern a `Case` tests messages against. */
  type Pattern

  /** An error raised by actor code; only its message is observable. */
  datatype Err = Err(message: string)
}
