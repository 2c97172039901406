/** JavaScript values that the modelled code passes around: optional values,
    thrown values, and how an asynchronous call ends. */
module Js {

  /** A value that may be `undefined` (or `null`). */
  datatype Option<+T> = None | Some(value: T)

  /** What a `throw` (or a promise rejection) carries: an `Error` object with
      its `message`, or any other value, which has no message. */
  datatype Thrown = ErrorObject(message: string) | NonError

  /** How an awaited call ends: it is still pending (never settles), it
      fulfils with a value, or it rejects with a thrown value. */
  datatype Settled<+T> = Pending | Fulfilled(value: T) | Rejected(reason: Thrown)

  /** JavaScript truthiness of a possibly missing string: `undefined`, `null`
      and `""` are falsy, every other string is truthy. */
  predicate Truthy(s: Option<string>)
  {
    s.Some? && s.value != ""
  }

  /** `new Error(message)`, as thrown by the modelled code. */
  function Fail<T>(message: string): Settled<T>
  {
    Rejected(ErrorObject(message))
  }
}
