/** Values shared by every part of the limiter model: optional values,
    results, Ruby objects as the limiter sees them, Ruby numbers, and what
    a piece of user code does when it is called. */
module Base {

  datatype Option<T> = None | Some(value: T)

  datatype Result<T, E> = Success(value: T) | Failure(error: E)

  /** A Ruby object as the limiter looks at it: `nil`, an object that
      responds to `call` (a Proc, a lambda, a Method), or any other object. */
  datatype Value = Nil | Proc(id: nat) | Other(id: nat)
  {
    /** `respond_to?(:call)` */
    predicate RespondsToCall() { Proc? }
  }

  /** A Ruby number as it reaches a State: an Integer, or a Float that
      holds a whole number of milliseconds, `millis / 1000.0`. */
  datatype Num = Int(n: int) | Float(millis: int)
  {
    /** The number in seconds. */
    function Seconds(): real
    {
      match this
      case Int(n) => n as real
      case Float(m) => m as real / 1000.0
    }

    /** `negative?`, decided on the integer representation. */
    predicate Negative(): (b: bool)
      ensures b <==> Seconds() < 0.0
    {
      match this
      case Int(n) => n < 0
      case Float(m) => m < 0
    }
  }

  /** How a call into user code ended: with a value, or by raising. */
  datatype Outcome = Returned(value: Value) | Raised(message: string)

  /** A call into user code: how it ended and how many milliseconds it took. */
  datatype Completion = Completion(outcome: Outcome, elapsed: nat)
}
