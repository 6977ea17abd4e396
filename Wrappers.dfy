/** Small value wrappers shared by the handlers: a nullable value and the
    (response, new state) pair that every handler step produces. */
module Wrappers {

  /** A C# nullable value: `None` stands for `null`. */
  datatype Option<+T> = None | Some(value: T)

  /** The C# null-coalescing operator `o ?? fallback`. */
  function Coalesce<T>(o: Option<T>, fallback: T): T
  {
    match o
    case Some(v) => v
    case None => fallback
  }

  /** What one call of a handler answers, together with the state it leaves behind. */
  datatype Step<+R, +S> = Step(response: R, state: S)
}
