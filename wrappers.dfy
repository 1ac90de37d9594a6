/** Option and result types standing in for Java's null returns and thrown exceptions. */
module Wrappers {

  datatype Option<T> = None | Some(value: T)

  /** The exceptions the modelled code can raise. */
  datatype JavaError =
    | UnsupportedOperation   // OutputArc.evaluate, Transition.execute
    | NullPointer            // Token.toString on a token whose payload is null
    | IllegalState           // a second remove() on one list iterator in TokenSet.removeAll

  /** The outcome of a call that may throw instead of returning. */
  datatype Result<T> = Ok(value: T) | Fail(error: JavaError)
}
