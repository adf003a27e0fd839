/** Failure-carrying values shared by the Node model: an optional value, a
    result that is either a value or an error, and the errors the Node code
    raises (Python exceptions become `Err` values). */
module Wrappers {

  datatype Option<+T> = None | Some(value: T)

  datatype Result<+T> = Ok(value: T) | Err(error: Error)

  /** The exceptions the Node code can raise, one constructor per cause. */
  datatype Error =
    | IndexError                              // a list was indexed past its end
    | UnboundOutput                           // `output` was never assigned: the Node has no units
    | MissingInput                            // `self.input` read before `set_input` was called
    | NoAttribute(owner: string, name: string) // AttributeError naming the Node and the member
    | NotCallable(name: string)               // the member exists but is not a method (TypeError)
    | CopyForbidden(node: string)             // a Node cannot be copied

  function Min(a: nat, b: nat): (m: nat)
    ensures m <= a && m <= b && (m == a || m == b)
  {
    if a <= b then a else b
  }
}
