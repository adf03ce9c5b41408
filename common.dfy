/** Shared result types: Python's `None`-or-value and raise-or-return, as values. */
module Common {

  datatype Option<+T> = None | Some(value: T)

  /** The exception classes the modelled code raises or lets escape. */
  datatype Error =
    | ConnectionError     // a failed HTTP request, re-raised by the question loader
    | ValueError          // an unexpected payload shape, bad JSON, or a negative sample size
    | FileNotFound        // a missing local question file
    | KeyError            // a dictionary key the code reads without a default
    | IndexError          // a list index past the end
    | ZeroDivisionError   // score / total with total == 0
    | CollaboratorError   // an exception escaping a collaborator the model does not see

  datatype Result<+T> = Ok(value: T) | Err(error: Error)

  function Min(a: int, b: int): (r: int)
    ensures r <= a && r <= b && (r == a || r == b)
  {
    if a <= b then a else b
  }
}
