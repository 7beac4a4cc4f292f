/** Option and Result values, and the exception kinds the modelled code can raise. */
module Wrappers {

  datatype Option<+T> = None | Some(value: T) {
    function GetOr(default: T): T {
      match this
      case Some(v) => v
      case None => default
    }
  }

  /** The exceptions the modelled operations raise or catch. */
  datatype Error =
    | IntegrityError      // a primary-key violation reported by the database
    | AttributeError      // an attribute read on None, or on a value that lacks it
    | KeyError            // a required key missing from a dictionary
    | NameError           // a local variable read before it was assigned
    | TypeError           // an operation applied to a value of the wrong type
    | ValueError          // int() of a string that is not a number
    | ValidationError     // a record constructed without a required field
    | ConflictError       // the messaging platform reported a competing poller
    | PollingError        // any other failure while polling for updates
    | ConflictUnresolved  // the conflict handler gave up

  datatype Result<+T> = Ok(value: T) | Err(error: Error) {
    predicate IsFailure() { Err? }
  }

  /** Python truthiness of an optional string: neither None nor "". */
  predicate Truthy(s: Option<string>) {
    s.Some? && s.value != ""
  }

  /** Python's `a or b` on optional strings. */
  function Or(a: Option<string>, b: Option<string>): Option<string> {
    if Truthy(a) then a else b
  }
}
