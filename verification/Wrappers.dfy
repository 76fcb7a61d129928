/** The two small result types every module shares. */
module Wrappers {

  datatype Option<+T> = None | Some(value: T) {
    function GetOr(default: T): T {
      if Some? then value else default
    }
  }

  /** How a service call ends. Everything but `Done` rolls the transaction back. */
  datatype Outcome =
    | Done
    | BadRequest
    | NotFound
    | Conflict
    | Fault  // an unexpected exception, not one the API answers with
}
