/** Option, record identifiers and the request outcome shared by every handler. */
module Wrappers {

  /** A Mongo ObjectId, abstracted to a natural number. */
  type Id = nat

  datatype Option<+T> = None | Some(value: T)

  /** What an Express handler sends back: a value (HTTP 200 or 201) or an HTTP error status
      with the handler's own message. */
  datatype Response<+T> = Ok(value: T) | Err(code: nat, message: string)
}
