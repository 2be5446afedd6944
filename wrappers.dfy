/** Optional values and HTTP-style outcomes shared by the whole model. */
module Wrappers {

  datatype Option<T> = None | Some(value: T)

  /** The result of an endpoint: a value, or the status code and detail of the
      HTTPException it raises. */
  datatype Outcome<T> = Ok(value: T) | Fail(status: int, detail: string)
}
