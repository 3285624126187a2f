/** Option and Result values shared by the modules of the ledger model. */
module Wrappers {

  datatype Option<+T> = None | Some(value: T)

  /** The error signals the store reports to its HTTP handlers. */
  datatype Error = NotFound | StoreError | TypeError

  datatype Result<+T> = Ok(value: T) | Err(error: Error)
}
