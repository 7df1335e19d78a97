/** The optional and result values used across the model: `Option` for the
    parser's `ParsedExpense | null` and for absent request fields, `Result`
    for schema validation. */
module Wrappers {

  datatype Option<+T> = None | Some(value: T)

  datatype Result<+R, +E> = Ok(value: R) | Err(error: E)
}
