/** Results of operations that may have nothing to give or may fail.
*/
module Wrappers {

  datatype Option<+T> = None | Some(value: T)

  datatype Result<+T> = Ok(value: T) | Err
}
