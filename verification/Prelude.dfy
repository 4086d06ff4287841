/** Types shared by all modules. */
module Prelude {
  datatype Option<+T> = None | Some(value: T)
}
