/** Small value wrappers shared by the other modules. */
module Wrappers {

  /** An optional value: `std::optional`, a nullable pointer, or an outcome that may be absent. */
  datatype Option<+T> = None | Some(value: T)
}
