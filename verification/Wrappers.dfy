/** The stock optional value: a C++ std::optional, or a JavaScript value that may be undefined. */
module Wrappers {
  datatype Option<+T> = None | Some(value: T)
  {
    function GetOr(default: T): T {
      if Some? then value else default
    }
  }
}
