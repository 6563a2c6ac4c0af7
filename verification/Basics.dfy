/** Small definitions shared by the model: optional values and sequence helpers. */
module Basics {

  datatype Option<+T> = None | Some(value: T)

  function Last<T>(xs: seq<T>): T
    requires xs != []
  {
    xs[|xs| - 1]
  }

  function Init<T>(xs: seq<T>): seq<T>
    requires xs != []
  {
    xs[..|xs| - 1]
  }
}
