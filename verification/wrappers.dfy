/** The optional value that the C# code expresses with `null`. */
module Wrappers {
  datatype Option<+T> = None | Some(value: T)
}
