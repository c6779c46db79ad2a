/** The optional value used where the C# code returns or stores `null`. */
module Wrappers {

  datatype Option<+T> = None | Some(value: T)
}
