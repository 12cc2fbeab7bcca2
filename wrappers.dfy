/** The optional value used where the game code uses a null reference. */
module Wrappers {

  datatype Option<+T> = None | Some(value: T)

}
