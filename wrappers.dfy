/** The optional value the game uses for "no winner yet" and "no move". */
module Wrappers {
  datatype Option<+T> = None | Some(value: T)
}
