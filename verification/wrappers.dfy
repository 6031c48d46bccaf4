/** The optional-value datatype used for Pac-Man's buffered turn request
    (`null` in the game) and for an unset running minimum (`Infinity`). */
module Wrappers {
  datatype Option<+T> = None | Some(value: T)
}
