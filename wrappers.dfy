/** Python's `None` for the optional fields of the game (a cell's last visit, the learner's
    previous state and action). */
module Wrappers {
  datatype Option<+T> = None | Some(value: T)
}
