/** The optional-value datatype used throughout the model: `None` stands for Go's
    `nil` (no error, no sender, no parse result). */
module Wrappers {

  datatype Option<+T> = None | Some(value: T)
}
