/** The optional-value datatype used throughout the model. */
module Wrappers {

  /** `None` stands for "nothing": a dropped MIDI message, an unbound variable. */
  datatype Option<+T> = None | Some(value: T)
}
