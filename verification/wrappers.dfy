/** The one failure-carrying type the model needs: a value or nothing.
    `None` stands for the places where the source throws (a negative
    `String.repeat` count, indexing an empty `split` result). */
module Wrappers {

  datatype Option<+T> = None | Some(value: T)
}
