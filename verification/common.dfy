/** Small shared datatypes: an optional value, standing in for JavaScript's
    `null`/`undefined` and Python's `None`. */
module Common {

  datatype Option<+T> = None | Some(value: T)
}
