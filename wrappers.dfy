/** The optional value used throughout the model, standing for Go's nil
    pointers, nil maps and "comma ok" lookups. */
module Wrappers {

  datatype Option<+T> = None | Some(value: T)
}
