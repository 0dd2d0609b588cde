/** Present-or-absent values, used where the program returns `undefined`. */
module Options {
  datatype Option<+T> = None | Some(value: T)
}
