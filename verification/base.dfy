/** Shared wrapper types: JavaScript's `null`/`undefined` results become `None`. */
module Base {

  /** A value that may be missing, as `Array.prototype.find` may return `undefined`. */
  datatype Option<+T> = None | Some(value: T)
}
