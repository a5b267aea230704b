/** A value that may be missing: pandas' NaN cell, or a key absent from one side of a join. */
module Optional {
  datatype Option<+T> = None | Some(value: T)
}
