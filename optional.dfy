/** A value that may be missing: the model of a pandas NaN entry in a column. */
module Optional {

  datatype Option<+T> = None | Some(value: T)

}
