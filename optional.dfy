/** A nullable value: `T | null` in the source's records, `undefined` from `find`. */
module Optional {

  datatype Option<+T> = None | Some(value: T)
}
