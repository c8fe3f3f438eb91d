/** Values that may be missing: nullable columns, optional request fields. */
module Options {

  datatype Option<+T> = None | Some(value: T)

  function GetOr<T>(o: Option<T>, default: T): T {
    if o.Some? then o.value else default
  }
}
