/** An optional value: a missing form field, a query that found no single row. */
module Optional {

  datatype Option<+T> = None | Some(value: T)

}
