/** A nullable column, or a value a lookup may fail to find. */
module Options {
  datatype Option<+T> = None | Some(value: T)

  /** SQL's COALESCE. */
  function Coalesce<T>(o: Option<T>, otherwise: T): T {
    match o
    case Some(v) => v
    case None => otherwise
  }
}
