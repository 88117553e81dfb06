/** SQL NULL and JavaScript `undefined`/`null`, as an optional value. */
module Options {
  datatype Option<T> = None | Some(value: T) {
    /** `COALESCE(x, d)` in SQL, `x || d` in JavaScript for a non-falsy x. */
    function GetOr(default: T): T {
      match this
      case Some(v) => v
      case None => default
    }
  }
}
