/** The optional value used wherever the daemon stores a nullable column or a nil pointer. */
module Options {

  datatype Option<+T> = None | Some(value: T) {

    /** The stored value, or the given one when there is none. */
    function GetOr(default: T): T {
      match this
      case Some(v) => v
      case None => default
    }
  }
}
