/** Small shared vocabulary: the optional value that stands for JavaScript's
    `null`/`undefined` and Python's `None`. */
module Common {

  datatype Option<+T> = None | Some(value: T) {

    /** The wrapped value, or `default` when there is none. */
    function GetOr(default: T): T {
      match this
      case Some(v) => v
      case None => default
    }
  }
}
