/** Small shared helpers used by the client and server models. */
module Common {

  /** A value that may be absent: a JavaScript `undefined`, a missing form field. */
  datatype Option<+T> = None | Some(value: T) {

    /** The carried value, or `default` when there is none. */
    function GetOr(default: T): (r: T)
      ensures Some? ==> r == value
      ensures None? ==> r == default
    {
      match this
      case Some(v) => v
      case None => default
    }
  }
}
