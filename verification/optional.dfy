/** An optional value, for JavaScript parameters and results that may be `undefined` or `null`. */
module Optional {

  datatype Option<+T> = None | Some(value: T) {

    /** `x ?? d` for an optional parameter with a default. */
    function GetOr(default: T): (r: T)
      ensures Some? ==> r == value
      ensures None? ==> r == default
    {
      match this
      case Some(v) => v
      case None => default
    }
  }
}
