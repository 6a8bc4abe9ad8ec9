/** A value that may be absent: a JavaScript `undefined`/`null`, a missing
    storage key, or a lookup that found nothing. */
module Options {

  datatype Option<+T> = None | Some(value: T) {

    /** The value when present, `default` otherwise (JavaScript's `x || default`
        on a value that is never falsy when present). */
    function GetOr(default: T): (r: T)
      ensures Some? ==> r == value
      ensures None? ==> r == default
    {
      match this
      case Some(v) => v
      case None => default
    }
  }
}
