/** The nullable values of the JavaScript source (`null`, `undefined`, a missing field). */
module Optional {

  datatype Option<+T> = None | Some(value: T) {

    /** The value when present, the given default otherwise (the `??`/`||` fallbacks of the source). */
    function GetOr(default: T): T {
      match this
      case Some(v) => v
      case None => default
    }
  }
}
