/** The optional value used throughout the model. In the modelled
    TypeScript it stands for a value that may be `undefined`: a missing
    request field, a missing property, or a `null` return. */
module Optional {

  datatype Option<+T> = None | Some(value: T) {

    /** The value, or `d` when there is none. */
    function GetOr(d: T): T {
      match this
      case Some(v) => v
      case None => d
    }
  }
}
