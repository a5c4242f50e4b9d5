/** An optional value: the model of `mir::optional_value`, of a nullable
    `char const*` and of an option that may be left unset. */
module Optional {

  datatype Option<+T> = None | Some(value: T) {

    /** The value if there is one, `default` otherwise. */
    function GetOr(default: T): T {
      match this
      case Some(v) => v
      case None => default
    }
  }
}
