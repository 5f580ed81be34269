/** The optional value used wherever the source has `T | null` or `T | undefined`. */
module Base {

  datatype Option<+T> = None | Some(value: T)
  {
    /** `x ?? d` */
    function GetOr(default: T): T
    {
      match this
      case Some(v) => v
      case None => default
    }
  }
}
