/** The optional values of the reporter's inputs: a TypeScript property that
    may be `undefined` is an `Option`, and `x ?? d` is `x.GetOr(d)`. */
module Wrappers {

  datatype Option<+T> = None | Some(value: T) {

    /** `x ?? default` */
    function GetOr(default: T): T {
      match this
      case Some(v) => v
      case None => default
    }
  }
}
