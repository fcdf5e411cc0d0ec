/** The Option type shared by the modules of this model.
    `None` stands for Java's `null` and for JavaScript's missing values where
    the source distinguishes a present value from an absent one. */
module Wrappers {

  datatype Option<+T> = None | Some(value: T) {
    function GetOr(default: T): T {
      match this
      case Some(v) => v
      case None => default
    }
  }
}
