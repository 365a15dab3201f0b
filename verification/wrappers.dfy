/** Failure-carrying datatypes shared by the decoders and the loaders.
    `Option` stands for a JavaScript value that may be `undefined`/`null`;
    `Result` stands for a call that either returns or throws. */
module Wrappers {

  datatype Option<+T> = None | Some(value: T) {

    function GetOr(default: T): T {
      match this
      case Some(v) => v
      case None => default
    }
  }

  datatype Result<+R, +E> = Success(value: R) | Failure(error: E)
}
