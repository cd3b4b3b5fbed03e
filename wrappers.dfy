/** Small failure-carrying datatypes shared by the other modules.
    `None` stands for pandas' NaN ("undefined"); `Failure` for an exception
    that would abort the run. */
module Wrappers {

  datatype Option<+T> = None | Some(value: T) {
    function GetOr(default: T): T {
      match this
      case Some(v) => v
      case None => default
    }
  }

  datatype Result<+T> = Success(value: T) | Failure(error: string)
}
