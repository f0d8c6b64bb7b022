/** Option and Result, shared by the other modules. */
module Wrappers {

  datatype Option<+T> = None | Some(value: T) {
    function GetOr(default: T): T {
      match this
      case Some(v) => v
      case None => default
    }
  }

  /** `Err` stands for any error the original returns; its text is not modelled. */
  datatype Result<+T> = Err | Ok(value: T)
}
