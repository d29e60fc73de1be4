/** Nullable values and step outcomes shared by every module of the model. */
module Outcomes {

  /** A value that may be absent: JavaScript's `null` / `undefined`. */
  datatype Option<+T> = None | Some(value: T)
  {
    /** The value, or `default` when absent (the `??` operator). */
    function GetOr(default: T): T {
      match this
      case Some(v) => v
      case None => default
    }
  }

  /** The outcome of an external step: a value, or the message of the error it reported or threw. */
  datatype Result<+T> = Ok(value: T) | Err(msg: string)
}
