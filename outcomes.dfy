/** Error-carrying results for the scoring engine. A lookup that finds no
    record yields `Err` with the message the engine reports, never a
    zero-valued success. */
module Outcomes {

  datatype Option<+T> = None | Some(value: T)

  datatype Result<+T> = Ok(value: T) | Err(message: string)
}
