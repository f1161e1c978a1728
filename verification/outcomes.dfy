/** Results of operations that may have nothing to return or may fail. */
module Outcomes {

  datatype Option<+T> = None | Some(value: T)

  datatype Result<+T, +E> = Ok(value: T) | Err(error: E)

  /** How a call that writes ends: it works, it fails and writes nothing, or the write is made and the call
      fails all the same. */
  datatype Fate = Works | Refuses | Loses
}
