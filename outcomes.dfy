/** The result shapes the handlers return in place of the text they print. */
module Outcomes {

  /** The one environment failure this model keeps: the stored record
      exists but cannot be read. */
  datatype StoreError = ReadFailed

  /** Rust's `io::Result<T>` as far as the model needs it. */
  datatype Result<T> = Ok(value: T) | Err(error: StoreError)

  datatype Option<T> = None | Some(value: T)

  /** What a stat handler reports. `NoPetAdopted` is the "adopt first" reply
      (placeholder pet or unreadable store), `Declined` the reply when the
      handler's own guard refuses (already full, too tired), and `Applied`
      the reply after the stats were changed and saved. */
  datatype Outcome<R> = NoPetAdopted | Declined(name: string) | Applied(name: string, report: R)

  /** A stat named in a reaction message, with its reported change. */
  datatype StatKind = Hunger | Happiness | Energy | Cleanliness | Potty
  datatype Change = Change(stat: StatKind, delta: int)
}
