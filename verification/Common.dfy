/** Datatypes shared by every component. */
module Common {

  /** A nullable column, a reference that may be nil, or a map lookup. */
  datatype Option<+T> = None | Some(value: T)

  /** How one durable action ends. `Failed` leaves the durable state as it was and
      reports an error to the caller; `Crashed` kills the process right before or
      right after the write reached the disk, so nothing else of the call runs. */
  datatype Outcome = Done | Failed | Crashed
}
