/** The kinds of access the observation layer reports to the engine: the
    first four are writes passed to `trigger`, the last three are reads
    passed to `track`. */
module Operations {
  import opened Values

  datatype OperationType = Set | Add | Delete | Clear | Get | Has | Iterate {

    /** Reads are reported with `track`. */
    predicate IsRead() {
      Get? || Has? || Iterate?
    }

    /** Writes are reported with `trigger`. */
    predicate IsWrite() {
      !IsRead()
    }

    /** Writes that change which keys exist, and so invalidate iteration. */
    predicate ChangesKeySet() {
      Add? || Delete?
    }
  }

  /** A `track` or `trigger` call an interception makes on its raw target,
      as data: the runtime forwards it to the engine. */
  datatype Event = NoEvent | Tracks(op: OperationType, key: Value) | Triggers(op: OperationType, key: Value)
}
