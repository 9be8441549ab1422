/** Datatypes shared by the models: optional values, results that carry the
    source's exceptions, and the ways one database write can end. */
module Common {

  datatype Option<+T> = None | Some(value: T)

  datatype Result<+T, +E> = Ok(value: T) | Err(error: E)

  /** How one awaited write ends, seen from both sides of the connection.
      `Ambiguous` is a commit whose acknowledgement was lost: the row is
      written and the caller sees an exception. A crash stops the process at
      the await, with or without the row. */
  datatype WriteOutcome = Committed | Refused | Ambiguous | CrashedBefore | CrashedAfter {

    /** The row holds the new value afterwards. */
    predicate Durable() {
      Committed? || Ambiguous? || CrashedAfter?
    }

    predicate Crashed() {
      CrashedBefore? || CrashedAfter?
    }
  }

  function MaxReal(a: real, b: real): real {
    if a < b then b else a
  }

  function AbsReal(a: real): real {
    if a < 0.0 then -a else a
  }
}
