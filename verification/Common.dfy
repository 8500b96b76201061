/** Types shared by the models of the gateway's components. */
module Common {
  /** A value that may be absent: Python's `None`, or a missing dictionary key. */
  datatype Option<+T> = None | Some(value: T)

  /** Python's truth test for an id: absent and empty are the same. */
  predicate Truthy(id: Option<string>) {
    id.Some? && id.value != ""
  }
}
