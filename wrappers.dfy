/** Small failure-compatible wrappers used across the model. */
module Wrappers {

  /** An optional value: the absent `existing_value` of the merge hook, a missing key. */
  datatype Option<+T> = None | Some(value: T)

  /** The two ways an index operation ends: normally, or with an index fault
      (the `index_exception` of the implementation). */
  datatype Outcome = Success | IndexFault
}
