/** Small failure-carrying datatypes shared by the whole model. */
module Wrappers {

  datatype Option<+T> = None | Some(value: T)

  /** The ways the original program stops a run: an exception that nobody
      catches, or an explicit exit. */
  datatype Fault =
    | ValueError        // int() applied to a malformed piece of text
    | KeyError          // a dictionary or data-frame lookup of an absent key
    | TypeError         // a call with the wrong number of arguments, or iteration over a non-list
    | RuntimeError      // a bare `raise` outside an exception handler
    | EmptyWindow       // the query returned no rows: the program exits
    | DuplicateEntries  // pivot found two values for one (timestamp, tag name) cell

  datatype Result<+T> = Ok(value: T) | Err(fault: Fault)
}
