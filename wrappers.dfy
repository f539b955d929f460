/** The optional value used for the script's nullable variables and for parse results. */
module Wrappers {

  /** `None` stands for JavaScript's `null` (or `NaN` for a number that failed to parse). */
  datatype Option<+T> = None | Some(value: T)
}
