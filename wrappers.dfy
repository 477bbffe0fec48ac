/** Optional values, used where the Python code returns `None`. */
module Wrappers {

  datatype Option<+T> = None | Some(value: T)

  /** A request argument the source parses: missing or empty, present but not
      parseable (strptime raises ValueError), or parsed to a value. */
  datatype Arg<+T> = Absent | Unparsable | Given(value: T)
}
