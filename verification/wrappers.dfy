/** The Some/None datatype used wherever the dashboard returns `null`,
    `undefined` or `-1` for "not found". */
module Wrappers {

  datatype Option<+T> = None | Some(value: T)
}
