/** The Some/None datatype used for results that may be missing (a regex
    search without a match, a flag that is not on the command line). */
module Wrappers {

  datatype Option<+T> = None | Some(value: T)

}
