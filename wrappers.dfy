/** The nullable values of the application (`T | null`) as an Option. */
module Wrappers {

  datatype Option<+T> = None | Some(value: T)
}
