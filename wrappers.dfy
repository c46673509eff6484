/** The optional value used for host handles that may be null and for the
    deferred finalize step, which produces a match record or nothing. */
module Wrappers {

  datatype Option<+T> = None | Some(value: T)

}
