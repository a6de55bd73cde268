/** The optional value used for results that may be missing: a key that cannot
    be derived because the program would abort on it. */
module Wrappers {

  datatype Option<+T> = None | Some(value: T)
}
