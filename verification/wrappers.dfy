/** The optional value shared by the rule table and the advice decoder. */
module Wrappers {

  datatype Option<+T> = None | Some(value: T)
}
