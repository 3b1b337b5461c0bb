/** The optional value used wherever the scraper's code either produces a value
    or raises an exception that a surrounding `try` swallows. */
module Wrappers {

  datatype Option<+T> = None | Some(value: T)
}
