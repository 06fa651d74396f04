/** The optional value used where the scraper passes `None` for a page it could not fetch. */
module Wrappers {

  datatype Option<+T> = None | Some(value: T)

}
