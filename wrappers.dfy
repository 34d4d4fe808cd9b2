/** Java's nullable references, as an explicit option. */
module Wrappers {

  datatype Option<+T> = None | Some(value: T) {

    /** This option when it holds a value, otherwise `other`. */
    function Or(other: Option<T>): (r: Option<T>)
      ensures Some? ==> r == this
      ensures None? ==> r == other
    {
      if Some? then this else other
    }
  }
}
