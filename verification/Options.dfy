/** The optional value every component of the model shares: a column that may be NULL, a lookup that may miss. */
module Options {
  datatype Option<+T> = None | Some(value: T) {
    /** The value, or a default where there is none. */
    function Or(default: T): T {
      if Some? then value else default
    }

    /** This one, or another where there is none. */
    function Else(other: Option<T>): Option<T> {
      if Some? then this else other
    }
  }
}
