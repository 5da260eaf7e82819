/** What `parseFloat` or `parseInt` gives back: a number, or `None` for the NaN
    they return on input they cannot read. */
module Options {

  datatype Option<+T> = None | Some(value: T) {

    /** The script's `parsed || 0`: a NaN is replaced by the fallback. */
    function Or(fallback: T): T {
      if None? then fallback else value
    }
  }
}
