/** The optional value the model uses wherever the scraper's HTML queries may come back empty-handed
    (`find` returning None, an empty `find_all`, a missing attribute), and for parses that may fail. */
module Options {

  datatype Option<+T> = None | Some(value: T) {

    predicate IsFailure() {
      None?
    }

    function PropagateFailure<U>(): Option<U>
      requires None?
    {
      None
    }

    function Extract(): T
      requires Some?
    {
      value
    }
  }
}
