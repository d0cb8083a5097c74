/** An optional value, usable with `:-` so that a chain of partial steps
    (the pieces of a regular expression, say) reads top to bottom. */
module Options {

  datatype Option<+T> = None | Some(value: T) {

    predicate IsFailure() {
      None?
    }

    function PropagateFailure<U>(): Option<U>
      requires None?
    {
      None
    }

    function Extract(): T
      requires Some?
    {
      value
    }
  }
}
