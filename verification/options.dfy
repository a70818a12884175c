/** The optional value used throughout the configuration: a direction may or may not
    have an input source configured. */
module Options {

  datatype Option<+T> = None | Some(value: T) {

    /** This value if present, otherwise `other` (Rust's `Option::or`). */
    function Or(other: Option<T>): Option<T> {
      match this
      case Some(_) => this
      case None => other
    }
  }

  /** `Or` keeps the first present value of a chain, wherever the chain is split. */
  lemma OrAssociative<T>(a: Option<T>, b: Option<T>, c: Option<T>)
    ensures a.Or(b).Or(c) == a.Or(b.Or(c))
  {
  }
}
