/** The optional-value datatype used where the source has a missing attribute or `None`, and one sequence fact. */
module Wrappers {

  datatype Option<+T> = None | Some(value: T)

  /** Concatenation regroups freely; a call keeps a heavy proof context from having to see it. */
  lemma Assoc<T>(a: seq<T>, b: seq<T>, c: seq<T>)
    ensures (a + b) + c == a + (b + c)
  {
  }

}
