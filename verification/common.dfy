/** The conventional optional value, used for the optional colours of a block
    and for the results of the parsers that serve as inverses of the serialisers. */
module Optional {

  datatype Option<+T> = None | Some(value: T)
}

/** Facts about sequence concatenation the proofs use by name. */
module Sequences {

  /** Concatenation regroups freely. */
  lemma AppendAssoc<T>(a: seq<T>, b: seq<T>, c: seq<T>)
    ensures (a + b) + c == a + (b + c)
  {
  }
}
