/** Optional values, used for absent importer channels and for lookups that may fail. */
module Wrappers {

  datatype Option<+T> = None | Some(value: T)

}

/** Facts about sequences that the loader's proofs rely on. */
module Sequences {

  lemma AppendAssoc<T>(a: seq<T>, b: seq<T>, c: seq<T>)
    ensures (a + b) + c == a + (b + c)
  {
  }

}
