/** A step that sequence proofs need spelled out. */
module Sequences {
  lemma JoinLeft<T>(a: seq<T>, b: seq<T>, c: seq<T>)
    ensures (a + b) + c == a + (b + c)
  {
  }
}
