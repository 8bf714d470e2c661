/** Concatenation, for proofs about long sums of sequences: it is cheaper to name the terms than
    to let the verifier compare elements. */
module Sequences {
  lemma Associate<T>(a: seq<T>, b: seq<T>, c: seq<T>)
    ensures (a + b) + c == a + (b + c)
  {
  }
}
