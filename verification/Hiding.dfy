/** Predicates with long definitions are written `forall key :: Unfold(key) ==> ...`: the
    verifier then looks at the definition only where a proof says `assert Unfold(0)`. */
module Hiding {
  predicate Unfold(key: int) { true }
}
