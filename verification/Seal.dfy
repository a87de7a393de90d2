/** A key to predicates that are kept folded. Their body stands behind a quantifier that
    only a mention of the key opens, so proofs that merely pass them along never look
    inside. */
module Seal {
  datatype Unlock = Key

  predicate Opened(u: Unlock) {
    true
  }
}
