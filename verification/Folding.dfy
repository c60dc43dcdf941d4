/** How large invariants are kept folded. */
module Folding {
  /** A predicate of the form "whenever Opened(x, _), F" is F, kept folded: the verifier
      looks inside only where Opened(x, 0) is asserted. */
  predicate Opened<T>(x: T, key: int) {
    true
  }
}
