/** A way to keep the verifier from looking into a predicate where only its name matters.  The body is put
    behind a quantifier over every `k` with `Look(k)`, which means the same because `Look` always holds,
    but which the verifier opens only where a proof mentions `Look`.  Each use says why it needs this. */
module Veil {
  predicate Look(k: nat) { true }

  /** A second one, for a veil behind a veil: opening the outer does not open the inner. */
  predicate Peek(k: nat) { true }
}
