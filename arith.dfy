/** The one fact about products that the index arithmetic elsewhere builds on. */
module Arith {
  /** A product of naturals is a natural (stated as an implication so callers may pass any integers). */
  lemma MulNonneg(a: int, b: int)
    ensures a >= 0 && b >= 0 ==> a * b >= 0
  {
  }
}
