/** Monotonicity of multiplication by a positive real, the step the snapping
    and layout proofs need and the solver does not take by itself. */
module RealArith {

  lemma MulMono(a: real, b: real, c: real)
    requires a <= b && c > 0.0
    ensures a * c <= b * c
  {
  }

  lemma MulStrict(a: real, b: real, c: real)
    requires a < b && c > 0.0
    ensures a * c < b * c
  {
  }
}
