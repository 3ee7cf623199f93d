/** Arithmetic shared by the models. */
module Arithmetic {

  const TWO_32: int := 0x1_0000_0000

  lemma MulMonotone(a: nat, b: nat, c: nat)
    requires a <= b
    ensures a * c <= b * c && c * a <= c * b
  {
  }
}
