/** Facts about 32-bit words used as sets of flag bits (C's `unsigned`),
    kept apart so that proofs over tables need only instantiate them. */
module Bits {

  /** Bit k of w is set. */
  predicate Bit(w: bv32, k: bv32)
    requires k < 32
  {
    (w >> k) & 1 == 1
  }

  lemma BitOr(a: bv32, b: bv32, k: bv32)
    requires k < 32
    ensures Bit(a | b, k) <==> Bit(a, k) || Bit(b, k)
  {
  }

  lemma BitZero(k: bv32)
    requires k < 32
    ensures !Bit(0, k)
  {
  }

  lemma OrZeroLeft(y: bv32)
    ensures 0 | y == y
  {
  }

  lemma OrAssoc(a: bv32, b: bv32, c: bv32)
    ensures a | (b | c) == (a | b) | c
  {
  }

  lemma OrZeroRight(y: bv32)
    ensures y | 0 == y
  {
  }

  /** OR-ing into a word either a flag or nothing keeps it inside the mask
      widened by that flag. */
  lemma OrWithin(a: bv32, mask: bv32, x: bv32, g: bv32)
    requires a & !mask == 0 && (x == g || x == 0)
    ensures (a | x) & !(mask | g) == 0
  {
  }
}
