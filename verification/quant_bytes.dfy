/** Byte operations of the quantised formats (CGGML/ggml-quants.c). */
module QuantBytes {
  function Or(a: bv8, b: bv8): bv8 {
    a | b
  }

  function Low4(x: bv8): bv8 {
    x & 15
  }

  function High4(x: bv8): bv8 {
    x >> 4
  }

  function Up4(x: bv8): bv8 {
    x << 4
  }

  /** x << 2 * g */
  function Left(x: bv8, g: nat): bv8 {
    if g == 0 then x else if g == 1 then x << 2 else if g == 2 then x << 4 else x << 6
  }

  /** x >> 2 * g */
  function Right(x: bv8, g: nat): bv8 {
    if g == 0 then x else if g == 1 then x >> 2 else if g == 2 then x >> 4 else x >> 6
  }

  lemma Nibbles(a: bv8, b: bv8)
    ensures Low4(Or(Low4(a), Up4(Low4(b)))) == Low4(a) && High4(Or(Low4(a), Up4(Low4(b)))) == Low4(b)
  {
  }
}
