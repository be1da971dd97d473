/** Numbers below 256 as bits. */
module ByteBits {
  /** Eight bits hold such a number. */
  lemma EightBits(x: int)
    requires 0 <= x < 0x100
    ensures (x as bv8) as int == x
  {
  }
}
