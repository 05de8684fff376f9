/** The 32-bit words of the demo ciphers. */
module Words {
  type Word = bv32

  function Xor(a: Word, b: Word): Word { a ^ b }

  // Rotation to the left.
  function Rotl(x: Word, n: nat): Word
    requires n <= 32
  {
    (x << n) | (x >> (32 - n))
  }
}
