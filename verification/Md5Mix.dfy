// The auxiliary functions of MD5, on 32-bit words.
module Md5Mix {
  type Word = bv32

  // RFC 1321 section 3.4.
  function F(x: Word, y: Word, z: Word): Word {
    (x & y) | (!x & z)
  }

  function G(x: Word, y: Word, z: Word): Word {
    (x & z) | (y & !z)
  }

  function H(x: Word, y: Word, z: Word): Word {
    x ^ y ^ z
  }

  function I(x: Word, y: Word, z: Word): Word {
    y ^ (x | !z)
  }

  // The auxiliary functions for machines without an and-not instruction.
  function FastF(x: Word, y: Word, z: Word): Word {
    z ^ (x & (y ^ z))
  }

  function FastG(x: Word, y: Word, z: Word): Word {
    y ^ (z & (x ^ y))
  }

  // Selecting by exclusive or: where x is set the bits of y, elsewhere those of z.
  lemma Select(x: Word, y: Word, z: Word)
    ensures z ^ (x & (y ^ z)) == (x & y) | (!x & z)
  {
  }

  lemma SelectTurned(x: Word, y: Word, z: Word)
    ensures y ^ (z & (x ^ y)) == (x & z) | (y & !z)
  {
  }

  // The shortened F and G compute the functions of the RFC.
  lemma FastFIsF(x: Word, y: Word, z: Word)
    ensures FastF(x, y, z) == F(x, y, z)
  {
    Select(x, y, z);
  }

  lemma FastGIsG(x: Word, y: Word, z: Word)
    ensures FastG(x, y, z) == G(x, y, z)
  {
    SelectTurned(x, y, z);
  }
}
