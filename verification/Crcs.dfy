/** 16-bit hashes of names, combined by exclusive or. */
module Crcs {
  datatype Crc = Crc(bits: bv16)

  const Zero := Crc(0)

  function Xor(a: Crc, b: Crc): Crc {
    Crc(a.bits ^ b.bits)
  }

  lemma XorAssociative(a: Crc, b: Crc, c: Crc)
    ensures Xor(Xor(a, b), c) == Xor(a, Xor(b, c))
  {
  }

  lemma XorZero(a: Crc)
    ensures Xor(a, Zero) == a && Xor(a, a) == Zero
  {
  }

  lemma XorCancel(a: Crc, b: Crc, c: Crc)
    ensures Xor(a, c) == Xor(b, c) <==> a == b
  {
    var x, y, z := a.bits, b.bits, c.bits;
    assert (x ^ z) ^ z == x && (y ^ z) ^ z == y;
  }
}
