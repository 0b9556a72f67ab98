/** A byte survives the trip through eight bits. */
module ByteRange {
  lemma OctetRound(n: int)
    requires 0 <= n < 256
    ensures (n as bv8) as int == n
  {
  }
}

/** The bits of an octet, and the two bitwise operations secretEquals is made of. */
module Octets {
  import opened ByteRange

  /** `(unsigned char) c` */
  function Bits(c: char): bv8
    requires c as int < 256
  {
    (c as int) as bv8
  }

  lemma BitsRound(c: char)
    requires c as int < 256
    ensures Bits(c) as int == c as int
  {
    OctetRound(c as int);
  }

  lemma XorIsZero(x: bv8, y: bv8)
    ensures x ^ y == 0 <==> x == y
  {
  }

  lemma XorZero(a: char, b: char)
    requires a as int < 256 && b as int < 256
    ensures Bits(a) ^ Bits(b) == 0 <==> a == b
  {
    XorIsZero(Bits(a), Bits(b));
    if Bits(a) == Bits(b) {
      BitsRound(a);
      BitsRound(b);
      calc {
        a as int;
        Bits(a) as int;
        Bits(b) as int;
        b as int;
      }
    }
  }

  lemma OrZero(x: bv8, y: bv8)
    ensures x | y == 0 <==> x == 0 && y == 0
  {
  }
}
