// A byte's value survives the trip through its bits.
module ByteValues {
  lemma AsBits(x: int)
    requires 0 <= x < 256
    ensures (x as bv8) as int == x
  {
    var bits := BitsOf(x);
    FromBits(x, bits);
  }

  // Counting up to `x` in bits.
  lemma {:induction false} BitsOf(x: int) returns (bits: bv8)
    requires 0 <= x < 256
    ensures bits as int == x
  {
    if x == 0 {
      bits := 0;
    } else {
      var below := BitsOf(x - 1);
      NotLast(below);
      Successor(below);
      bits := below + 1;
    }
  }

  lemma Successor(bits: bv8)
    requires bits != 255
    ensures (bits + 1) as int == bits as int + 1
  {
  }

  lemma NotLast(bits: bv8)
    requires bits as int < 255
    ensures bits != 255
  {
  }

  lemma FromBits(x: int, bits: bv8)
    requires 0 <= x < 256 && bits as int == x
    ensures x as bv8 == bits
  {
  }
}
